/** A trace that leaves out the second call of a function in one statement, without being marked
    (pkg/internal/trace/forward.go). */
module SiteCases {
  import opened Options
  import opened CodeProgram
  import opened Origins
  import opened Flow
  import opened Visits
  import opened Tracing
  import opened TraceCases

  // ----- Two calls of one function: x = g(f(), h(f()))

  const V := Span(8, 9)
  const P := Span(18, 19)
  const Q := Span(28, 29)
  const F1 := Span(36, 39)
  const H := Span(41, 47)
  const F2 := Span(43, 46)

  /** `f` returns a value, `g` and `h` bind their parameters, and one statement calls `f` twice. */
  function Nested(): Program {
    Program(
      [Unit("main", false, {}, [0, 1, 2, 3])],
      [Func("f", [], Span(0, 10), None, 0), Func("g", ["p"], Span(10, 20), None, 0),
        Func("h", ["q"], Span(20, 30), None, 0)],
      [Stmt(0, Span(1, 9), Some(0), [], Expr(V, [Ref("v", V)]), [], true),
       Stmt(0, Span(11, 19), Some(1), ["u"], Expr(P, [Ref("p", P)]), [], false),
       Stmt(0, Span(21, 29), Some(2), ["w"], Expr(Q, [Ref("q", Q)]), [], false),
       Stmt(0, Span(30, 48), None, ["x"], Expr(Span(34, 48), []), [0, 1, 2, 3], false)],
      [Call(3, Span(34, 48), "g", "", [Arg("", Expr(F1, [])), Arg("", Expr(H, []))]),
       Call(3, F1, "f", "", []),
       Call(3, H, "h", "", [Arg("", Expr(F2, []))]),
       Call(3, F2, "f", "", [])],
      (name: string) => false)
  }

  const RETURNED := Subject(0, V, None)

  const CALLED := iset{Flowing(0, [V]), Flowing(3, [F1]), Flowing(1, [P])}

  const REACHED := Region({Key(3, "f"), Key(1, "p")}, CALLED, 2, 10)

  lemma {:induction false} NestedValid()
    ensures Nested().Valid() && RETURNED.Valid(Nested())
    ensures |Nested().stmts| == 4 && |Nested().calls| == 4 && |Nested().funcs| == 3 && |Nested().units| == 1
  {
  }

  lemma {:induction false} NestedTargets()
    ensures var p := Nested();
            && p.Target(p.calls[0].callee) == Some(1) && p.Target(p.calls[1].callee) == Some(0)
            && p.Target(p.calls[2].callee) == Some(2) && p.Target(p.calls[3].callee) == Some(0)
  {
    var p := Nested();
    assert AfterDot("f") == "f" && AfterDot("g") == "g" && AfterDot("h") == "h";
    assert p.FirstNamed("f", 0) == Some(0);
    assert p.FirstNamed("g", 0) == Some(1) by { assert p.FirstNamed("g", 1) == Some(1); }
    assert p.FirstNamed("h", 0)
      == Some(2) by { assert p.FirstNamed("h", 2) == Some(2) && p.FirstNamed("h", 1) == Some(2); }
  }

  lemma {:induction false} NestedCalling(c: nat)
    requires c < 4
    ensures Calling(Nested(), 0)(c) <==> c == 1 || c == 3
  {
    hide Program.Target;
    NestedTargets();
  }

  lemma {:induction false} NestedSites()
    ensures Nested().Valid() && CallSitesOf(Nested(), 0) == [1, 3]
  {
    hide Filter, Calling, CallsOf, AllStmts, Program.Valid, Program.Target;
    NestedValid();
    NestedCalls();
    var keep := Calling(Nested(), 0);
    forall c: nat | c < 4 ensures keep(c) <==> c == 1 || c == 3 {
      NestedCalling(c);
    }
    OddCalls(keep);
  }

  lemma {:induction false} OddCalls(keep: nat -> bool)
    requires forall c: nat :: c < 4 ==> (keep(c) <==> c == 1 || c == 3)
    ensures Filter<nat>([0, 1, 2, 3], keep) == [1, 3]
  {
    hide Filter;
    FilterNone<nat>([], keep);
    FilterOne([], 0, keep);
    FilterOne([0], 1, keep);
    FilterOne([0, 1], 2, keep);
    FilterOne([0, 1, 2], 3, keep);
    OneMore();
  }

  lemma {:induction false} OneMore()
    ensures [] + [0] == [0] && [0] + [1] == [0, 1] && [0, 1] + [2] == [0, 1, 2] && [0, 1, 2] + [3] == [0, 1, 2, 3]
  {
  }

  lemma {:induction false} FilterOne(xs: seq<nat>, x: nat, keep: nat -> bool)
    ensures Filter(xs + [x], keep) == Filter(xs, keep) + if keep(x) then [x] else []
  {
    assert (xs + [x])[..|xs|] == xs;
  }

  lemma {:induction false} NestedFirst(c: nat)
    requires c < 4 && Nested().Valid()
    ensures FirstSite(Nested(), 0, c) <==> c == 1
  {
    hide CallSitesOf, Program.Valid;
    NestedSites();
    var sites := CallSitesOf(Nested(), 0);
    assert Nested().calls[sites[0]].stmt == Nested().calls[sites[1]].stmt;
    if c == 1 {
      assert sites[0] == 1 && NoneBefore(Nested(), sites, 0);
    }
  }

  lemma {:induction false} NestedStmts()
    ensures Nested().Valid() && AllStmts(Nested()) == [0, 1, 2, 3]
  {
    hide Program.Valid;
    NestedValid();
    assert StmtsTo(Nested(), 0) == [];
  }

  lemma {:induction false} NestedCalls()
    ensures Nested().Valid() && CallsOf(Nested(), AllStmts(Nested())) == [0, 1, 2, 3]
  {
    hide Program.Valid, CallsOf, AllStmts;
    NestedValid();
    NestedStmts();
    LastCalls(Nested());
  }

  lemma {:induction false} LastCalls(p: Program)
    requires p.Valid() && |p.stmts| == 4 && p.stmts[0].calls == p.stmts[1].calls == p.stmts[2].calls == []
    ensures CallsOf(p, [0, 1, 2, 3]) == p.stmts[3].calls
  {
    hide Program.Valid, CallsOf;
    NoCalls(p);
    CallsOfOne(p, [], 0);
    CallsOfOne(p, [0], 1);
    CallsOfOne(p, [0, 1], 2);
    CallsOfOne(p, [0, 1, 2], 3);
    OneMore();
  }

  lemma {:induction false} NoCalls(p: Program)
    requires p.Valid()
    ensures CallsOf(p, []) == []
  {
  }

  /** Nothing uses what the statements bind, and the callers of `f` are in one statement. */
  lemma {:induction false} NestedClosed(st: nat, keys: set<Key>)
    requires st < 4 && Key(3, "f") in keys && Nested().Valid()
    ensures ClosedAt(Nested(), st, keys)
  {
    hide Uses, UsersOf, Program.Valid, CallSitesOf;
    var p := Nested();
    forall k | 0 <= k < |p.stmts[st].binds| ensures UsersKeyed(p, p.stmts[st].binds[k], st, keys) {
      NestedUnused(st, k);
    }
    if st == 0 {
      NestedSites();
    }
  }

  lemma {:induction false} NestedUnused(st: nat, k: nat)
    requires st < 4 && Nested().Valid() && k < |Nested().stmts[st].binds|
    ensures UsersOf(Nested(), Nested().stmts[st].binds[k], st) == []
  {
    hide Reaches, Wide, After, Program.Valid, Filter;
    var p, name := Nested(), Nested().stmts[st].binds[k];
    forall u: nat ensures !Uses(p, name, st, u) {
    }
    FilterNone(AllStmts(p), Using(p, name, st));
  }

  lemma {:induction false} NestedGiven(sp: Span)
    ensures GivenNames(Nested(), 0, 1, sp) == if Inside(F1, sp.start) then ["p"] else []
    ensures GivenNames(Nested(), 2, 2, sp) == if Inside(F2, sp.start) then ["q"] else []
  {
    var p := Nested();
    FirstFitUnique(p.calls[0], p.funcs[1], 0, 0);
    FirstFitUnique(p.calls[2], p.funcs[2], 0, 0);
    assert GivenTo(p, 0, 1, sp, 0) == [] && GivenTo(p, 2, 2, sp, 0) == [];
  }

  lemma {:induction false} NestedWithin(f: nat, st: nat)
    requires Nested().Valid() && f < 3 && st < 4
    ensures Nested().stmts[st].scope.Some? && Nested().Within(Nested().stmts[st].scope, Some(f)) <==> st == f
  {
    hide Program.Valid;
  }

  lemma {:induction false} NestedReceives(f: nat, name: string, st: nat)
    requires Nested().Valid() && f < 3 && st < 4 && name in ["p", "q"]
    ensures Receives(Nested(), f, [name], st)
       <==> (f == 1 && name == "p" && st == 1) || (f == 2 && name == "q" && st == 2)
  {
    hide Program.Valid, Program.Within, Occurrences;
    var p := Nested();
    NestedWithin(f, st);
    assert Spread(p, f, [name]) == [name];
    if st < 3 {
      OneOccurrence(p.stmts[st].value.refs, [name]);
    }
  }

  lemma {:induction false} NestedEntered(keys: set<Key>)
    requires Key(1, "p") in keys && Nested().Valid()
    ensures CallsEntered(Nested(), 3, F1, keys)
  {
    hide GivenNames, Receives, Program.Valid, Program.Target;
    NestedTargets();
    NestedGiven(F1);
    var p := Nested();
    forall k | 0 <= k < |p.stmts[3].calls| && Takes(p.calls[p.stmts[3].calls[k]], F1)
      ensures Entered(p, p.stmts[3].calls[k], F1, keys)
    {
      assert k == 0;
      forall st | 0 <= st < 4 && Receives(p, 1, ["p"], st) ensures st == 1 {
        NestedReceives(1, "p", st);
      }
    }
  }

  lemma {:induction false} NestedVisits(key: Key, spans: seq<Span>)
    requires Nested().Valid() && key in REACHED.keys && Visit(Nested(), key, spans)
    ensures Flowing(key.st, spans) in CALLED
  {
    hide Program.Valid, Program.Target, GivenNames, Occurrences, Bindable, FirstSite;
    var p := Nested();
    if key == Key(3, "f") {
      assert forall names :: Occurrences(p.stmts[3].value.refs, names) == [] by { NoOccurrence(); }
      if CallOf(p, key, spans) {
        var c, f :| 0 <= c < |p.calls| && 0 <= f < |p.funcs| && FirstSite(p, f, c)
          && p.calls[c].stmt == key.st && p.funcs[f].name == key.name && spans == [p.calls[c].span];
        NestedFirst(c);
      }
    } else {
      OneOccurrence(p.stmts[1].value.refs, ["p"]);
      if ParamOf(p, key, spans) {
        var c, f, sp :| 0 <= c < |p.calls| && 0 <= f < |p.funcs| && PassedTo(p, c, f, sp, key)
          && spans == Occurrences(p.stmts[key.st].value.refs, Spread(p, f, GivenNames(p, c, f, sp)));
        OneOccurrence(p.stmts[1].value.refs, Spread(p, f, GivenNames(p, c, f, sp)));
        assert Spread(p, f, GivenNames(p, c, f, sp))[0] == "p";
      }
    }
  }

  lemma {:induction false} NoOccurrence()
    ensures forall names :: Occurrences([], names) == []
  {
  }

  lemma {:induction false} NestedFlows(v: Flowing)
    requires v in CALLED && Nested().Valid()
    ensures v.st < 4 && ClosedAt(Nested(), v.st, REACHED.keys)
      && NotSkippedEntered(Nested(), v.st, v.spans, REACHED.keys)
  {
    hide ClosedAt, Entered, Takes, Program.Valid;
    NestedClosed(v.st, REACHED.keys);
    if v.st == 3 {
      hide CallsEntered;
      NestedEntered(REACHED.keys);
    }
  }

  lemma {:induction false} NestedStarts()
    ensures Nested().Valid() && RETURNED.Valid(Nested()) && Starts(Nested(), REACHED, RETURNED)
  {
    hide Visit, ClosedAt, NotSkippedEntered, Program.Valid;
    NestedValid();
    forall key, spans | key in REACHED.keys && Visit(Nested(), key, spans) ensures Flowing(key.st, spans) in CALLED {
      NestedVisits(key, spans);
    }
    forall v | v in CALLED
      ensures v.st < 4 && ClosedAt(Nested(), v.st, REACHED.keys)
        && NotSkippedEntered(Nested(), v.st, v.spans, REACHED.keys)
    {
      NestedFlows(v);
    }
  }

  /** A call whose arguments mention no name needs no lookup. */
  lemma {:induction false} NoLookups(p: Program, c: nat, n: nat)
    requires p.Valid() && c < |p.calls| && p.calls[c].receiver == "" && n <= |p.calls[c].args|
    requires forall i :: 0 <= i < |p.calls[c].args| ==> p.calls[c].args[i].expr.refs == []
    ensures ArgsFrom(p, MAX_DEPTH, c, n) == [] && ReceiverOf(p, MAX_DEPTH, c) == []
  {
    hide SourcesOf, ParamName, OriginOf;
    if n > 0 {
      NoLookups(p, c, n - 1);
      NoSource(p, MAX_DEPTH + 1, ParamName(p.calls[c].args[n - 1], n - 1), p.calls[c].stmt);
    }
  }

  lemma {:induction false} NestedCost(c: nat)
    requires c < 4 && Nested().Valid()
    ensures LookupsFor(Nested(), c) == 0
  {
    hide Program.Valid, ArgsFrom, ReceiverOf;
    NoLookups(Nested(), c, |Nested().calls[c].args|);
  }

  lemma {:induction false} NestedSmall()
    ensures Nested().Valid() && Small(Nested(), REACHED)
  {
    hide LookupsFor, Program.Valid;
    NestedValid();
    forall c | 0 <= c < 4 ensures LookupsFor(Nested(), c) == 0 {
      NestedCost(c);
    }
    assert |REACHED.keys| == 2;
  }

  /** The second call of `f` is an argument of `h`, whose parameter is used. */
  lemma {:induction false} NestedMissed(keys: set<Key>)
    requires Key(2, "q") !in keys && Nested().Valid()
    ensures Given(Nested(), 2, 2, 0, F2) && Receives(Nested(), 2, ["q"], 2) && !Entered(Nested(), 2, F2, keys)
  {
    hide GivenNames, Program.Valid, Program.Target;
    NestedTargets();
    NestedGiven(F2);
    var p := Nested();
    FirstFitUnique(p.calls[2], p.funcs[2], 0, 0);
    NestedReceives(2, "q", 2);
    assert p.units[0].stmts[2] == 2;
  }

  /** No earlier span has the innermost call of the second call of `f`. */
  lemma {:induction false} NestedAlone()
    ensures Nested().Valid() && Innermost(Nested(), 3, 2, F2) && Alone(Nested(), 3, [F2], 0)
      && Alone(Nested(), 3, [F1, F2], 1)
  {
    hide Program.Valid;
    NestedValid();
    var p := Nested();
    assert Inside(p.calls[2].args[0].expr.span, F2.start) && p.stmts[3].calls[2] == 2;
  }

  /** All names of the program are apart. */
  lemma {:induction false} NestedPlain()
    ensures Nested().Valid() && Apart(Nested()) && Plain(Nested(), "f")
  {
    hide Program.Valid;
    NestedValid();
  }

  lemma {:induction false} NestedFollowed(keys: set<Key>)
    requires Nested().Valid() && ClosedAt(Nested(), 0, keys) && forall key :: key in keys ==>
      Explored(Nested(), key, keys)
    ensures Key(3, "f") in keys && Key(1, "p") in keys
  {
    hide Program.Valid, Explored, UsersOf;
    NestedSites();
    assert Key(Nested().calls[CallSitesOf(Nested(), 0)[0]].stmt, "f") in keys;
    NestedExplored(keys);
  }

  lemma {:induction false} NestedExplored(keys: set<Key>)
    requires Nested().Valid() && Explored(Nested(), Key(3, "f"), keys)
    ensures Key(1, "p") in keys
  {
    hide Program.Valid, Program.Target, Visit, Entered, ClosedAt, GivenNames, Receives;
    var p := Nested();
    var spans :| Visit(p, Key(3, "f"), spans) && AllEntered(p, 3, spans, keys);
    NestedVisits(Key(3, "f"), spans);
    assert Alone(p, 3, spans, 0) && CallsEntered(p, 3, F1, keys);
    assert p.stmts[3].calls[0] == 0 && Inside(p.calls[0].args[0].expr.span, F1.start);
    NestedBody(keys);
  }

  lemma {:induction false} NestedBody(keys: set<Key>)
    requires Nested().Valid() && Entered(Nested(), 0, F1, keys)
    ensures Key(1, "p") in keys
  {
    hide Program.Valid, Program.Target, GivenNames, Receives;
    NestedTargets();
    NestedGiven(F1);
    NestedReceives(1, "p", 1);
    assert Nested().units[0].stmts[1] == 1;
  }

  /** The trace of what `f` returns is not marked and follows the first call of `f` into `g`. The
      second one, alone in `h`, is listed too, but it is not the first of its statement: `h` is not
      entered. */
  method TraceNested() returns (feeds: seq<Node>, truncated: bool, ghost seen: set<Key>)
    ensures Nested().Valid() && !truncated
    ensures CallSitesOf(Nested(), 0) == [1, 3] && FirstSite(Nested(), 0, 1) && !FirstSite(Nested(), 0, 3)
    ensures Apart(Nested()) && Plain(Nested(), "f") && Innermost(Nested(), 3, 2, F2) && Alone(Nested(), 3, [F1, F2], 1)
    ensures Key(3, "f") in seen && Key(1, "p") in seen && Key(2, "q") !in seen
    ensures Given(Nested(), 2, 2, 0, F2) && Receives(Nested(), 2, ["q"], 2) && !Entered(Nested(), 2, F2, seen)
  {
    hide Visit, Explored, Program.Valid, CallSitesOf, Apart, Plain, Innermost, Alone, FirstSite;
    NestedStarts();
    NestedSmall();
    var calls: seq<nat>;
    feeds, calls, truncated, seen := Trace(Nested(), RETURNED, REACHED);
    NestedSites();
    NestedFirst(1);
    NestedFirst(3);
    NestedPlain();
    NestedAlone();
    NestedMissed(seen);
    NestedFollowed(seen);
  }
}
