/** Two programs whose traces stop short without being marked (pkg/internal/trace/forward.go,
    pkg/internal/trace/backward.go). */
module TraceCases {
  import opened Options
  import opened CodeProgram
  import opened Origins
  import opened Flow
  import opened Tracing

  // ----- Definitions in a row, the last one used by a call

  function Name(i: nat): string { seq(i + 1, _ => 'a') }

  lemma {:induction false} NamesDiffer(i: nat, j: nat)
    requires Name(i) == Name(j)
    ensures i == j
  {
    assert |Name(i)| == i + 1 && |Name(j)| == j + 1;
  }

  function Spot(i: nat): Span { Span(2 * i, 2 * i + 1) }

  function Defining(i: nat): Stmt {
    Stmt(0, Spot(i), None, [Name(i)], Expr(Spot(i), if i == 0 then [] else [Ref(Name(i - 1), Spot(i))]), [], false)
  }

  /** Each of `n` definitions uses the one before; the call at the end takes the last. */
  function Row(n: nat): Program
    requires n > 0
  {
    var last := Expr(Spot(n), [Ref(Name(n - 1), Spot(n))]);
    Program([Unit("main", false, {}, seq(n + 1, i => i))], [],
            seq(n + 1, i requires 0 <= i <= n => if i < n then Defining(i)
              else Stmt(0, Spot(n), None, [], last, [0], false)),
            [Call(n, Spot(n), "use", "", [Arg("", last)])], (name: string) => false)
  }

  lemma {:induction false} RowValid(n: nat)
    requires n > 0
    ensures Row(n).Valid()
  {
  }

  lemma {:induction false} RowLooked(n: nat, name: string, at: nat)
    requires n > 0 && at <= n
    ensures Row(n).Valid() && Looked(Row(n), name, at)
  {
    RowValid(n);
  }

  lemma {:induction false} RowDefinition(n: nat, i: nat, at: nat)
    requires i < n && i < at <= n
    ensures Row(n).Valid() && DefinitionOf(Row(n), Name(i), at) == Some(i)
  {
    hide Name, LocalOf;
    RowValid(n);
    var p := Row(n);
    var stmts := p.units[0].stmts;
    LocalIs(p, Name(i), at, stmts);
    forall k | 0 <= k < |stmts| ensures Binding(p, Name(i), at, stmts[k]) <==> k == i {
      if k < n && Name(k) == Name(i) {
        NamesDiffer(i, k);
      }
    }
    assert Binding(p, Name(i), at, stmts[i]);
  }

  lemma {:induction false} RowDeeper(n: nat, i: nat, at: nat, k: nat)
    requires i < n && i < at <= n
    ensures Row(n).Valid() && (Deeper(Row(n), Lookup(Name(i), at), k) <==> k <= i)
    decreases k
  {
    hide Name, Looked, DefinitionOf;
    var p := Row(n);
    var a := Lookup(Name(i), at);
    RowDefinition(n, i, at);
    RowLooked(n, Name(i), at);
    if k > 0 && i > 0 {
      var b := Lookup(Name(i - 1), i);
      RowDeeper(n, i - 1, i, k - 1);
      assert p.stmts[i].value.refs[0].name == b.name;
      assert BackStep(p, a, b);
      assert forall c :: BackStep(p, a, c) ==> c == b;
    }
  }

  /** All the definitions are shown exactly when there is at most one more than the limit. */
  lemma {:induction false} RowCompleteIff(n: nat, limit: nat, more: nat)
    requires 0 < n && limit < more
    ensures Row(n).Valid() && (FedByOf(Row(n), more, 0) == FedByOf(Row(n), limit, 0) <==> n <= limit + 1)
  {
    hide Name, FedByOf, Deeper;
    RowValid(n);
    var p := Row(n);
    FedBySameIff(p, limit, more, 0);
    RowDeeper(n, n - 1, n, limit + 1);
    var last := Lookup(Name(n - 1), n);
    assert p.calls[0].args[0].expr.refs[0].name == last.name;
    assert Asks(p, 0, last);
    assert forall a :: Asks(p, 0, a) ==> a == last;
  }

  lemma {:induction false} DefinedOrigin(p: Program, left: nat, param: string, name: string, at: nat, def: nat)
    requires p.Valid() && at < |p.stmts| && Looked(p, name, at) && DefinitionOf(p, name, at) == Some(def) && left > 0
    ensures OriginOf(p, left, param, name, at).Some?
    ensures Lookups(OriginOf(p, left, param, name, at).value, left)
         == 1 + LookupsIn(SourcesOf(p, left - 1, "", p.stmts[def].value.refs, def), left - 1)
  {
    hide Looked, DefinitionOf, SourcesOf, LookupsIn, Program.Valid;
  }

  lemma {:induction false} NoOrigin(p: Program, param: string, name: string, at: nat)
    requires p.Valid() && at < |p.stmts| && Looked(p, name, at)
    ensures OriginOf(p, 0, param, name, at).Some? && Lookups(OriginOf(p, 0, param, name, at).value, 0) == 0
  {
    hide Looked, Program.Valid;
  }

  lemma {:induction false} NoSource(p: Program, left: nat, param: string, at: nat)
    requires p.Valid() && at < |p.stmts|
    ensures SourcesOf(p, left, param, [], at) == [] && LookupsIn(SourcesOf(p, left, param, [], at), left) == 0
  {
    hide Program.Valid;
  }

  lemma {:induction false} RowLookups(n: nat, left: nat, param: string, i: nat, at: nat)
    requires i < n && i < at <= n
    ensures Row(n).Valid() && OriginOf(Row(n), left, param, Name(i), at).Some?
      && Lookups(OriginOf(Row(n), left, param, Name(i), at).value, left) <= left
    decreases left
  {
    hide Name, Looked, DefinitionOf, OriginOf, SourcesOf, Lookups, LookupsIn, Program.Valid;
    RowDefinition(n, i, at);
    RowLooked(n, Name(i), at);
    var p := Row(n);
    if left == 0 {
      NoOrigin(p, param, Name(i), at);
    } else {
      var refs := p.stmts[i].value.refs;
      DefinedOrigin(p, left, param, Name(i), at, i);
      if i > 0 {
        RowLookups(n, left - 1, "", i - 1, i);
        OneSource(p, left - 1, "", refs, i);
      } else {
        NoSource(p, left - 1, "", i);
      }
    }
  }

  lemma {:induction false} OneSource(p: Program, left: nat, param: string, refs: seq<Ref>, at: nat)
    requires p.Valid() && at < |p.stmts| && |refs| == 1 && OriginOf(p, left, param, refs[0].name, at).Some?
    ensures SourcesOf(p, left, param, refs, at) == [OriginOf(p, left, param, refs[0].name, at).value]
    ensures LookupsIn(SourcesOf(p, left, param, refs, at), left)
      == Lookups(OriginOf(p, left, param, refs[0].name, at).value, left)
  {
    hide OriginOf, Lookups;
    assert refs[..0] == [];
    assert SourcesOf(p, left, param, refs[..0], at) == [];
    LookupsOne(OriginOf(p, left, param, refs[0].name, at).value, left);
  }

  lemma {:induction false} RowCost(n: nat)
    requires n > 0
    ensures Row(n).Valid() && LookupsFor(Row(n), 0) <= MAX_DEPTH + 1
  {
    hide Name, OriginOf, Lookups, LookupsIn;
    var p := Row(n);
    RowValid(n);
    RowLookups(n, MAX_DEPTH + 1, ParamName(p.calls[0].args[0], 0), n - 1, n);
    OneSource(p, MAX_DEPTH + 1, ParamName(p.calls[0].args[0], 0), p.calls[0].args[0].expr.refs, n);
    assert ArgsFrom(p, MAX_DEPTH, 0, 0) == [];
  }

  /** The trace of the call is never marked, and shows all the definitions exactly when there are at
      most seven: from eight definitions on it is cut. */
  method TraceRow(n: nat) returns (feeds: seq<Node>, truncated: bool)
    requires n > 0
    ensures !truncated && Row(n).Valid() && |feeds| == 1 && feeds[0].fedBy == FedByOf(Row(n), MAX_DEPTH, 0)
    ensures forall more :: more > MAX_DEPTH ==> (feeds[0].fedBy == FedByOf(Row(n), more, 0) <==> n <= 7)
  {
    hide Row, FedByOf, LookupsFor;
    RowValid(n);
    RowCost(n);
    var calls: seq<nat>;
    ghost var seen;
    SubjectValid(n);
    feeds, calls, truncated, seen := Trace(Row(n), Subject(n, Spot(n), Some(0)), Region({}, iset{}, 0, 0));
    assert NodeRight(Row(n), calls, true, feeds[0]);
    forall more | more > MAX_DEPTH ensures feeds[0].fedBy == FedByOf(Row(n), more, 0) <==> n <= 7 {
      RowCompleteIff(n, MAX_DEPTH, more);
    }
  }

  lemma {:induction false} SubjectValid(n: nat)
    requires n > 0
    ensures Row(n).Valid() && Subject(n, Spot(n), Some(0)).Valid(Row(n)) && 0 < |Row(n).calls|
  {
    RowValid(n);
  }

  // ----- A call that takes one value twice: f(a, a)

  const X := Span(11, 12)
  const Y := Span(21, 22)
  const FIRST := Span(42, 43)
  const SECOND := Span(45, 46)

  /** A function of two parameters that binds each of them, a definition of `a`, and the call `f(a, a)`. */
  function Twice(): Program {
    Program(
      [Unit("main", false, {}, [0, 1, 2, 3])],
      [Func("f", ["x", "y"], Span(0, 30), None, 0)],
      [Stmt(0, Span(10, 15), Some(0), ["u"], Expr(X, [Ref("x", X)]), [], false),
       Stmt(0, Span(20, 25), Some(0), ["v"], Expr(Y, [Ref("y", Y)]), [], false),
       Stmt(0, Span(30, 35), None, ["a"], Expr(Span(34, 35), []), [], false),
       Stmt(0, Span(40, 47), None, [], Expr(Span(40, 47), [Ref("a", FIRST), Ref("a", SECOND)]), [0], false)],
      [Call(3, Span(40, 47), "f", "",
        [Arg("", Expr(FIRST, [Ref("a", FIRST)])), Arg("", Expr(SECOND, [Ref("a", SECOND)]))])],
      (name: string) => false)
  }

  const VALUE := Subject(2, Span(34, 35), None)

  const FLOWS := iset{Flowing(2, [Span(34, 35)]), Flowing(3, [FIRST, SECOND]), Flowing(0, [X])}

  const VISITS := Region({Key(3, "a"), Key(0, "x")}, FLOWS, 4, 8)

  lemma {:induction false} TwiceValid()
    ensures Twice().Valid() && VALUE.Valid(Twice()) && |Twice().stmts| == 4 && |Twice().calls| == 1
      && |Twice().funcs| == 1
  {
  }

  lemma {:induction false} TwiceRefers(name: string, def: nat, st: nat)
    requires def < 4 && Twice().Valid() && name in Twice().stmts[def].binds && Uses(Twice(), name, def, st)
    ensures name == "a" && st == 3
  {
    hide Reaches, Wide, After, Program.Valid;
    var refs := Twice().stmts[st].value.refs;
    var i :| 0 <= i < |refs| && refs[i].name == name;
  }

  /** A statement is closed when every use of what it binds is a key. */
  lemma {:induction false} ClosedByUses(p: Program, st: nat, keys: set<Key>)
    requires p.Valid() && st < |p.stmts| && !p.stmts[st].isReturn
    requires forall k, u: nat :: 0 <= k < |p.stmts[st].binds| && Uses(p, p.stmts[st].binds[k], st, u) ==>
      Key(u, p.stmts[st].binds[k]) in keys
    ensures ClosedAt(p, st, keys)
  {
    hide Uses, Program.Valid;
    forall k | 0 <= k < |p.stmts[st].binds| ensures UsersKeyed(p, p.stmts[st].binds[k], st, keys) {
    }
  }

  lemma {:induction false} TwiceClosed(st: nat, keys: set<Key>)
    requires st < 4 && Key(3, "a") in keys
    ensures Twice().Valid() && ClosedAt(Twice(), st, keys)
  {
    hide Uses, UsersOf, ClosedAt, Program.Valid;
    TwiceValid();
    var p := Twice();
    forall k, u: nat | 0 <= k < |p.stmts[st].binds| && Uses(p, p.stmts[st].binds[k], st, u)
      ensures Key(u, p.stmts[st].binds[k]) in keys {
      TwiceRefers(p.stmts[st].binds[k], st, u);
    }
    ClosedByUses(p, st, keys);
  }

  /** Each argument is given to the parameter at its place. */
  lemma {:induction false} TwiceGiven(sp: Span)
    ensures Given(Twice(), 0, 0, 1, sp) <==> Inside(SECOND, sp.start)
    ensures GivenNames(Twice(), 0, 0, sp)
      == (if Inside(FIRST, sp.start) then ["x"] else []) + if Inside(SECOND, sp.start) then ["y"] else []
  {
    var p := Twice();
    var call, f := p.calls[0], p.funcs[0];
    FirstFitUnique(call, f, 0, 0);
    assert Positional(call.args[..1]) == 1 by { assert call.args[..1][..0] == []; }
    FirstFitUnique(call, f, 1, 1);
    assert GivenTo(p, 0, 0, sp, 0) == [];
    assert GivenTo(p, 0, 0, sp, 1) == if Inside(FIRST, sp.start) then ["x"] else [];
  }

  lemma {:induction false} TwiceTarget()
    ensures Twice().Target(Twice().calls[0].callee) == Some(0)
  {
    var p := Twice();
    assert AfterDot("f") == "f";
    assert p.FirstNamed("f", 0) == Some(0);
  }

  lemma {:induction false} OneOccurrence(refs: seq<Ref>, names: seq<string>)
    requires |refs| == 1
    ensures Occurrences(refs, names) == if refs[0].name in names then [refs[0].span] else []
  {
    assert refs[..0] == [] && Occurrences(refs[..0], names) == [];
  }

  lemma {:induction false} TwiceReceives(name: string, st: nat)
    requires Twice().Valid() && name in ["x", "y"] && st < 4 && Receives(Twice(), 0, [name], st)
    ensures st == if name == "x" then 0 else 1
  {
    hide Program.Valid, Program.Within;
    var p := Twice();
    assert Spread(p, 0, [name]) == [name];
    if st < 2 {
      OneOccurrence(p.stmts[st].value.refs, [name]);
    }
  }

  lemma {:induction false} TwiceOccurrences()
    ensures Occurrences(Twice().stmts[3].value.refs, ["a"]) == [FIRST, SECOND]
  {
    var refs := Twice().stmts[3].value.refs;
    OneOccurrence(refs[..1], ["a"]);
  }

  lemma {:induction false} TwiceEntered(sp: Span, keys: set<Key>)
    requires Key(0, "x") in keys && !Inside(SECOND, sp.start)
    ensures Twice().Valid() && Entered(Twice(), 0, sp, keys)
  {
    hide GivenNames, Receives, Program.Valid, Program.Target;
    TwiceValid();
    TwiceTarget();
    TwiceGiven(sp);
    var p := Twice();
    var stmts := p.units[p.funcs[0].owner].stmts;
    if Inside(FIRST, sp.start) {
      assert GivenNames(p, 0, 0, sp) == ["x"];
      forall k | 0 <= k < |stmts| && Receives(p, 0, ["x"], stmts[k]) ensures Key(stmts[k], "x") in keys {
        TwiceReceives("x", stmts[k]);
      }
    }
  }

  /** The second argument goes to the second parameter, which the second statement uses. */
  lemma {:induction false} TwiceMissed(keys: set<Key>)
    requires Key(1, "y") !in keys
    ensures Twice().Valid() && Given(Twice(), 0, 0, 1, SECOND) && Receives(Twice(), 0, ["y"], 1)
      && !Entered(Twice(), 0, SECOND, keys)
  {
    hide GivenNames, Program.Valid, Program.Target;
    TwiceValid();
    TwiceTarget();
    TwiceGiven(SECOND);
    var p := Twice();
    OneOccurrence(p.stmts[1].value.refs, ["y"]);
    assert Spread(p, 0, ["y"]) == ["y"];
    assert p.Within(p.stmts[1].scope, Some(0));
    assert Receives(p, 0, ["y"], p.units[0].stmts[1]);
  }

  lemma {:induction false} TwiceInnermost(sp: Span)
    requires sp in [FIRST, SECOND]
    ensures Twice().Valid() && OnlyInnermost(Twice(), 3, 0, sp) && Takes(Twice().calls[0], sp)
  {
    hide Program.Valid;
    TwiceValid();
    var call := Twice().calls[0];
    assert Inside(call.args[if sp == FIRST then 0 else 1].expr.span, sp.start);
  }

  /** The second span is skipped: its innermost call is the first one's. */
  lemma {:induction false} TwiceFlows(v: Flowing)
    requires v in FLOWS
    ensures Twice().Valid() && v.st < 4 && ClosedAt(Twice(), v.st, VISITS.keys)
      && NotSkippedEntered(Twice(), v.st, v.spans, VISITS.keys)
  {
    hide ClosedAt, Takes, Entered, Innermost, Program.Valid;
    TwiceClosed(v.st, VISITS.keys);
    var p := Twice();
    if v.st == 3 {
      TwiceInnermost(FIRST);
      TwiceInnermost(SECOND);
      assert OnlyInnermost(p, 3, 0, v.spans[0]) && OnlyInnermost(p, 3, 0, v.spans[1]);
      assert Skipped(p, 3, v.spans, 1);
      TwiceEntered(FIRST, VISITS.keys);
    }
  }

  lemma {:induction false} TwiceVisits(key: Key, spans: seq<Span>)
    requires Twice().Valid() && key in VISITS.keys && Visit(Twice(), key, spans)
    ensures Flowing(key.st, spans) in FLOWS
  {
    hide Program.Valid, Program.Target, GivenNames, Occurrences;
    var p := Twice();
    TwiceOccurrences();
    OneOccurrence(p.stmts[0].value.refs, ["x"]);
    if ParamOf(p, key, spans) {
      var c, f, sp :| 0 <= c < |p.calls| && 0 <= f < |p.funcs| && PassedTo(p, c, f, sp, key)
        && spans == Occurrences(p.stmts[key.st].value.refs, Spread(p, f, GivenNames(p, c, f, sp)));
      TwiceGiven(sp);
      OneOccurrence(p.stmts[0].value.refs, GivenNames(p, 0, 0, sp));
    }
  }

  lemma {:induction false} TwiceStarts()
    ensures Twice().Valid() && VALUE.Valid(Twice()) && Starts(Twice(), VISITS, VALUE)
  {
    hide Visit, ClosedAt, NotSkippedEntered, Program.Valid;
    TwiceValid();
    forall key, spans | key in VISITS.keys && Visit(Twice(), key, spans) ensures Flowing(key.st, spans) in FLOWS {
      TwiceVisits(key, spans);
    }
    forall v | v in FLOWS
      ensures v.st < 4 && ClosedAt(Twice(), v.st, VISITS.keys)
      && NotSkippedEntered(Twice(), v.st, v.spans, VISITS.keys) {
      TwiceFlows(v);
    }
  }

  lemma {:induction false} TwiceDefinition()
    ensures Twice().Valid() && DefinitionOf(Twice(), "a", 3) == Some(2) && Looked(Twice(), "a", 3)
  {
    hide LocalOf;
    TwiceValid();
    var p := Twice();
    var stmts := p.units[0].stmts;
    LocalIs(p, "a", 3, stmts);
    assert Binding(p, "a", 3, stmts[2]);
  }

  lemma {:induction false} TwiceCost()
    ensures Twice().Valid() && LookupsFor(Twice(), 0) == 2
  {
    hide DefinitionOf, Looked, Program.Valid, Lookups;
    TwiceValid();
    var p := Twice();
    var args, left := p.calls[0].args, MAX_DEPTH + 1;
    TwiceDefinition();
    TwiceLookups(ParamName(args[0], 0));
    TwiceLookups(ParamName(args[1], 1));
    OneSource(p, left, ParamName(args[0], 0), args[0].expr.refs, 3);
    OneSource(p, left, ParamName(args[1], 1), args[1].expr.refs, 3);
    var one, two := SourcesOf(p, left, ParamName(args[0], 0), args[0].expr.refs, 3),
      SourcesOf(p, left, ParamName(args[1], 1), args[1].expr.refs, 3);
    hide SourcesOf;
    assert ArgsFrom(p, MAX_DEPTH, 0, 0) == [];
    assert ArgsFrom(p, MAX_DEPTH, 0, 1) == [] + one;
    assert FedByOf(p, MAX_DEPTH, 0) == one + two;
    LookupsAppend(one, two, left);
  }

  lemma {:induction false} TwiceLookups(param: string)
    ensures Twice().Valid() && OriginOf(Twice(), MAX_DEPTH + 1, param, "a", 3).Some?
    ensures Lookups(OriginOf(Twice(), MAX_DEPTH + 1, param, "a", 3).value, MAX_DEPTH + 1) == 1
  {
    hide DefinitionOf, Looked, OriginOf, SourcesOf, Lookups, LookupsIn, Program.Valid;
    TwiceDefinition();
    DefinedOrigin(Twice(), MAX_DEPTH + 1, param, "a", 3, 2);
    NoSource(Twice(), MAX_DEPTH, "", 2);
  }

  lemma {:induction false} TwiceSmall()
    ensures Twice().Valid() && Small(Twice(), VISITS)
  {
    hide LookupsFor, Program.Valid;
    TwiceValid();
    TwiceCost();
    assert |VISITS.keys| == 2;
  }

  /** The call is visited, and the first parameter's use. */
  lemma {:induction false} TwiceFollowed(keys: set<Key>)
    requires Twice().Valid() && ClosedAt(Twice(), 2, keys) && forall key :: key in keys ==> Explored(Twice(), key, keys)
    ensures Key(3, "a") in keys && Key(0, "x") in keys
  {
    hide Explored, ClosedAt, Program.Valid;
    TwiceCalled(keys);
    TwiceExplored(keys);
  }

  lemma {:induction false} TwiceCalled(keys: set<Key>)
    requires Twice().Valid() && ClosedAt(Twice(), 2, keys)
    ensures Key(3, "a") in keys
  {
    hide Program.Valid, UsersOf;
    TwiceUser();
    assert UsersKeyed(Twice(), Twice().stmts[2].binds[0], 2, keys);
    var users := UsersOf(Twice(), "a", 2);
    var i :| 0 <= i < |users| && users[i] == 3;
    assert Key(users[i], "a") in keys;
  }

  lemma {:induction false} TwiceExplored(keys: set<Key>)
    requires Twice().Valid() && Explored(Twice(), Key(3, "a"), keys)
    ensures Key(0, "x") in keys
  {
    hide Program.Valid, Visit, Entered, Innermost, ClosedAt, Takes;
    var spans :| Visit(Twice(), Key(3, "a"), spans) && AllEntered(Twice(), 3, spans, keys);
    TwiceVisits(Key(3, "a"), spans);
    assert Alone(Twice(), 3, spans, 0);
    assert CallsEntered(Twice(), 3, FIRST, keys);
    TwiceInnermost(FIRST);
    assert Twice().stmts[3].calls[0] == 0;
    TwiceFirst(keys);
  }

  lemma {:induction false} TwiceUser()
    ensures Twice().Valid() && 3 in UsersOf(Twice(), "a", 2)
  {
    TwiceValid();
    var p := Twice();
    assert p.stmts[3].value.refs[0].name == "a";
    assert Uses(p, "a", 2, 3);
    assert AllStmts(p) == [0, 1, 2, 3] by { assert StmtsTo(p, 0) == []; }
    assert AllStmts(p)[3] == 3;
  }

  lemma {:induction false} TwiceFirst(keys: set<Key>)
    requires Twice().Valid() && Entered(Twice(), 0, FIRST, keys)
    ensures Key(0, "x") in keys
  {
    hide GivenNames, Program.Valid, Program.Target;
    TwiceTarget();
    TwiceGiven(FIRST);
    var p := Twice();
    OneOccurrence(p.stmts[0].value.refs, ["x"]);
    assert Spread(p, 0, ["x"]) == ["x"];
    assert p.Within(p.stmts[0].scope, Some(0));
    assert Receives(p, 0, ["x"], p.units[0].stmts[0]);
  }

  /** The trace of the value is not marked, enters the function for the first argument, and does not
      for the second: the use of the second parameter is never visited. */
  method TraceTwice() returns (feeds: seq<Node>, truncated: bool, ghost seen: set<Key>)
    ensures Twice().Valid() && !truncated
    ensures Key(3, "a") in seen && Key(0, "x") in seen && Key(1, "y") !in seen
    ensures Given(Twice(), 0, 0, 1, SECOND) && Receives(Twice(), 0, ["y"], 1) && !Entered(Twice(), 0, SECOND, seen)
  {
    hide Visit, Explored, Program.Valid;
    TwiceStarts();
    TwiceSmall();
    var calls: seq<nat>;
    feeds, calls, truncated, seen := Trace(Twice(), VALUE, VISITS);
    TwiceMissed(seen);
    TwiceFollowed(seen);
  }
}
