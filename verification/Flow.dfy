/** Value flow through a program: which statements a value reaches, and the trees that show it
    (pkg/internal/trace/forward.go), before any budget. */
module Flow {
  import opened Options
  import opened CodeProgram
  import opened Origins

  datatype Key = Key(st: nat, name: string)

  /** `call` numbers the calls of a trace from one; it is zero for a name or a parameter. */
  datatype Node = Node(name: string, call: nat, code: Place, fedBy: seq<Source>, feeds: seq<Node>)

  // ----- Where a value goes from a statement

  ghost predicate UsersKeyed(p: Program, name: string, def: nat, keys: set<Key>)
    requires p.Valid() && def < |p.stmts|
  {
    var users := UsersOf(p, name, def);
    forall i :: 0 <= i < |users| ==> Key(users[i], name) in keys
  }

  ghost predicate SitesKeyed(p: Program, f: nat, keys: set<Key>)
    requires p.Valid() && f < |p.funcs|
  {
    var sites := CallSitesOf(p, f);
    forall i :: 0 <= i < |sites| ==> Key(p.calls[sites[i]].stmt, p.funcs[f].name) in keys
  }

  /** Every use of what the statement binds, and every listed caller of what it returns from. */
  ghost predicate ClosedAt(p: Program, st: nat, keys: set<Key>)
    requires p.Valid() && st < |p.stmts|
  {
    && (forall k :: 0 <= k < |p.stmts[st].binds| ==> UsersKeyed(p, p.stmts[st].binds[k], st, keys))
    && (p.stmts[st].isReturn && p.stmts[st].scope.Some? ==> SitesKeyed(p, p.stmts[st].scope.value, keys))
  }

  /** Whether a parameter is given the value at a span. */
  predicate Given(p: Program, c: nat, f: nat, i: nat, sp: Span)
    requires c < |p.calls| && f < |p.funcs| && i < |p.funcs[f].params|
  {
    var a := ArgumentOf(p.calls[c], p.funcs[f], i);
    a.Some? && Inside(p.calls[c].args[a.value].expr.span, sp.start)
  }

  function GivenTo(p: Program, c: nat, f: nat, sp: Span, n: nat): seq<string>
    requires c < |p.calls| && f < |p.funcs| && n <= |p.funcs[f].params|
  {
    if n == 0 then [] else GivenTo(p, c, f, sp, n - 1) + if Given(p, c, f, n - 1, sp) then [p.funcs[f].params[n - 1]]
      else []
  }

  function GivenNames(p: Program, c: nat, f: nat, sp: Span): seq<string>
    requires c < |p.calls| && f < |p.funcs|
  {
    GivenTo(p, c, f, sp, |p.funcs[f].params|)
  }

  /** In the shell, a parameter is also reached through all parameters at once. */
  function Spread(p: Program, f: nat, names: seq<string>): seq<string>
    requires p.Valid() && f < |p.funcs|
  {
    if p.units[p.funcs[f].owner].shell then names + ["@", "*"] else names
  }

  predicate Receives(p: Program, f: nat, names: seq<string>, st: nat)
    requires p.Valid() && f < |p.funcs| && st < |p.stmts|
  {
    p.stmts[st].scope.Some? && p.Within(p.stmts[st].scope, Some(f))
      && Occurrences(p.stmts[st].value.refs, Spread(p, f, names)) != []
  }

  ghost predicate BodyKeyed(p: Program, f: nat, names: seq<string>, keys: set<Key>)
    requires p.Valid() && f < |p.funcs| && names != []
  {
    var stmts := p.units[p.funcs[f].owner].stmts;
    forall k :: 0 <= k < |stmts| && Receives(p, f, names, stmts[k]) ==> Key(stmts[k], names[0]) in keys
  }

  /** The value at `sp` is followed into the function the call names. */
  ghost predicate Entered(p: Program, c: nat, sp: Span, keys: set<Key>)
    requires p.Valid() && c < |p.calls|
  {
    var f := p.Target(p.calls[c].callee);
    f.Some? ==> var names := GivenNames(p, c, f.value, sp); names != [] ==> BodyKeyed(p, f.value, names, keys)
  }

  /** A smallest call of the statement that takes the span. */
  ghost predicate Innermost(p: Program, st: nat, c: nat, sp: Span)
    requires p.Valid() && st < |p.stmts|
  {
    && c < |p.calls| && c in p.stmts[st].calls && Takes(p.calls[c], sp)
    && forall k :: 0 <= k < |p.stmts[st].calls| && Takes(p.calls[p.stmts[st].calls[k]], sp) ==>
         Size(p.calls[c].span) <= Size(p.calls[p.stmts[st].calls[k]].span)
  }

  /** No call is innermost for both this span and an earlier one. */
  ghost predicate Alone(p: Program, st: nat, spans: seq<Span>, i: nat)
    requires p.Valid() && st < |p.stmts| && i < |spans|
  {
    forall j, c :: 0 <= j < i && Innermost(p, st, c, spans[j]) ==> !Innermost(p, st, c, spans[i])
  }

  ghost predicate OnlyInnermost(p: Program, st: nat, c: nat, sp: Span)
    requires p.Valid() && st < |p.stmts|
  {
    Innermost(p, st, c, sp) && forall d :: Innermost(p, st, d, sp) ==> d == c
  }

  /** The innermost call of this span is that of an earlier one, whatever the order of calls of one size. */
  ghost predicate Skipped(p: Program, st: nat, spans: seq<Span>, i: nat)
    requires p.Valid() && st < |p.stmts| && i < |spans|
  {
    exists j, c :: 0 <= j < i && OnlyInnermost(p, st, c, spans[j]) && OnlyInnermost(p, st, c, spans[i])
  }

  /** When no two calls of one size take a span, a span is skipped exactly when it is not alone. */
  lemma {:induction false} SkippedIff(p: Program, st: nat, spans: seq<Span>, i: nat)
    requires p.Valid() && st < |p.stmts| && i < |spans|
    requires forall j, c :: 0 <= j <= i && Innermost(p, st, c, spans[j]) ==> OnlyInnermost(p, st, c, spans[j])
    ensures Skipped(p, st, spans, i) <==> !Alone(p, st, spans, i)
  {
    hide Innermost;
    if j, c :| 0 <= j < i && Innermost(p, st, c, spans[j]) && Innermost(p, st, c, spans[i]) {
      assert OnlyInnermost(p, st, c, spans[j]) && OnlyInnermost(p, st, c, spans[i]);
    }
  }

  ghost predicate CallsEntered(p: Program, st: nat, sp: Span, keys: set<Key>)
    requires p.Valid() && st < |p.stmts|
  {
    forall k :: 0 <= k < |p.stmts[st].calls| && Takes(p.calls[p.stmts[st].calls[k]], sp) ==>
      Entered(p, p.stmts[st].calls[k], sp, keys)
  }

  ghost predicate AllEntered(p: Program, st: nat, spans: seq<Span>, keys: set<Key>)
    requires p.Valid() && st < |p.stmts|
  {
    forall i :: 0 <= i < |spans| && Alone(p, st, spans, i) ==> CallsEntered(p, st, spans[i], keys)
  }

  /** Where in its statement a visited key was: at the uses of a name that is bound, at the uses of
      a parameter, or at a call of a function that returns the value. */
  ghost predicate Visit(p: Program, key: Key, spans: seq<Span>)
    requires p.Valid() && key.st < |p.stmts|
  {
    spans != [] && (UseOf(p, key, spans) || ParamOf(p, key, spans) || CallOf(p, key, spans))
  }

  /** A name that is followed to its users: one that is bound, or a constant. */
  ghost predicate Bindable(p: Program, name: string) {
    p.constant(name) || exists def :: 0 <= def < |p.stmts| && name in p.stmts[def].binds
  }

  ghost predicate UseOf(p: Program, key: Key, spans: seq<Span>)
    requires key.st < |p.stmts|
  {
    Bindable(p, key.name) && spans == Occurrences(p.stmts[key.st].value.refs, [key.name])
  }

  ghost predicate ParamOf(p: Program, key: Key, spans: seq<Span>)
    requires p.Valid() && key.st < |p.stmts|
  {
    exists c, f, sp :: 0 <= c < |p.calls| && 0 <= f < |p.funcs| && PassedTo(p, c, f, sp, key)
      && spans == Occurrences(p.stmts[key.st].value.refs, Spread(p, f, GivenNames(p, c, f, sp)))
  }

  /** The call names the function, whose first parameter given the span is the name of the key. */
  ghost predicate PassedTo(p: Program, c: nat, f: nat, sp: Span, key: Key)
    requires c < |p.calls| && f < |p.funcs| && key.st < |p.stmts|
  {
    && p.Target(p.calls[c].callee) == Some(f) && p.stmts[key.st].unit == p.funcs[f].owner
    && GivenNames(p, c, f, sp) != [] && GivenNames(p, c, f, sp)[0] == key.name
  }

  /** Only the first listed call of a statement is followed. */
  ghost predicate CallOf(p: Program, key: Key, spans: seq<Span>)
    requires p.Valid() && key.st < |p.stmts|
  {
    exists c, f :: 0 <= c < |p.calls| && 0 <= f < |p.funcs| && FirstSite(p, f, c)
      && p.calls[c].stmt == key.st && p.funcs[f].name == key.name && spans == [p.calls[c].span]
  }

  ghost predicate FirstSite(p: Program, f: nat, c: nat)
    requires p.Valid() && f < |p.funcs| && c < |p.calls|
  {
    var sites := CallSitesOf(p, f);
    exists i :: 0 <= i < |sites| && sites[i] == c && NoneBefore(p, sites, i)
  }

  /** No earlier call is in the same statement. */
  ghost predicate NoneBefore(p: Program, sites: seq<nat>, i: nat)
    requires i < |sites| && forall k :: 0 <= k < |sites| ==> sites[k] < |p.calls|
  {
    forall j :: 0 <= j < i ==> p.calls[sites[j]].stmt != p.calls[sites[i]].stmt
  }

  /** A key whose statement is closed and whose spans were followed into the functions called. */
  ghost predicate Explored(p: Program, key: Key, keys: set<Key>)
    requires p.Valid()
  {
    && key.st < |p.stmts| && ClosedAt(p, key.st, keys)
    && exists spans :: Visit(p, key, spans) && AllEntered(p, key.st, spans, keys)
  }

  lemma {:induction false} MoreKeys(p: Program, st: nat, sp: Span, keys: set<Key>, more: set<Key>)
    requires p.Valid() && st < |p.stmts| && keys <= more
    ensures ClosedAt(p, st, keys) ==> ClosedAt(p, st, more)
    ensures CallsEntered(p, st, sp, keys) ==> CallsEntered(p, st, sp, more)
  {
    hide UsersOf, CallSitesOf, GivenNames, Receives, Takes;
    if CallsEntered(p, st, sp, keys) {
      forall k | 0 <= k < |p.stmts[st].calls| && Takes(p.calls[p.stmts[st].calls[k]], sp)
        ensures Entered(p, p.stmts[st].calls[k], sp, more) {
        assert Entered(p, p.stmts[st].calls[k], sp, keys);
      }
    }
    if ClosedAt(p, st, keys) {
      forall k | 0 <= k < |p.stmts[st].binds| ensures UsersKeyed(p, p.stmts[st].binds[k], st, more) {
        assert UsersKeyed(p, p.stmts[st].binds[k], st, keys);
      }
    }
  }

  lemma {:induction false} StillEntered(p: Program, st: nat, spans: seq<Span>, keys: set<Key>, more: set<Key>)
    requires p.Valid() && st < |p.stmts| && keys <= more && AllEntered(p, st, spans, keys)
    ensures AllEntered(p, st, spans, more)
  {
    hide CallsEntered, Alone, Program.Valid;
    forall i | 0 <= i < |spans| && Alone(p, st, spans, i) ensures CallsEntered(p, st, spans[i], more) {
      MoreKeys(p, st, spans[i], keys, more);
    }
  }

  lemma {:induction false} StillExplored(p: Program, key: Key, keys: set<Key>, more: set<Key>)
    requires p.Valid() && keys <= more && Explored(p, key, keys)
    ensures Explored(p, key, more)
  {
    hide Visit, AllEntered, ClosedAt, CallsEntered, Program.Valid;
    var spans :| Visit(p, key, spans) && AllEntered(p, key.st, spans, keys);
    StillEntered(p, key.st, spans, keys, more);
    MoreKeys(p, key.st, Span(0, 0), keys, more);
  }

  // ----- Regions no value leaves

  /** The value at some spans of a statement. */
  datatype Flowing = Flowing(st: nat, spans: seq<Span>)

  /** `call` and `visit` are what one call and one visit may cost. */
  datatype Region = Region(keys: set<Key>, flows: iset<Flowing>, call: nat, visit: nat)

  /** A set of keys that a value starting at one of its flows cannot leave. */
  ghost predicate Encloses(p: Program, r: Region)
    requires p.Valid()
  {
    && (forall key, spans :: key in r.keys && key.st < |p.stmts| && Visit(p, key, spans) ==>
      Flowing(key.st, spans) in r.flows)
    && (forall v :: v in r.flows ==>
      v.st < |p.stmts| && ClosedAt(p, v.st, r.keys) && NotSkippedEntered(p, v.st, v.spans, r.keys))
  }

  ghost predicate NotSkippedEntered(p: Program, st: nat, spans: seq<Span>, keys: set<Key>)
    requires p.Valid() && st < |p.stmts|
  {
    forall i :: 0 <= i < |spans| && !Skipped(p, st, spans, i) ==> CallsEntered(p, st, spans[i], keys)
  }

  // ----- Trees

  function Count(nodes: seq<Node>): nat {
    if nodes == [] then 0 else Count(nodes[..|nodes| - 1]) + 1 + Count(nodes[|nodes| - 1].feeds)
  }

  /** The numbers of the calls, each node before what it feeds. */
  function Numbers(nodes: seq<Node>): seq<nat> {
    if nodes == [] then [] else Numbers(nodes[..|nodes| - 1]) + NodeNumbers(nodes[|nodes| - 1])
  }

  function NodeNumbers(n: Node): seq<nat> { (if n.call > 0 then [n.call] else []) + Numbers(n.feeds) }

  function Upward(from: nat, to: nat): seq<nat>
    requires from <= to
  {
    if from == to then [] else Upward(from, to - 1) + [to]
  }

  /** Call nodes show the call they number; with `exact`, fed by what the program says. */
  ghost predicate Right(p: Program, calls: seq<nat>, exact: bool, nodes: seq<Node>)
    requires p.Valid()
  {
    forall i :: 0 <= i < |nodes| ==> NodeRight(p, calls, exact, nodes[i])
  }

  ghost predicate NodeRight(p: Program, calls: seq<nat>, exact: bool, n: Node)
    requires p.Valid()
  {
    && Right(p, calls, exact, n.feeds)
    && (n.call > 0 ==>
          && n.call <= |calls| && calls[n.call - 1] < |p.calls| && n.name == ""
          && n.code == Place(p.stmts[p.calls[calls[n.call - 1]].stmt].unit, p.calls[calls[n.call - 1]].span)
          && (exact ==> n.fedBy == FedByOf(p, MAX_DEPTH, calls[n.call - 1])))
  }

  lemma {:induction false} CountSnoc(xs: seq<Node>, n: Node)
    ensures Count(xs + [n]) == Count(xs) + 1 + Count(n.feeds) && Numbers(xs + [n]) == Numbers(xs) + NodeNumbers(n)
  {
    assert (xs + [n])[..|xs|] == xs;
  }

  lemma {:induction false} CountAppend(xs: seq<Node>, ys: seq<Node>)
    ensures Count(xs + ys) == Count(xs) + Count(ys) && Numbers(xs + ys) == Numbers(xs) + Numbers(ys)
    decreases |ys|
  {
    hide NodeNumbers, Count, Numbers;
    if ys == [] {
      CountNone();
      assert xs + ys == xs;
    } else {
      var n := |ys| - 1;
      assert xs + ys == (xs + ys[..n]) + [ys[n]] && ys == ys[..n] + [ys[n]];
      CountAppend(xs, ys[..n]);
      CountSnoc(xs + ys[..n], ys[n]);
      CountSnoc(ys[..n], ys[n]);
    }
  }

  lemma {:induction false} CountOne(n: Node)
    ensures Count([n]) == 1 + Count(n.feeds) && Numbers([n]) == NodeNumbers(n)
  {
    assert [n][..0] == [];
    assert Count([n]) == Count([n][..0]) + 1 + Count(n.feeds);
    assert Numbers([n]) == Numbers([n][..0]) + NodeNumbers(n);
  }

  lemma {:induction false} UpwardAppend(a: nat, b: nat, c: nat)
    requires a <= b <= c
    ensures Upward(a, b) + Upward(b, c) == Upward(a, c)
  {
    if b < c {
      UpwardAppend(a, b, c - 1);
    }
  }

  lemma {:induction false} RightMore(p: Program, calls: seq<nat>, exact: bool, nodes: seq<Node>, more: seq<nat>,
      less: bool)
    requires p.Valid() && Right(p, calls, exact, nodes) && calls <= more && (less ==> exact)
    ensures Right(p, more, less, nodes)
  {
    hide FedByOf, Program.Valid;
    forall i | 0 <= i < |nodes| ensures NodeRight(p, more, less, nodes[i]) {
      assert NodeRight(p, calls, exact, nodes[i]);
      RightMore(p, calls, exact, nodes[i].feeds, more, less);
    }
  }

  /** The nodes of a chain of calls, each feeding the next and the last one what follows. */
  function Link(made: seq<Node>, rest: seq<Node>): Node
    requires made != []
  {
    made[0].(feeds := made[0].feeds + if |made| == 1 then rest else [Link(made[1..], rest)])
  }

  lemma {:induction false} CountNone()
    ensures Count([]) == 0 && Numbers([]) == []
  {
  }

  lemma {:induction false} LinkCounts(made: seq<Node>, rest: seq<Node>)
    requires made != []
    ensures Count([Link(made, rest)]) == Count(made) + Count(rest)
    ensures Numbers([Link(made, rest)]) == Numbers(made) + Numbers(rest)
    decreases |made|
  {
    hide Count, Numbers;
    var tail := if |made| == 1 then rest else [Link(made[1..], rest)];
    CountOne(Link(made, rest));
    CountOne(made[0]);
    CountAppend(made[0].feeds, tail);
    assert made == [made[0]] + made[1..];
    CountAppend([made[0]], made[1..]);
    if |made| > 1 {
      LinkCounts(made[1..], rest);
    } else {
      CountNone();
      assert made[1..] == [];
    }
  }

  lemma {:induction false} RightAppend(p: Program, calls: seq<nat>, exact: bool, xs: seq<Node>, ys: seq<Node>)
    requires p.Valid() && Right(p, calls, exact, xs) && Right(p, calls, exact, ys)
    ensures Right(p, calls, exact, xs + ys)
  {
    hide NodeRight, Program.Valid;
    var all := xs + ys;
    forall i | 0 <= i < |all| ensures NodeRight(p, calls, exact, all[i]) {
      assert all[i] == if i < |xs| then xs[i] else ys[i - |xs|];
    }
  }

  lemma {:induction false} LinkRight(p: Program, calls: seq<nat>, exact: bool, made: seq<Node>, rest: seq<Node>)
    requires p.Valid() && made != [] && Right(p, calls, exact, made) && Right(p, calls, exact, rest)
    ensures Right(p, calls, exact, [Link(made, rest)])
    decreases |made|
  {
    hide FedByOf, Program.Valid;
    assert NodeRight(p, calls, exact, made[0]);
    if |made| > 1 {
      LinkRight(p, calls, exact, made[1..], rest);
    }
    var tail := if |made| == 1 then rest else [Link(made[1..], rest)];
    RightAppend(p, calls, exact, made[0].feeds, tail);
    assert Link(made, rest).feeds == made[0].feeds + tail;
    assert NodeRight(p, calls, exact, Link(made, rest));
  }
}
