/** Which node of a trace feeds which (pkg/internal/trace/forward.go): a call feeds the call around it,
    the outermost one what its statement binds, and a name the statements that use it. */
module Shapes {
  import opened Options
  import opened CodeProgram
  import opened Origins
  import opened Flow

  /** The last nodes are for the names, in order, and show the place they are bound at. */
  ghost predicate EndsWith(nodes: seq<Node>, names: seq<string>, at: Place) {
    && |names| <= |nodes|
    && forall k :: 0 <= k < |names| ==> IsNameNode(nodes[|nodes| - |names| + k], names[k], at)
  }

  predicate IsNameNode(n: Node, name: string, at: Place) {
    n.call == 0 && n.name == name && n.code == at && n.fedBy == []
  }

  lemma {:induction false} NoEnd(nodes: seq<Node>, at: Place)
    ensures EndsWith(nodes, [], at)
  {
  }

  lemma {:induction false} EndsNext(nodes: seq<Node>, names: seq<string>, i: nat, at: Place, n: Node)
    requires i < |names| && IsNameNode(n, names[i], at)
    ensures EndsWith(nodes, names[..i], at) ==> EndsWith(nodes + [n], names[..i + 1], at)
  {
    hide IsNameNode;
    if EndsWith(nodes, names[..i], at) {
      var all, more := nodes + [n], names[..i + 1];
      forall k | 0 <= k < |more| ensures IsNameNode(all[|all| - |more| + k], more[k], at) {
        if k < i {
          assert all[|all| - |more| + k] == nodes[|nodes| - i + k] && more[k] == names[..i][k];
        }
      }
    }
  }

  function AtMostOne(names: seq<string>): seq<string> { if names == [] then [] else [names[0]] }

  // ----- Where a node stands

  /** A node for a call of the statement, or for a name it binds. */
  ghost predicate StandsAt(p: Program, calls: seq<nat>, st: nat, n: Node)
    requires p.Valid() && st < |p.stmts|
  {
    if n.call > 0 then n.call <= |calls| && calls[n.call - 1] < |p.calls| && p.calls[calls[n.call - 1]].stmt == st
    else n.name in p.stmts[st].binds && n.code == At(p, st)
  }

  /** The value of `u` is the value of `st`, or is returned to it through at most `n` callers. */
  ghost predicate ReturnsTo(p: Program, u: nat, st: nat, n: nat)
    requires p.Valid() && u < |p.stmts|
    decreases n
  {
    || u == st
    || (n > 0 && p.stmts[u].isReturn && p.stmts[u].scope.Some?
        && exists i :: 0 <= i < |CallSitesOf(p, p.stmts[u].scope.value)|
                       && ReturnsTo(p, p.calls[CallSitesOf(p, p.stmts[u].scope.value)[i]].stmt, st, n - 1))
  }

  /** The node stands where the value of `u` goes first. */
  ghost predicate ComesFrom(p: Program, calls: seq<nat>, u: nat, n: Node)
    requires p.Valid() && u < |p.stmts|
  {
    exists st, k: nat :: 0 <= st < |p.stmts| && ReturnsTo(p, u, st, k) && StandsAt(p, calls, st, n)
  }

  /** Each node comes from one of some statements. */
  ghost predicate AllCome(p: Program, calls: seq<nat>, starts: iset<nat>, nodes: seq<Node>)
    requires p.Valid()
  {
    forall i :: 0 <= i < |nodes| ==> SomeStart(p, calls, starts, nodes[i])
  }

  ghost predicate SomeStart(p: Program, calls: seq<nat>, starts: iset<nat>, n: Node)
    requires p.Valid()
  {
    exists u :: u in starts && u < |p.stmts| && ComesFrom(p, calls, u, n)
  }

  ghost function UserStarts(p: Program, name: string, def: nat): iset<nat>
    requires p.Valid() && def < |p.stmts|
  {
    iset u: nat | u in UsersOf(p, name, def)
  }

  ghost function SiteStarts(p: Program, f: nat): iset<nat>
    requires p.Valid() && f < |p.funcs|
  {
    iset u: nat | IsSite(p, f, u)
  }

  ghost predicate IsSite(p: Program, f: nat, u: nat)
    requires p.Valid() && f < |p.funcs|
  {
    exists i :: 0 <= i < |CallSitesOf(p, f)| && p.calls[CallSitesOf(p, f)[i]].stmt == u
  }

  ghost function BodyStarts(p: Program, f: nat, names: seq<string>): iset<nat>
    requires p.Valid() && f < |p.funcs|
  {
    iset u: nat | u < |p.stmts| && p.stmts[u].unit == p.funcs[f].owner && Receives(p, f, names, u)
  }

  // ----- What a node feeds

  /** The parameters of the function called that are given the span; one node stands for all of them. */
  function GivenIn(p: Program, c: nat, sp: Span): seq<string>
    requires p.Valid() && c < |p.calls|
  {
    var f := p.Target(p.calls[c].callee);
    if f.None? then [] else AtMostOne(GivenNames(p, c, f.value, sp))
  }

  function FuncPlace(p: Program, c: nat): Place
    requires p.Valid() && c < |p.calls|
  {
    var f := p.Target(p.calls[c].callee);
    if f.None? then Place(0, Span(0, 0)) else Place(p.funcs[f.value].owner, p.funcs[f.value].span)
  }

  /** The node of the i-th call of a chain: it feeds the parameter inside the function called, and then
      the next call of the chain, or if it is the last what the statement binds and returns to. */
  ghost predicate Linked(p: Program, calls: seq<nat>, n: Node, sp: Span, cs: seq<nat>, i: nat)
    requires p.Valid() && i < |cs| && forall k :: 0 <= k < |cs| ==> cs[k] < |p.calls|
    decreases |cs| - i
  {
    var c := cs[i];
    var own := |GivenIn(p, c, sp)|;
    && 0 < n.call <= |calls| && calls[n.call - 1] == c
    && own <= |n.feeds| && EndsWith(n.feeds[..own], GivenIn(p, c, sp), FuncPlace(p, c))
    && if i + 1 < |cs| then |n.feeds| == own + 1 && Linked(p, calls, n.feeds[own], sp, cs, i + 1)
       else && EndsWith(n.feeds[own..], p.stmts[p.calls[c].stmt].binds, At(p, p.calls[c].stmt))
            && AllCome(p, calls, iset{p.calls[c].stmt}, n.feeds[own..])
  }

  ghost predicate InStmt(p: Program, st: nat, cs: seq<nat>) {
    forall k :: 0 <= k < |cs| ==> cs[k] < |p.calls| && p.calls[cs[k]].stmt == st
  }

  /** A call node is a place in the chain of all calls that take one span of its statement. */
  ghost predicate CallShape(p: Program, calls: seq<nat>, n: Node)
    requires p.Valid()
  {
    exists sp, cs, i, st :: 0 <= i < |cs| && 0 <= st < |p.stmts| && Consumed(p, st, sp, cs)
      && InStmt(p, st, cs) && Linked(p, calls, n, sp, cs, i)
  }

  /** A bound name feeds what comes from its users. */
  ghost predicate BoundShape(p: Program, calls: seq<nat>, n: Node)
    requires p.Valid()
  {
    exists st :: 0 <= st < |p.stmts| && n.name in p.stmts[st].binds && n.code == At(p, st)
      && AllCome(p, calls, UserStarts(p, n.name, st), n.feeds)
  }

  /** A parameter feeds what comes from the statements of its function that use what is given. */
  ghost predicate ParamShape(p: Program, calls: seq<nat>, n: Node)
    requires p.Valid()
  {
    exists c, f, sp :: 0 <= c < |p.calls| && 0 <= f < |p.funcs| && p.Target(p.calls[c].callee) == Some(f)
      && GivenNames(p, c, f, sp) != [] && n.name == GivenNames(p, c, f, sp)[0]
      && n.code == Place(p.funcs[f].owner, p.funcs[f].span)
      && AllCome(p, calls, BodyStarts(p, f, GivenNames(p, c, f, sp)), n.feeds)
  }

  /** Every node of some trees feeds what its value goes to next. */
  ghost predicate Shaped(p: Program, calls: seq<nat>, nodes: seq<Node>)
    requires p.Valid()
  {
    forall i :: 0 <= i < |nodes| ==> NodeShaped(p, calls, nodes[i])
  }

  ghost predicate NodeShaped(p: Program, calls: seq<nat>, n: Node)
    requires p.Valid()
  {
    && Shaped(p, calls, n.feeds)
    && if n.call > 0 then CallShape(p, calls, n)
       else n.fedBy == [] && (BoundShape(p, calls, n) || ParamShape(p, calls, n))
  }

  /** Trees of the right shape that come from some statements. */
  ghost predicate Shown(p: Program, calls: seq<nat>, starts: iset<nat>, nodes: seq<Node>)
    requires p.Valid()
  {
    Shaped(p, calls, nodes) && AllCome(p, calls, starts, nodes)
  }

  // ----- More calls, more trees, more starts

  lemma {:induction false} StandsStill(p: Program, calls: seq<nat>, more: seq<nat>, u: nat, n: Node)
    requires p.Valid() && u < |p.stmts| && calls <= more && ComesFrom(p, calls, u, n)
    ensures ComesFrom(p, more, u, n)
  {
    hide ReturnsTo;
    var st, k: nat :| 0 <= st < |p.stmts| && ReturnsTo(p, u, st, k) && StandsAt(p, calls, st, n);
    assert StandsAt(p, more, st, n);
  }

  lemma {:induction false} ComeMore(p: Program, calls: seq<nat>, more: seq<nat>, starts: iset<nat>, wide: iset<nat>,
      nodes: seq<Node>)
    requires p.Valid() && calls <= more && starts <= wide && AllCome(p, calls, starts, nodes)
    ensures AllCome(p, more, wide, nodes)
  {
    hide ComesFrom;
    forall i | 0 <= i < |nodes| ensures SomeStart(p, more, wide, nodes[i]) {
      assert SomeStart(p, calls, starts, nodes[i]);
      var u :| u in starts && u < |p.stmts| && ComesFrom(p, calls, u, nodes[i]);
      StandsStill(p, calls, more, u, nodes[i]);
    }
  }

  lemma {:induction false} LinkedMore(p: Program, calls: seq<nat>, more: seq<nat>, n: Node, sp: Span, cs: seq<nat>,
      i: nat)
    requires p.Valid() && i < |cs| && (forall k :: 0 <= k < |cs| ==> cs[k] < |p.calls|) && calls <= more
    requires Linked(p, calls, n, sp, cs, i)
    ensures Linked(p, more, n, sp, cs, i)
    decreases |cs| - i
  {
    hide EndsWith, AllCome, GivenIn, FuncPlace;
    var own := |GivenIn(p, cs[i], sp)|;
    if i + 1 < |cs| {
      LinkedMore(p, calls, more, n.feeds[own], sp, cs, i + 1);
    } else {
      ComeMore(p, calls, more, iset{p.calls[cs[i]].stmt}, iset{p.calls[cs[i]].stmt}, n.feeds[own..]);
    }
  }

  lemma {:induction false} ShapedMore(p: Program, calls: seq<nat>, more: seq<nat>, nodes: seq<Node>)
    requires p.Valid() && calls <= more && Shaped(p, calls, nodes)
    ensures Shaped(p, more, nodes)
  {
    hide CallShape, BoundShape, ParamShape;
    forall i | 0 <= i < |nodes| ensures NodeShaped(p, more, nodes[i]) {
      var n := nodes[i];
      assert NodeShaped(p, calls, n);
      ShapedMore(p, calls, more, n.feeds);
      if n.call > 0 {
        CallShapeMore(p, calls, more, n);
      } else {
        NameShapeMore(p, calls, more, n);
      }
    }
  }

  lemma {:induction false} CallShapeMore(p: Program, calls: seq<nat>, more: seq<nat>, n: Node)
    requires p.Valid() && calls <= more && CallShape(p, calls, n)
    ensures CallShape(p, more, n)
  {
    hide Linked, Consumed;
    var sp, cs, i, st :| 0 <= i < |cs| && 0 <= st < |p.stmts| && Consumed(p, st, sp, cs)
      && InStmt(p, st, cs) && Linked(p, calls, n, sp, cs, i);
    LinkedMore(p, calls, more, n, sp, cs, i);
  }

  lemma {:induction false} NameShapeMore(p: Program, calls: seq<nat>, more: seq<nat>, n: Node)
    requires p.Valid() && calls <= more && (BoundShape(p, calls, n) || ParamShape(p, calls, n))
    ensures BoundShape(p, more, n) || ParamShape(p, more, n)
  {
    hide AllCome, UserStarts, BodyStarts, GivenNames, Program.Target;
    if BoundShape(p, calls, n) {
      var st :| 0 <= st < |p.stmts| && n.name in p.stmts[st].binds && n.code == At(p, st)
        && AllCome(p, calls, UserStarts(p, n.name, st), n.feeds);
      ComeMore(p, calls, more, UserStarts(p, n.name, st), UserStarts(p, n.name, st), n.feeds);
    } else {
      var c, f, sp :| 0 <= c < |p.calls| && 0 <= f < |p.funcs| && p.Target(p.calls[c].callee) == Some(f)
        && GivenNames(p, c, f, sp) != [] && n.name == GivenNames(p, c, f, sp)[0]
        && n.code == Place(p.funcs[f].owner, p.funcs[f].span)
        && AllCome(p, calls, BodyStarts(p, f, GivenNames(p, c, f, sp)), n.feeds);
      var starts := BodyStarts(p, f, GivenNames(p, c, f, sp));
      ComeMore(p, calls, more, starts, starts, n.feeds);
    }
  }

  lemma {:induction false} NothingShown(p: Program, calls: seq<nat>, starts: iset<nat>)
    requires p.Valid()
    ensures Shown(p, calls, starts, [])
  {
  }

  /** Trees walked later are put after those from before. */
  lemma {:induction false} ShownAfter(p: Program, calls: seq<nat>, more: seq<nat>, starts: iset<nat>, inner: iset<nat>,
      xs: seq<Node>, ys: seq<Node>)
    requires p.Valid() && calls <= more && inner <= starts && Shown(p, calls, starts, xs) && Shown(p, more, inner, ys)
    ensures Shown(p, more, starts, xs + ys)
  {
    hide NodeShaped, SomeStart;
    ComeMore(p, calls, more, starts, starts, xs);
    ComeMore(p, more, more, inner, starts, ys);
    ShapedMore(p, calls, more, xs);
    var all := xs + ys;
    forall i | 0 <= i < |all| ensures NodeShaped(p, more, all[i]) && SomeStart(p, more, starts, all[i]) {
      assert all[i] == if i < |xs| then xs[i] else ys[i - |xs|];
    }
  }

  /** What comes from the callers of a function comes from each statement that returns from it. */
  lemma {:induction false} ShownReturned(p: Program, calls: seq<nat>, st: nat, nodes: seq<Node>)
    requires p.Valid() && st < |p.stmts| && p.stmts[st].isReturn && p.stmts[st].scope.Some?
    requires Shown(p, calls, SiteStarts(p, p.stmts[st].scope.value), nodes)
    ensures Shown(p, calls, iset{st}, nodes)
  {
    hide NodeShaped, StandsAt, CallSitesOf;
    var f := p.stmts[st].scope.value;
    forall i | 0 <= i < |nodes| ensures SomeStart(p, calls, iset{st}, nodes[i]) {
      assert SomeStart(p, calls, SiteStarts(p, f), nodes[i]);
      var u :| u in SiteStarts(p, f) && u < |p.stmts| && ComesFrom(p, calls, u, nodes[i]);
      var at, k: nat :| 0 <= at < |p.stmts| && ReturnsTo(p, u, at, k) && StandsAt(p, calls, at, nodes[i]);
      assert ReturnsTo(p, st, at, k + 1);
      assert ComesFrom(p, calls, st, nodes[i]);
    }
  }

  // ----- Making nodes

  /** The node of a call with what it feeds inside the function it names. */
  ghost predicate CallMade(p: Program, calls: seq<nat>, n: Node, c: nat, sp: Span)
    requires p.Valid() && c < |p.calls|
  {
    && 0 < n.call <= |calls| && calls[n.call - 1] == c
    && |n.feeds| == |GivenIn(p, c, sp)| && EndsWith(n.feeds, GivenIn(p, c, sp), FuncPlace(p, c))
    && Shaped(p, calls, n.feeds)
  }

  lemma {:induction false} CallMadeMore(p: Program, calls: seq<nat>, more: seq<nat>, n: Node, c: nat, sp: Span)
    requires p.Valid() && c < |p.calls| && calls <= more && CallMade(p, calls, n, c, sp)
    ensures CallMade(p, more, n, c, sp)
  {
    hide EndsWith, GivenIn, FuncPlace, Shaped;
    ShapedMore(p, calls, more, n.feeds);
  }

  ghost predicate ChainMade(p: Program, calls: seq<nat>, made: seq<Node>, sp: Span, cs: seq<nat>) {
    && p.Valid() && |made| <= |cs| && (forall k :: 0 <= k < |cs| ==> cs[k] < |p.calls|)
    && forall k :: 0 <= k < |made| ==> CallMade(p, calls, made[k], cs[k], sp)
  }

  lemma {:induction false} ChainMadeMore(p: Program, calls: seq<nat>, more: seq<nat>, made: seq<Node>, sp: Span,
      cs: seq<nat>)
    requires calls <= more && ChainMade(p, calls, made, sp, cs)
    ensures ChainMade(p, more, made, sp, cs)
  {
    hide CallMade;
    forall k | 0 <= k < |made| ensures CallMade(p, more, made[k], cs[k], sp) {
      CallMadeMore(p, calls, more, made[k], cs[k], sp);
    }
  }

  /** Linking the nodes of a chain: each feeds the next, and the last what follows. */
  lemma {:induction false} LinkShape(p: Program, calls: seq<nat>, made: seq<Node>, rest: seq<Node>, sp: Span,
      cs: seq<nat>, st: nat, i: nat)
    requires ChainMade(p, calls, made, sp, cs) && |made| == |cs| && i < |cs| && st < |p.stmts|
    requires Consumed(p, st, sp, cs) && InStmt(p, st, cs)
    requires Shown(p, calls, iset{st}, rest) && EndsWith(rest, p.stmts[st].binds, At(p, st))
    ensures Linked(p, calls, Link(made[i..], rest), sp, cs, i) && NodeShaped(p, calls, Link(made[i..], rest))
    decreases |cs| - i
  {
    hide EndsWith, GivenIn, FuncPlace, AllCome, Consumed, CallShape, NodeShaped, BoundShape, ParamShape;
    var own := made[i].feeds;
    assert CallMade(p, calls, made[i], cs[i], sp);
    var tail: seq<Node>;
    if i + 1 < |cs| {
      LinkShape(p, calls, made, rest, sp, cs, st, i + 1);
      assert made[i..][1..] == made[i + 1..];
      tail := [Link(made[i + 1..], rest)];
    } else {
      tail := rest;
    }
    var n := Link(made[i..], rest);
    assert n.feeds == own + tail && n.call == made[i].call;
    assert n.feeds[..|own|] == own && n.feeds[|own|..] == tail;
    assert Linked(p, calls, n, sp, cs, i);
    ShapedBoth(p, calls, own, tail);
    ItsShape(p, calls, n, sp, cs, i, st);
  }

  lemma {:induction false} ItsShape(p: Program, calls: seq<nat>, n: Node, sp: Span, cs: seq<nat>, i: nat, st: nat)
    requires p.Valid() && st < |p.stmts| && Consumed(p, st, sp, cs) && InStmt(p, st, cs) && i < |cs|
    requires Linked(p, calls, n, sp, cs, i) && Shaped(p, calls, n.feeds)
    ensures NodeShaped(p, calls, n)
  {
    hide EndsWith, GivenIn, FuncPlace, AllCome, Consumed, BoundShape, ParamShape;
  }

  lemma {:induction false} ShapedBoth(p: Program, calls: seq<nat>, xs: seq<Node>, ys: seq<Node>)
    requires p.Valid() && Shaped(p, calls, xs) && Shaped(p, calls, ys)
    ensures Shaped(p, calls, xs + ys)
  {
    hide NodeShaped;
    var all := xs + ys;
    forall i | 0 <= i < |all| ensures NodeShaped(p, calls, all[i]) {
      assert all[i] == if i < |xs| then xs[i] else ys[i - |xs|];
    }
  }

  /** The tree of a chain comes from its statement. */
  lemma {:induction false} ChainShown(p: Program, calls: seq<nat>, n: Node, sp: Span, cs: seq<nat>, st: nat)
    requires p.Valid() && st < |p.stmts| && InStmt(p, st, cs) && cs != []
    requires Linked(p, calls, n, sp, cs, 0) && NodeShaped(p, calls, n)
    ensures Shown(p, calls, iset{st}, [n])
  {
    hide EndsWith, GivenIn, FuncPlace, AllCome, NodeShaped;
    assert ReturnsTo(p, st, st, 0) && StandsAt(p, calls, st, n);
    assert ComesFrom(p, calls, st, n);
    assert SomeStart(p, calls, iset{st}, [n][0]);
    OneCome(p, calls, iset{st}, n);
  }

  lemma {:induction false} OneCome(p: Program, calls: seq<nat>, starts: iset<nat>, n: Node)
    requires p.Valid() && SomeStart(p, calls, starts, n)
    ensures AllCome(p, calls, starts, [n])
  {
  }

  /** A bound name with what its users make of it. */
  lemma {:induction false} BoundShown(p: Program, calls: seq<nat>, n: Node, st: nat)
    requires p.Valid() && st < |p.stmts| && n.call == 0 && n.fedBy == [] && n.name in p.stmts[st].binds
      && n.code == At(p, st)
    requires Shown(p, calls, UserStarts(p, n.name, st), n.feeds)
    ensures Shown(p, calls, iset{st}, [n])
  {
    hide UserStarts, AllCome, ParamShape, CallShape;
    assert BoundShape(p, calls, n);
    assert NodeShaped(p, calls, n);
    assert ReturnsTo(p, st, st, 0) && StandsAt(p, calls, st, n);
    assert ComesFrom(p, calls, st, n);
    assert SomeStart(p, calls, iset{st}, n);
    OneCome(p, calls, iset{st}, n);
  }

  /** A parameter with what the body of its function makes of it. */
  lemma {:induction false} ParamShaped(p: Program, calls: seq<nat>, n: Node, c: nat, f: nat, sp: Span)
    requires p.Valid() && c < |p.calls| && f < |p.funcs| && p.Target(p.calls[c].callee) == Some(f) && n.call == 0
      && n.fedBy == []
    requires GivenNames(p, c, f, sp) != [] && n.name == GivenNames(p, c, f, sp)[0]
    requires n.code == Place(p.funcs[f].owner, p.funcs[f].span)
    requires Shown(p, calls, BodyStarts(p, f, GivenNames(p, c, f, sp)), n.feeds)
    ensures Shaped(p, calls, [n])
  {
    hide BodyStarts, AllCome, BoundShape, CallShape, GivenNames, Program.Target;
    assert ParamShape(p, calls, n);
    assert NodeShaped(p, calls, n);
  }

  /** What one visited statement makes belongs to what starts there. */
  lemma {:induction false} ShownFrom(p: Program, calls: seq<nat>, st: nat, starts: iset<nat>, nodes: seq<Node>)
    requires p.Valid() && st in starts && Shown(p, calls, iset{st}, nodes)
    ensures Shown(p, calls, starts, nodes)
  {
    hide ComesFrom, NodeShaped;
    ComeMore(p, calls, calls, iset{st}, starts, nodes);
  }
}
