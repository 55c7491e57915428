/** Value traces under a budget (pkg/internal/trace/forward.go, pkg/internal/trace/backward.go). */
module Tracing {
  import opened Options
  import opened CodeProgram
  import opened Origins
  import opened Flow
  import opened Visits
  import opened Shapes

  const MAX_NODES := 80

  /** The fields of a tracer; `looked` counts what the backward walk spent and `refused` the refusals. */
  datatype Fields = Fields(budget: nat, truncated: bool, looked: nat, refused: nat, seen: set<Key>, calls: seq<nat>)

  /** Budget only moves to the backward walk, and the mark is set exactly when something was refused. */
  predicate Paid(a: Fields, b: Fields) {
    && b.budget <= a.budget && a.budget - b.budget == b.looked - a.looked
    && a.refused <= b.refused && (b.truncated <==> a.truncated || a.refused < b.refused)
    && b.seen == a.seen && b.calls == a.calls
  }

  /** The backward walk spends one for each lookup of the tree, and is refused exactly when that is
      more than the budget. */
  predicate Charged(a: Fields, b: Fields, lookups: nat) {
    b.budget == (if lookups <= a.budget then a.budget - lookups else 0)
      && (a.refused < b.refused <==> a.budget < lookups)
  }

  function LookupsFor(p: Program, c: nat): nat
    requires p.Valid() && c < |p.calls|
  {
    LookupsIn(FedByOf(p, MAX_DEPTH, c), MAX_DEPTH + 1)
  }

  function Listed(s: Option<Source>): seq<Source> { if s.Some? then [s.value] else [] }

  lemma {:induction false} LookupsNone(left: nat)
    ensures LookupsPassed([], left) == 0
  {
  }

  lemma {:induction false} PassedStart(p: Program, left: nat, f: nat, index: nat)
    requires p.Valid() && f < |p.funcs| && index < |p.funcs[f].params|
    ensures PassedAll(p, left, [], f, index) == [] && LookupsPassed([], left) == 0
  {
  }

  lemma {:induction false} PassedNext(p: Program, left: nat, sites: seq<nat>, f: nat, index: nat, i: nat)
    requires p.Valid() && f < |p.funcs| && index < |p.funcs[f].params| && i < |sites| && forall k ::
      0 <= k < |sites| ==> sites[k] < |p.calls|
    ensures PassedAll(p, left, sites[..i + 1], f, index)
      == PassedAll(p, left, sites[..i], f, index) + [PassedOf(p, left, sites[i], f, index)]
    ensures LookupsPassed(PassedAll(p, left, sites[..i + 1], f, index), left)
         == LookupsPassed(PassedAll(p, left, sites[..i], f, index),
           left) + LookupsIn(PassedOf(p, left, sites[i], f, index).fedBy, left)
  {
    hide LookupsIn, PassedOf, Program.Valid;
    assert sites[..i + 1][..i] == sites[..i];
    var xs, s := PassedAll(p, left, sites[..i], f, index), PassedOf(p, left, sites[i], f, index);
    assert (xs + [s])[..|xs|] == xs;
  }

  lemma {:induction false} SourcesStart(p: Program, left: nat, param: string, at: nat)
    requires p.Valid() && at < |p.stmts|
    ensures SourcesOf(p, left, param, [], at) == [] && LookupsIn([], left) == 0 && forall name :: !Mentions([], name)
  {
  }

  lemma {:induction false} SourcesNext(p: Program, left: nat, param: string, refs: seq<Ref>, at: nat, n: nat)
    requires p.Valid() && at < |p.stmts| && n < |refs|
    ensures SourcesOf(p, left, param, refs[..n + 1], at)
         == if Mentions(refs[..n], refs[n].name) then SourcesOf(p, left, param, refs[..n], at)
            else SourcesOf(p, left, param, refs[..n], at) + Listed(OriginOf(p, left, param, refs[n].name, at))
  {
    hide OriginOf, Program.Valid;
    assert refs[..n + 1][..n] == refs[..n];
    MentionsLast(refs[..n + 1]);
  }

  lemma {:induction false} ReceiverIs(p: Program, c: nat)
    requires p.Valid() && c < |p.calls|
    ensures ReceiverOf(p, MAX_DEPTH, c) == if p.calls[c].receiver == "" then []
                                          else Listed(OriginOf(p, MAX_DEPTH + 1, "receiver", p.calls[c].receiver,
                                            p.calls[c].stmt))
  {
    hide OriginOf;
  }

  lemma {:induction false} WholeFed(p: Program, c: nat)
    requires p.Valid() && c < |p.calls|
    ensures FedByOf(p, MAX_DEPTH, c) == ReceiverOf(p, MAX_DEPTH, c) + ArgsFrom(p, MAX_DEPTH, c, |p.calls[c].args|)
  {
  }

  lemma {:induction false} ArgsStart(p: Program, c: nat, first: seq<Source>)
    requires p.Valid() && c < |p.calls|
    ensures first + ArgsFrom(p, MAX_DEPTH, c, 0) == first
  {
  }

  lemma {:induction false} ArgsNext(p: Program, c: nat, i: nat, first: seq<Source>)
    requires p.Valid() && c < |p.calls| && i < |p.calls[c].args|
    ensures var call, left := p.calls[c], MAX_DEPTH + 1;
            var before, next := ArgsFrom(p, MAX_DEPTH, c, i),
              SourcesOf(p, left, ParamName(call.args[i], i), call.args[i].expr.refs, call.stmt);
            ArgsFrom(p, MAX_DEPTH, c, i + 1) == before + next
            && LookupsIn(first + ArgsFrom(p, MAX_DEPTH, c, i + 1), left)
              == LookupsIn(first + before, left) + LookupsIn(next, left)
  {
    hide LookupsIn, SourcesOf, ParamName;
    var call, left := p.calls[c], MAX_DEPTH + 1;
    var before, next := ArgsFrom(p, MAX_DEPTH, c, i),
      SourcesOf(p, left, ParamName(call.args[i], i), call.args[i].expr.refs, call.stmt);
    assert first + ArgsFrom(p, MAX_DEPTH, c, i + 1) == (first + before) + next;
    LookupsAppend(first + before, next, left);
  }

  lemma {:induction false} ChargedNothing(a: Fields)
    ensures Charged(a, a, 0)
  {
  }

  lemma {:induction false} ChargedTwice(a: Fields, b: Fields, c: Fields, m: nat, n: nat)
    requires Charged(a, b, m) && Charged(b, c, n) && Paid(a, b) && Paid(b, c)
    ensures Charged(a, c, m + n)
  {
  }

  /** What a part of the forward walk does: `owed` is what was spent for its nodes before it began. */
  ghost predicate Step(p: Program, r: Region, a: Fields, b: Fields, nodes: seq<Node>, owed: int)
    requires p.Valid()
  {
    && a.seen <= b.seen <= r.keys
    && b.budget <= a.budget && a.looked <= b.looked
    && Count(nodes) == owed + (a.budget - b.budget) - (b.looked - a.looked)
    && a.refused <= b.refused && (b.truncated <==> a.truncated || a.refused < b.refused)
    && a.calls <= b.calls && Numbers(nodes) == Upward(|a.calls|, |b.calls|)
    && Right(p, b.calls, !b.truncated, nodes)
    && (!b.truncated ==> NewExplored(p, a.seen, b.seen))
  }

  ghost predicate NewExplored(p: Program, before: set<Key>, after: set<Key>)
    requires p.Valid()
  {
    forall key :: key in after && key !in before ==> Explored(p, key, after)
  }

  lemma {:induction false} NewTwice(p: Program, a: set<Key>, b: set<Key>, c: set<Key>)
    requires p.Valid() && a <= b <= c && NewExplored(p, a, b) && NewExplored(p, b, c)
    ensures NewExplored(p, a, c)
  {
    hide Explored, Program.Valid;
    forall key | key in c && key !in a ensures Explored(p, key, c) {
      if key in b {
        StillExplored(p, key, b, c);
      }
    }
  }

  lemma {:induction false} Steps(p: Program, r: Region, a: Fields, b: Fields, c: Fields, xs: seq<Node>, ys: seq<Node>,
      owed: int, more: int)
    requires p.Valid() && Step(p, r, a, b, xs, owed) && Step(p, r, b, c, ys, more)
    ensures Step(p, r, a, c, xs + ys, owed + more)
  {
    hide NewExplored, Right, Count, Numbers, Upward, Program.Valid;
    CountAppend(xs, ys);
    UpwardAppend(|a.calls|, |b.calls|, |c.calls|);
    RightMore(p, b.calls, !b.truncated, xs, c.calls, !c.truncated);
    RightAppend(p, c.calls, !c.truncated, xs, ys);
    if !c.truncated {
      NewTwice(p, a.seen, b.seen, c.seen);
    }
  }

  lemma {:induction false} NoStep(p: Program, r: Region, a: Fields)
    requires p.Valid() && a.seen <= r.keys
    ensures Step(p, r, a, a, [], 0)
  {
  }

  // ----- Steps of the walk

  lemma {:induction false} StepFacts(p: Program, r: Region, a: Fields, b: Fields, nodes: seq<Node>, owed: int)
    requires p.Valid() && Step(p, r, a, b, nodes, owed)
    ensures a.seen <= b.seen <= r.keys && (a.truncated ==> b.truncated) && a.calls <= b.calls
  {
  }

  lemma {:induction false} RefusedStep(p: Program, r: Region, a: Fields, b: Fields, c: Fields, nodes: seq<Node>,
      owed: int)
    requires p.Valid() && Step(p, r, a, b, nodes, owed) && c == b.(truncated := true, refused := b.refused + 1)
    ensures Step(p, r, a, c, nodes, owed)
  {
    hide NewExplored, NodeRight;
    RightMore(p, b.calls, !b.truncated, nodes, c.calls, false);
  }

  /** A node for a call, as it is before it feeds anything. */
  ghost predicate IsCallNode(p: Program, calls: seq<nat>, exact: bool, n: Node)
    requires p.Valid()
  {
    n.call == |calls| > 0 && n.feeds == [] && NodeRight(p, calls, exact, n)
  }

  lemma {:induction false} Leaf(p: Program, calls: seq<nat>, exact: bool, n: Node)
    requires p.Valid() && n.feeds == [] && (n.call > 0 ==> NodeRight(p, calls, exact, n))
    ensures Count([n]) == 1 && Numbers([n]) == (if n.call > 0 then [n.call] else []) && Right(p, calls, exact, [n])
  {
    hide Count, Numbers, Program.Valid;
    CountOne(n);
    CountNone();
    assert Right(p, calls, exact, n.feeds);
    assert NodeRight(p, calls, exact, n);
  }

  /** A call node, paid for unless it is the subject itself. */
  lemma {:induction false} CallStep(p: Program, r: Region, a: Fields, paid: Fields, b: Fields, n: Node, c: nat)
    requires p.Valid() && a.seen <= r.keys && paid == a.(budget := paid.budget) && paid.budget <= a.budget
    requires b.calls == a.calls + [c] && Paid(paid, b.(calls := a.calls)) && IsCallNode(p, b.calls, !b.truncated, n)
    ensures Step(p, r, a, b, [n], 1 - (a.budget - paid.budget))
  {
    hide NodeRight, Count, Numbers;
    Leaf(p, b.calls, !b.truncated, n);
    assert Upward(|a.calls|, |a.calls| + 1) == Upward(|a.calls|, |a.calls|) + [|a.calls| + 1];
  }

  /** A paid node for a name or a parameter. */
  lemma {:induction false} NameStep(p: Program, r: Region, a: Fields, b: Fields, n: Node)
    requires p.Valid() && a.seen <= r.keys && a.budget > 0 && b == a.(budget := a.budget - 1) && n.call == 0
      && n.feeds == []
    ensures Step(p, r, a, b, [n], 0)
  {
    Leaf(p, b.calls, !b.truncated, n);
    assert Upward(|a.calls|, |b.calls|) == [];
  }

  /** What a node feeds is walked after it. */
  lemma {:induction false} FeedStep(p: Program, r: Region, a: Fields, b: Fields, c: Fields, n: Node, feeds: seq<Node>,
      owed: int)
    requires p.Valid() && Step(p, r, a, b, [n], owed) && n.feeds == [] && Step(p, r, b, c, feeds, 0)
    ensures Step(p, r, a, c, [n.(feeds := feeds)], owed)
  {
    hide NewExplored, Count, Numbers, Upward, Right, Program.Valid;
    Steps(p, r, a, b, c, [n], feeds, owed, 0);
    RightMore(p, b.calls, !b.truncated, [n], c.calls, !c.truncated);
    Refeed(p, c.calls, !c.truncated, n, feeds);
  }

  lemma {:induction false} Refeed(p: Program, calls: seq<nat>, exact: bool, n: Node, feeds: seq<Node>)
    requires p.Valid() && n.feeds == [] && Right(p, calls, exact, [n]) && Right(p, calls, exact, feeds)
    ensures var m := n.(feeds := feeds);
            Count([m]) == Count([n] + feeds) && Numbers([m]) == Numbers([n] + feeds) && Right(p, calls, exact, [m])
  {
    hide Count, Numbers, Program.Valid, FedByOf;
    var m := n.(feeds := feeds);
    CountOne(n);
    CountOne(m);
    CountNone();
    CountAppend([n], feeds);
    assert NodeRight(p, calls, exact, [n][0]);
    assert NodeRight(p, calls, exact, m);
  }

  lemma {:induction false} LinkStep(p: Program, r: Region, a: Fields, b: Fields, c: Fields, made: seq<Node>,
      rest: seq<Node>)
    requires p.Valid() && made != [] && Step(p, r, a, b, made, 0) && Step(p, r, b, c, rest, 0)
    ensures Step(p, r, a, c, [Link(made, rest)], 0)
  {
    hide NewExplored, Count, Numbers, Upward, Right, Link, Program.Valid;
    Steps(p, r, a, b, c, made, rest, 0, 0);
    LinkCounts(made, rest);
    CountAppend(made, rest);
    RightMore(p, b.calls, !b.truncated, made, c.calls, !c.truncated);
    LinkRight(p, c.calls, !c.truncated, made, rest);
  }

  /** A key is marked first and walked after. */
  lemma {:induction false} MarkStep(p: Program, r: Region, a: Fields, b: Fields, nodes: seq<Node>, key: Key,
      spans: seq<Span>)
    requires p.Valid() && key.st < |p.stmts| && Step(p, r, a.(seen := a.seen + {key}), b, nodes, 0)
      && Visit(p, key, spans)
    requires !b.truncated ==> ClosedAt(p, key.st, b.seen) && AllEntered(p, key.st, spans, b.seen)
    ensures Step(p, r, a, b, nodes, 0)
  {
    hide Visit, ClosedAt, AllEntered, Right, Count, Numbers, Program.Valid;
  }

  // ----- What is left to visit

  lemma {:induction false} FewerLeft(keys: set<Key>, a: set<Key>, b: set<Key>)
    requires a <= b
    ensures |keys - b| <= |keys - a|
  {
    SubsetSize(keys - b, keys - a);
  }

  lemma {:induction false} SubsetSize(a: set<Key>, b: set<Key>)
    requires a <= b
    ensures |a| <= |b|
  {
    assert b == a + (b - a);
  }

  lemma {:induction false} MarkLeft(keys: set<Key>, a: set<Key>, key: Key)
    requires key in keys && key !in a
    ensures |keys - (a + {key})| < |keys - a|
  {
    assert keys - a == (keys - (a + {key})) + {key};
  }

  // ----- What a walk costs

  /** The most that the spans of a statement cost: for each the calls that take it and the nodes of the names bound. */
  function FlowCost(p: Program, r: Region, st: nat, n: nat): nat
    requires st < |p.stmts|
  {
    n * ChainCost(p, r, st, |p.stmts[st].calls|) + |p.stmts[st].binds|
  }

  function ChainCost(p: Program, r: Region, st: nat, n: nat): nat
    requires st < |p.stmts|
  {
    n * r.call + |p.stmts[st].binds|
  }

  /** No call costs more than `r.call`, that is its node, its lookups and the node of a parameter,
      and no visit more than `r.visit`. */
  ghost predicate Light(p: Program, r: Region)
    requires p.Valid()
  {
    && (forall c :: 0 <= c < |p.calls| ==> LookupsFor(p, c) + 2 <= r.call)
    && forall v :: v in r.flows ==> v.st < |p.stmts| && FlowCost(p, r, v.st, |v.spans|) <= r.visit
  }

  /** What is left when every key not yet visited costs its visit. */
  function Spare(r: Region, a: Fields): int { a.budget - r.visit * |r.keys - a.seen| }

  /** In a light region, a walk whose cost can be spared refuses nothing and spends no more than that. */
  ghost predicate Affordable(p: Program, r: Region, a: Fields, b: Fields, depth: nat, cost: nat)
    requires p.Valid()
  {
    Light(p, r) && depth + |r.keys - a.seen| <= MAX_DEPTH && cost <= Spare(r, a) ==>
      b.refused == a.refused && Spare(r, b) >= Spare(r, a) - cost
  }

  lemma {:induction false} SpareBelow(r: Region, a: Fields)
    ensures Spare(r, a) <= a.budget
  {
  }

  lemma {:induction false} TimesNext(i: nat, x: nat)
    ensures (i + 1) * x == i * x + x && i * x >= 0
  {
  }

  lemma {:induction false} TimesMore(i: nat, n: nat, x: nat)
    requires i <= n
    ensures i * x <= n * x
  {
  }

  lemma {:induction false} ShorterChain(p: Program, r: Region, st: nat, i: nat, n: nat)
    requires st < |p.stmts| && i <= n
    ensures ChainCost(p, r, st, i) <= ChainCost(p, r, st, n)
  {
    TimesMore(i, n, r.call);
  }

  /** One more bound name, and what its users make of it. */
  lemma {:induction false} NextBound(p: Program, r: Region, a: Fields, b: Fields, paid: Fields, c: Fields,
      out: seq<Node>, n: Node, feeds: seq<Node>, st: nat, i: nat)
    requires p.Valid() && st < |p.stmts| && i < |p.stmts[st].binds|
      && n == Node(p.stmts[st].binds[i], 0, At(p, st), [], [])
    requires Step(p, r, a, b, out, 0) && b.budget > 0 && paid == b.(budget := b.budget - 1)
      && Step(p, r, paid, c, feeds, 0)
    requires !b.truncated ==> EndsWith(out, p.stmts[st].binds[..i], At(p, st)) && Shown(p, b.calls, iset{st}, out)
    requires !c.truncated ==> Shown(p, c.calls, UserStarts(p, n.name, st), feeds)
    ensures Step(p, r, a, c, out + [n.(feeds := feeds)], 0) && b.seen <= c.seen <= r.keys
      && (b.truncated ==> c.truncated)
    ensures !c.truncated ==>
      EndsWith(out + [n.(feeds := feeds)], p.stmts[st].binds[..i + 1], At(p, st))
      && Shown(p, c.calls, iset{st}, out + [n.(feeds := feeds)])
  {
    hide Step, EndsWith, Shown, UserStarts, Program.Valid;
    var m := n.(feeds := feeds);
    StepFacts(p, r, a, b, out, 0);
    NameStep(p, r, b, paid, n);
    FeedStep(p, r, b, paid, c, n, feeds, 0);
    Steps(p, r, a, b, c, out, [m], 0, 0);
    StepFacts(p, r, b, c, [m], 0);
    EndsNext(out, p.stmts[st].binds, i, At(p, st), m);
    if !c.truncated {
      BoundShown(p, c.calls, m, st);
      ShownAfter(p, b.calls, c.calls, iset{st}, iset{st}, out, [m]);
    }
  }

  /** One more call of a chain. */
  lemma {:induction false} NextCall(p: Program, r: Region, a: Fields, b: Fields, c: Fields, made: seq<Node>,
      n: Option<Node>, i: nat, depth: nat)
    requires p.Valid() && Step(p, r, a, b, made, 0) && Step(p, r, b, c, ToList(n), 0)
    requires Affordable(p, r, a, b, depth + 1, i * r.call) && Affordable(p, r, b, c, depth + 1, r.call)
    ensures Step(p, r, a, c, if n.Some? then made + [n.value] else made, 0) && a.seen <= b.seen <= c.seen <= r.keys
      && (b.truncated ==> c.truncated) && b.calls <= c.calls
    ensures Affordable(p, r, a, c, depth + 1, (i + 1) * r.call)
  {
    hide Step, Affordable, Program.Valid;
    StepFacts(p, r, a, b, made, 0);
    StepFacts(p, r, b, c, ToList(n), 0);
    Steps(p, r, a, b, c, made, ToList(n), 0, 0);
    assert made + ToList(n) == if n.Some? then made + [n.value] else made;
    TimesNext(i, r.call);
    AffordTwice(p, r, a, b, c, depth + 1, i * r.call, r.call);
  }

  /** One more span, and the chain it starts. */
  lemma {:induction false} NextChain(p: Program, r: Region, a: Fields, b: Fields, c: Fields, out: seq<Node>,
      more: seq<Node>, st: nat, i: nat, n: nat, depth: nat)
    requires p.Valid() && st < |p.stmts| && n <= |p.stmts[st].calls| && Step(p, r, a, b, out, 0)
      && Step(p, r, b, c, more, 0)
    requires Affordable(p, r, a, b, depth + 1, i * ChainCost(p, r, st, |p.stmts[st].calls|))
    requires Affordable(p, r, b, c, depth + 1, ChainCost(p, r, st, n))
    ensures Step(p, r, a, c, out + more, 0) && a.seen <= b.seen <= c.seen <= r.keys && (b.truncated ==> c.truncated)
      && b.calls <= c.calls
    ensures Affordable(p, r, a, c, depth + 1, (i + 1) * ChainCost(p, r, st, |p.stmts[st].calls|))
  {
    hide Step, Affordable, ChainCost, Program.Valid;
    var each := ChainCost(p, r, st, |p.stmts[st].calls|);
    StepFacts(p, r, a, b, out, 0);
    StepFacts(p, r, b, c, more, 0);
    Steps(p, r, a, b, c, out, more, 0, 0);
    ShorterChain(p, r, st, n, |p.stmts[st].calls|);
    AffordMore(p, r, b, c, depth + 1, ChainCost(p, r, st, n), depth + 1, each);
    AffordTwice(p, r, a, b, c, depth + 1, i * each, each);
    TimesNext(i, each);
  }

  /** One more span, and no chain. */
  lemma {:induction false} NoChain(p: Program, r: Region, a: Fields, b: Fields, st: nat, i: nat, depth: nat)
    requires p.Valid() && st < |p.stmts|
      && Affordable(p, r, a, b, depth + 1, i * ChainCost(p, r, st, |p.stmts[st].calls|))
    ensures Affordable(p, r, a, b, depth + 1, (i + 1) * ChainCost(p, r, st, |p.stmts[st].calls|))
  {
    hide Affordable, ChainCost, Program.Valid;
    var each := ChainCost(p, r, st, |p.stmts[st].calls|);
    TimesNext(i, each);
    AffordMore(p, r, a, b, depth + 1, i * each, depth + 1, (i + 1) * each);
  }

  lemma {:induction false} CallLight(p: Program, r: Region, c: nat)
    requires p.Valid() && c < |p.calls|
    ensures Light(p, r) ==> LookupsFor(p, c) + 2 <= r.call
  {
    hide LookupsFor, FlowCost;
  }

  lemma {:induction false} AffordNothing(p: Program, r: Region, a: Fields, depth: nat)
    requires p.Valid()
    ensures Affordable(p, r, a, a, depth, 0)
  {
    hide Light, Spare;
  }

  lemma {:induction false} AffordMore(p: Program, r: Region, a: Fields, b: Fields, depth: nat, cost: nat, deeper: nat,
      more: nat)
    requires p.Valid() && Affordable(p, r, a, b, depth, cost) && depth <= deeper && (Light(p, r) ==> cost <= more)
    ensures Affordable(p, r, a, b, deeper, more)
  {
    hide Light, Spare;
  }

  lemma {:induction false} AffordTwice(p: Program, r: Region, a: Fields, b: Fields, c: Fields, depth: nat, cost: nat,
      more: nat)
    requires p.Valid() && Affordable(p, r, a, b, depth, cost) && Affordable(p, r, b, c, depth, more) && a.seen <= b.seen
    ensures Affordable(p, r, a, c, depth, cost + more)
  {
    hide Light, Spare;
    FewerLeft(r.keys, a.seen, b.seen);
  }

  /** A walk that marks a key first is paid for by the key. */
  lemma {:induction false} AffordVisit(p: Program, r: Region, a: Fields, b: Fields, key: Key, spans: seq<Span>,
      depth: nat)
    requires p.Valid() && key in r.keys && key !in a.seen && key.st < |p.stmts| && Flowing(key.st, spans) in r.flows
    requires Affordable(p, r, a.(seen := a.seen + {key}), b, depth + 1, FlowCost(p, r, key.st, |spans|))
    ensures Affordable(p, r, a, b, depth, 0)
  {
    hide FlowCost, LookupsFor;
    var marked := a.(seen := a.seen + {key});
    assert r.keys - a.seen == (r.keys - marked.seen) + {key};
    assert Spare(r, marked) == Spare(r, a) + r.visit;
    if Light(p, r) {
      assert FlowCost(p, r, Flowing(key.st, spans).st, |Flowing(key.st, spans).spans|) <= r.visit;
    }
  }

  lemma {:induction false} AffordRefused(p: Program, r: Region, a: Fields, b: Fields, depth: nat, cost: nat)
    requires p.Valid() && (depth > MAX_DEPTH || (a.budget == 0 && cost > 0))
    ensures Affordable(p, r, a, b, depth, cost)
  {
    hide Light, Spare;
    SpareBelow(r, a);
  }

  lemma {:induction false} AffordNode(p: Program, r: Region, a: Fields, b: Fields, depth: nat)
    requires p.Valid() && a.budget > 0 && b == a.(budget := a.budget - 1)
    ensures Affordable(p, r, a, b, depth, 1)
  {
    hide Light;
  }

  lemma {:induction false} AffordLookups(p: Program, r: Region, a: Fields, b: Fields, depth: nat, lookups: nat)
    requires p.Valid() && b.seen == a.seen && a.refused <= b.refused && Charged(a, b, lookups)
    ensures Affordable(p, r, a, b, depth, lookups)
  {
    hide Light;
    SpareBelow(r, a);
  }

  // ----- Regions

  lemma {:induction false} RegionFlow(p: Program, r: Region, st: nat, spans: seq<Span>)
    requires p.Valid() && Encloses(p, r) && Flowing(st, spans) in r.flows
    ensures st < |p.stmts| && ClosedAt(p, st, r.keys) && NotSkippedEntered(p, st, spans, r.keys)
  {
    hide ClosedAt, NotSkippedEntered;
    assert Flowing(st, spans).st == st;
  }

  lemma {:induction false} RegionVisit(p: Program, r: Region, key: Key, spans: seq<Span>)
    requires p.Valid() && Encloses(p, r) && key in r.keys && key.st < |p.stmts| && Visit(p, key, spans)
    ensures Flowing(key.st, spans) in r.flows
  {
    hide ClosedAt, NotSkippedEntered;
  }

  lemma {:induction false} BodyOf(p: Program, c: nat, f: nat, sp: Span, keys: set<Key>)
    requires p.Valid() && c < |p.calls| && p.Target(p.calls[c].callee) == Some(f) && Entered(p, c, sp, keys)
    ensures GivenNames(p, c, f, sp) != [] ==> BodyKeyed(p, f, GivenNames(p, c, f, sp), keys)
  {
    hide BodyKeyed, GivenNames, Program.Target;
  }

  lemma {:induction false} IsEntered(p: Program, c: nat, f: nat, sp: Span, names: seq<string>, keys: set<Key>)
    requires p.Valid() && c < |p.calls| && p.Target(p.calls[c].callee) == Some(f)
    requires names == GivenNames(p, c, f, sp) != [] && BodyKeyed(p, f, names, keys)
    ensures Entered(p, c, sp, keys)
  {
    hide BodyKeyed, GivenNames, Program.Target;
  }

  lemma {:induction false} NoneGiven(p: Program, c: nat, f: nat, sp: Span, keys: set<Key>)
    requires p.Valid() && c < |p.calls| && p.Target(p.calls[c].callee) == Some(f) && GivenNames(p, c, f, sp) == []
    ensures Entered(p, c, sp, keys)
  {
    hide BodyKeyed, GivenNames, Program.Target;
  }

  lemma {:induction false} NotEntered(p: Program, c: nat, sp: Span, keys: set<Key>)
    requires p.Valid() && c < |p.calls| && p.Target(p.calls[c].callee).None?
    ensures Entered(p, c, sp, keys)
  {
  }

  lemma {:induction false} MoreEntered(p: Program, c: nat, sp: Span, keys: set<Key>, more: set<Key>)
    requires p.Valid() && c < |p.calls| && keys <= more && Entered(p, c, sp, keys)
    ensures Entered(p, c, sp, more)
  {
    hide GivenNames, Program.Target, Receives;
  }

  lemma {:induction false} MoreUsers(p: Program, name: string, def: nat, keys: set<Key>, more: set<Key>)
    requires p.Valid() && def < |p.stmts| && keys <= more && UsersKeyed(p, name, def, keys)
    ensures UsersKeyed(p, name, def, more)
  {
  }

  lemma {:induction false} MoreSites(p: Program, f: nat, keys: set<Key>, more: set<Key>)
    requires p.Valid() && f < |p.funcs| && keys <= more && SitesKeyed(p, f, keys)
    ensures SitesKeyed(p, f, more)
  {
  }

  // ----- Visits

  lemma {:induction false} StmtFacts(p: Program, st: nat)
    requires p.Valid() && st < |p.stmts|
    ensures p.stmts[st].unit < |p.units| && (p.stmts[st].scope.Some? ==> p.stmts[st].scope.value < |p.funcs|)
  {
  }

  lemma {:induction false} FuncFacts(p: Program, f: nat)
    requires p.Valid() && f < |p.funcs|
    ensures p.funcs[f].owner < |p.units|
  {
  }

  lemma {:induction false} SiteFacts(p: Program, f: nat, i: nat)
    requires p.Valid() && f < |p.funcs| && i < |CallSitesOf(p, f)|
    ensures CallSitesOf(p, f)[i] < |p.calls| && p.calls[CallSitesOf(p, f)[i]].stmt < |p.stmts|
  {
  }

  lemma {:induction false} SiteVisit(p: Program, f: nat, i: nat)
    requires p.Valid() && f < |p.funcs| && i < |CallSitesOf(p, f)| && NoneBefore(p, CallSitesOf(p, f), i)
    ensures var c := CallSitesOf(p, f)[i];
            c < |p.calls| && p.calls[c].stmt < |p.stmts|
              && Visit(p, Key(p.calls[c].stmt, p.funcs[f].name), [p.calls[c].span])
  {
    hide ParamOf, UseOf, CallSitesOf;
    var c := CallSitesOf(p, f)[i];
    assert FirstSite(p, f, c);
  }

  /** A site whose key is new is the first of its statement. */
  lemma {:induction false} NewSite(p: Program, f: nat, i: nat, seen: set<Key>)
    requires p.Valid() && f < |p.funcs| && i < |CallSitesOf(p, f)|
    requires forall k :: 0 <= k < i ==> Key(p.calls[CallSitesOf(p, f)[k]].stmt, p.funcs[f].name) in seen
    requires Key(p.calls[CallSitesOf(p, f)[i]].stmt, p.funcs[f].name) !in seen
    ensures NoneBefore(p, CallSitesOf(p, f), i)
  {
    hide CallSitesOf;
  }

  /** The first listed call of its statement, whose key is not visited yet. */
  ghost predicate NewFirst(p: Program, f: nat, i: nat, before: set<Key>)
    requires p.Valid() && f < |p.funcs| && i < |CallSitesOf(p, f)|
  {
    var sites := CallSitesOf(p, f);
    NoneBefore(p, sites, i) && Key(p.calls[sites[i]].stmt, p.funcs[f].name) !in before
  }

  /** The first listed call of every statement newly visited was followed. */
  ghost predicate SitesEntered(p: Program, f: nat, before: set<Key>, after: set<Key>)
    requires p.Valid() && f < |p.funcs|
  {
    var sites := CallSitesOf(p, f);
    forall i :: 0 <= i < |sites| && NewFirst(p, f, i, before) ==>
      AllEntered(p, p.calls[sites[i]].stmt, [p.calls[sites[i]].span], after)
  }

  lemma {:induction false} NewSitesEntered(p: Program, f: nat, before: set<Key>, after: set<Key>)
    requires p.Valid() && f < |p.funcs| && SitesKeyed(p, f, after) && NewExplored(p, before, after)
    requires Apart(p) && Plain(p, p.funcs[f].name)
    ensures SitesEntered(p, f, before, after)
  {
    hide Explored, AllEntered, Visit, Apart, Plain, CallSitesOf, NoneBefore;
    var sites := CallSitesOf(p, f);
    forall i | 0 <= i < |sites| && NewFirst(p, f, i, before)
      ensures AllEntered(p, p.calls[sites[i]].stmt, [p.calls[sites[i]].span], after)
    {
      SiteVisit(p, f, i);
      EveryVisit(p, Key(p.calls[sites[i]].stmt, p.funcs[f].name), [p.calls[sites[i]].span], after);
    }
  }

  lemma {:induction false} StepExplored(p: Program, r: Region, a: Fields, b: Fields, nodes: seq<Node>, owed: int)
    requires p.Valid() && Step(p, r, a, b, nodes, owed) && !b.truncated
    ensures NewExplored(p, a.seen, b.seen)
  {
  }

  // ----- The shape of what is walked

  lemma {:induction false} StartsSite(p: Program, f: nat, i: nat)
    requires p.Valid() && f < |p.funcs| && i < |CallSitesOf(p, f)|
    ensures p.calls[CallSitesOf(p, f)[i]].stmt in SiteStarts(p, f)
  {
    hide CallSitesOf;
    assert IsSite(p, f, p.calls[CallSitesOf(p, f)[i]].stmt);
  }

  lemma {:induction false} StartsUser(p: Program, name: string, def: nat, i: nat)
    requires p.Valid() && def < |p.stmts| && i < |UsersOf(p, name, def)|
    ensures UsersOf(p, name, def)[i] in UserStarts(p, name, def)
  {
    hide UsersOf;
  }

  lemma {:induction false} StartsBody(p: Program, f: nat, names: seq<string>, st: nat)
    requires p.Valid() && f < |p.funcs| && st < |p.stmts| && p.stmts[st].unit == p.funcs[f].owner
      && Receives(p, f, names, st)
    ensures st in BodyStarts(p, f, names)
  {
    hide Receives;
  }

  lemma {:induction false} NothingMade(p: Program, calls: seq<nat>, sp: Span, cs: seq<nat>)
    requires p.Valid() && forall k :: 0 <= k < |cs| ==> cs[k] < |p.calls|
    ensures ChainMade(p, calls, [], sp, cs)
  {
  }

  lemma {:induction false} NextMade(p: Program, was: seq<nat>, calls: seq<nat>, made: seq<Node>, sp: Span, cs: seq<nat>,
      n: Node)
    requires p.Valid() && was <= calls && ChainMade(p, was, made, sp, cs) && |made| < |cs|
    requires CallMade(p, calls, n, cs[|made|], sp)
    ensures ChainMade(p, calls, made + [n], sp, cs)
  {
    hide CallMade;
    ChainMadeMore(p, was, calls, made, sp, cs);
  }

  lemma {:induction false} IntoMade(p: Program, was: seq<nat>, calls: seq<nat>, n: Node, feeds: seq<Node>, c: nat,
      sp: Span)
    requires p.Valid() && c < |p.calls| && was <= calls && n.call == |was| > 0 && was[|was| - 1] == c
    requires p.Target(p.calls[c].callee).Some? && Shaped(p, calls, feeds)
    requires var f := p.Target(p.calls[c].callee).value;
             && |feeds| == |AtMostOne(GivenNames(p, c, f, sp))|
             && EndsWith(feeds, AtMostOne(GivenNames(p, c, f, sp)), Place(p.funcs[f].owner, p.funcs[f].span))
    ensures CallMade(p, calls, n.(feeds := feeds), c, sp)
  {
    hide GivenNames, EndsWith, Shaped, Program.Target;
  }

  lemma {:induction false} NoneMade(p: Program, calls: seq<nat>, n: Node, c: nat, sp: Span)
    requires p.Valid() && c < |p.calls| && n.call == |calls| > 0 && calls[|calls| - 1] == c && n.feeds == []
    requires p.Target(p.calls[c].callee).None?
    ensures CallMade(p, calls, n, c, sp)
  {
    hide GivenNames, Program.Target;
  }

  lemma {:induction false} SomeUse(refs: seq<Ref>, names: seq<string>, i: nat)
    requires i < |refs| && refs[i].name in names
    ensures Occurrences(refs, names) != []
  {
    assert refs[i].span in Occurrences(refs, names);
  }

  lemma {:induction false} UserVisit(p: Program, name: string, def: nat, st: nat)
    requires p.Valid() && def < |p.stmts| && Uses(p, name, def, st) && Bindable(p, name)
    ensures Visit(p, Key(st, name), Occurrences(p.stmts[st].value.refs, [name]))
      && Occurrences(p.stmts[st].value.refs, [name]) != []
  {
    hide Wide, Reaches, CallOf, ParamOf, Bindable;
    var refs := p.stmts[st].value.refs;
    var i :| 0 <= i < |refs| && refs[i].name == name;
    SomeUse(refs, [name], i);
  }

  lemma {:induction false} BodyVisit(p: Program, c: nat, f: nat, sp: Span, st: nat)
    requires p.Valid() && c < |p.calls| && f < |p.funcs| && p.Target(p.calls[c].callee) == Some(f)
    requires GivenNames(p, c, f, sp) != [] && st < |p.stmts| && p.stmts[st].unit == p.funcs[f].owner
    requires Receives(p, f, GivenNames(p, c, f, sp), st)
    ensures Visit(p, Key(st, GivenNames(p, c, f, sp)[0]),
      Occurrences(p.stmts[st].value.refs, Spread(p, f, GivenNames(p, c, f, sp))))
  {
    hide CallOf, UseOf, Spread, GivenNames, Program.Target;
    assert PassedTo(p, c, f, sp, Key(st, GivenNames(p, c, f, sp)[0]));
  }

  lemma {:induction false} BindIsBindable(p: Program, st: nat, k: nat)
    requires st < |p.stmts| && k < |p.stmts[st].binds|
    ensures Bindable(p, p.stmts[st].binds[k])
  {
  }

  // ----- The spans of a statement

  lemma {:induction false} ConsumedMembers(p: Program, st: nat, sp: Span, out: seq<nat>)
    requires p.Valid() && st < |p.stmts| && Consumed(p, st, sp, out)
    ensures forall i :: 0 <= i < |out| ==>
      out[i] < |p.calls| && p.calls[out[i]].stmt == st && Takes(p.calls[out[i]], sp) && out[i] in p.stmts[st].calls
    ensures forall k :: 0 <= k < |p.stmts[st].calls| && Takes(p.calls[p.stmts[st].calls[k]], sp) ==>
      p.stmts[st].calls[k] in out
    ensures out != [] ==> Innermost(p, st, out[0], sp)
    ensures |out| <= |p.stmts[st].calls|
  {
    hide Takes, Size;
    var calls := p.stmts[st].calls;
    StmtCalls(p, st);
    FilterShorter(calls, Taking(p, sp));
    assert |multiset(out)| == |out|;
    var kept := Filter(calls, Taking(p, sp));
    forall i | 0 <= i < |out|
      ensures out[i] < |p.calls| && p.calls[out[i]].stmt == st && Takes(p.calls[out[i]], sp) && out[i] in calls
    {
      assert out[i] in multiset(out);
      assert out[i] in multiset(kept);
    }
    forall k | 0 <= k < |calls| && Takes(p.calls[calls[k]], sp) ensures calls[k] in out {
      assert calls[k] in kept;
      assert calls[k] in multiset(kept);
      assert calls[k] in multiset(out);
    }
  }

  lemma {:induction false} FilterShorter<T>(xs: seq<T>, keep: T -> bool)
    ensures |Filter(xs, keep)| <= |xs| && |multiset(Filter(xs, keep))| == |Filter(xs, keep)|
  {
    if xs != [] {
      FilterShorter(xs[..|xs| - 1], keep);
    }
  }

  /** Some earlier span has this innermost call. */
  ghost predicate TakenBefore(p: Program, st: nat, spans: seq<Span>, n: nat, d: nat)
    requires p.Valid() && st < |p.stmts| && n <= |spans|
  {
    exists j :: 0 <= j < n && Innermost(p, st, d, spans[j])
  }

  /** The calls done so far: innermost for an earlier span, and with them every only one. */
  ghost predicate DoneBefore(p: Program, st: nat, spans: seq<Span>, n: nat, done: set<nat>)
    requires p.Valid() && st < |p.stmts| && n <= |spans|
  {
    && (forall d :: d in done ==> TakenBefore(p, st, spans, n, d))
    && forall j, c :: 0 <= j < n && OnlyInnermost(p, st, c, spans[j]) ==> c in done
  }

  ghost predicate EnteredBefore(p: Program, st: nat, spans: seq<Span>, n: nat, keys: set<Key>)
    requires p.Valid() && st < |p.stmts| && n <= |spans|
  {
    forall i :: 0 <= i < n && Alone(p, st, spans, i) ==> CallsEntered(p, st, spans[i], keys)
  }

  lemma {:induction false} NoneEntered(p: Program, st: nat, spans: seq<Span>, keys: set<Key>)
    requires p.Valid() && st < |p.stmts|
    ensures EnteredBefore(p, st, spans, 0, keys)
  {
  }

  lemma {:induction false} EnteredWhole(p: Program, st: nat, spans: seq<Span>, keys: set<Key>)
    requires p.Valid() && st < |p.stmts|
    ensures EnteredBefore(p, st, spans, |spans|, keys) ==> AllEntered(p, st, spans, keys)
  {
    hide Alone, CallsEntered;
  }

  lemma {:induction false} NoneDone(p: Program, st: nat, spans: seq<Span>)
    requires p.Valid() && st < |p.stmts|
    ensures DoneBefore(p, st, spans, 0, {})
  {
  }

  lemma {:induction false} MoreDone(p: Program, st: nat, spans: seq<Span>, n: nat, done: set<nat>, c: nat)
    requires p.Valid() && st < |p.stmts| && n < |spans| && DoneBefore(p, st, spans, n, done)
      && Innermost(p, st, c, spans[n])
    ensures DoneBefore(p, st, spans, n + 1, done + {c})
  {
    hide Innermost;
    forall d | d in done + {c} ensures TakenBefore(p, st, spans, n + 1, d) {
      if d in done {
        assert TakenBefore(p, st, spans, n, d);
      }
    }
  }

  lemma {:induction false} SameDone(p: Program, st: nat, spans: seq<Span>, n: nat, done: set<nat>)
    requires p.Valid() && st < |p.stmts| && n < |spans| && DoneBefore(p, st, spans, n, done)
    requires forall k :: 0 <= k < |p.stmts[st].calls| && Takes(p.calls[p.stmts[st].calls[k]], spans[n]) ==>
      p.stmts[st].calls[k] in []
    ensures DoneBefore(p, st, spans, n + 1, done)
  {
    hide Takes, Size;
    assert forall c :: !Innermost(p, st, c, spans[n]);
    NextDone(p, st, spans, n, done);
  }

  lemma {:induction false} NextDone(p: Program, st: nat, spans: seq<Span>, n: nat, done: set<nat>)
    requires p.Valid() && st < |p.stmts| && n < |spans| && DoneBefore(p, st, spans, n, done)
    requires forall c :: !Innermost(p, st, c, spans[n])
    ensures DoneBefore(p, st, spans, n + 1, done)
  {
    hide Innermost;
    forall d | d in done ensures TakenBefore(p, st, spans, n + 1, d) {
      assert TakenBefore(p, st, spans, n, d);
    }
  }

  /** A call not done is the innermost one of a span that is not skipped. */
  lemma {:induction false} NotSkipped(p: Program, st: nat, spans: seq<Span>, n: nat, done: set<nat>, c: nat)
    requires p.Valid() && st < |p.stmts| && n < |spans| && DoneBefore(p, st, spans, n, done)
    requires Innermost(p, st, c, spans[n]) && c !in done
    ensures !Skipped(p, st, spans, n)
  {
    hide Innermost, TakenBefore;
  }

  lemma {:induction false} NothingTaken(p: Program, st: nat, spans: seq<Span>, n: nat, keys: set<Key>)
    requires p.Valid() && st < |p.stmts| && n < |spans|
    requires forall k :: 0 <= k < |p.stmts[st].calls| && Takes(p.calls[p.stmts[st].calls[k]], spans[n]) ==>
      p.stmts[st].calls[k] in []
    ensures EnteredBefore(p, st, spans, n, keys) ==> EnteredBefore(p, st, spans, n + 1, keys)
  {
    hide Takes, Alone, Entered;
  }

  lemma {:induction false} EnteredNext(p: Program, st: nat, spans: seq<Span>, n: nat, chain: seq<nat>, was: set<Key>,
      keys: set<Key>, truncated: bool)
    requires p.Valid() && st < |p.stmts| && n < |spans| && was <= keys
    requires forall k :: 0 <= k < |p.stmts[st].calls| && Takes(p.calls[p.stmts[st].calls[k]], spans[n]) ==>
      p.stmts[st].calls[k] in chain
    requires forall i :: 0 <= i < |chain| ==> chain[i] < |p.calls|
    requires !truncated ==> EnteredBefore(p, st, spans, n, was) && forall i :: 0 <= i < |chain| ==>
      Entered(p, chain[i], spans[n], keys)
    ensures !truncated ==> EnteredBefore(p, st, spans, n + 1, keys)
  {
    hide Takes, Alone, Entered;
    if !truncated {
      forall i | 0 <= i < n + 1 && Alone(p, st, spans, i) ensures CallsEntered(p, st, spans[i], keys) {
        if i < n {
          MoreKeys(p, st, spans[i], was, keys);
        }
      }
    }
  }

  lemma {:induction false} NotAlone(p: Program, st: nat, spans: seq<Span>, n: nat, keys: set<Key>)
    requires p.Valid() && st < |p.stmts| && n < |spans| && !Alone(p, st, spans, n)
    ensures EnteredBefore(p, st, spans, n, keys) ==> EnteredBefore(p, st, spans, n + 1, keys)
  {
    hide CallsEntered, Alone;
  }

  lemma {:induction false} TakenTwice(p: Program, st: nat, spans: seq<Span>, n: nat, done: set<nat>, d: nat)
    requires p.Valid() && st < |p.stmts| && n < |spans| && DoneBefore(p, st, spans, n, done) && d in done
      && Innermost(p, st, d, spans[n])
    ensures !Alone(p, st, spans, n)
  {
    hide Innermost, OnlyInnermost;
    assert TakenBefore(p, st, spans, n, d);
  }

  /** What takes a span that is not skipped may be entered within the region. */
  lemma {:induction false} ChainAllowed(p: Program, st: nat, spans: seq<Span>, n: nat, chain: seq<nat>, keys: set<Key>)
    requires p.Valid() && st < |p.stmts| && n < |spans| && !Skipped(p, st, spans, n)
      && NotSkippedEntered(p, st, spans, keys)
    requires forall i :: 0 <= i < |chain| ==>
      chain[i] < |p.calls| && Takes(p.calls[chain[i]], spans[n]) && chain[i] in p.stmts[st].calls
    ensures forall i :: 0 <= i < |chain| ==> Entered(p, chain[i], spans[n], keys)
  {
    hide Skipped, Takes, Entered;
    assert CallsEntered(p, st, spans[n], keys);
  }

  function ToList(n: Option<Node>): seq<Node> { if n.Some? then [n.value] else [] }

  class Tracer {
    const p: Program
    var budget: nat
    var truncated: bool
    var seen: set<Key>
    /** The calls of the trace; the one at index i is number i + 1. */
    var calls: seq<nat>
    ghost var looked: nat
    ghost var refused: nat

    constructor (p: Program)
      ensures this.p == p && budget == MAX_NODES && !truncated && seen == {} && calls == [] && looked == 0
        && refused == 0
    {
      this.p := p;
      budget, truncated, seen, calls, looked, refused := MAX_NODES, false, {}, [], 0, 0;
    }

    ghost function Now(): Fields
      reads this
    {
      Fields(budget, truncated, looked, refused, seen, calls)
    }

    method Spend() returns (ok: bool)
      modifies this`budget, this`truncated, this`refused
      ensures ok == (old(budget) > 0)
      ensures ok ==> budget == old(budget) - 1 && truncated == old(truncated) && refused == old(refused)
      ensures !ok ==> budget == old(budget) && truncated && refused == old(refused) + 1
    {
      if budget <= 0 {
        truncated := true;
        refused := refused + 1;
        return false;
      }
      budget := budget - 1;
      return true;
    }

    method Deep(depth: nat) returns (deep: bool)
      modifies this`truncated, this`refused
      ensures deep == (depth > MAX_DEPTH)
      ensures truncated == (old(truncated) || deep) && refused == old(refused) + (if deep then 1 else 0)
    {
      if depth > MAX_DEPTH {
        truncated := true;
        refused := refused + 1;
        return true;
      }
      return false;
    }

    // ----- Backward

    method Origin(param: string, name: string, at: nat, depth: nat) returns (s: Option<Source>)
      requires p.Valid() && at < |p.stmts| && depth <= MAX_DEPTH + 1
      modifies this`budget, this`truncated, this`looked, this`refused
      ensures Paid(old(Now()), Now())
      ensures s.Some? <==> Looked(p, name, at)
      ensures !truncated ==> s == OriginOf(p, MAX_DEPTH + 1 - depth, param, name, at)
      ensures Charged(old(Now()), Now(),
        LookupsIn(Listed(OriginOf(p, MAX_DEPTH + 1 - depth, param, name, at)), MAX_DEPTH + 1 - depth))
      decreases MAX_DEPTH + 1 - depth, 0, 0
    {
      hide ParamFrom, CallSitesOf, DefinitionOf, SourcesOf, PassedAll, LookupsIn, LookupsPassed, Program.Valid,
        Program.Named;
      HomeUnit(p, at);
      ghost var left := MAX_DEPTH + 1 - depth;
      ghost var whole := OriginOf(p, left, param, name, at);
      if whole.Some? {
        LookupsOne(whole.value, left);
      } else {
        LookupsOne(Source("", "", None, []), left);
      }
      if name in p.units[p.stmts[at].unit].imports || p.Named(name).Some? {
        return None;
      }
      if depth > MAX_DEPTH {
        return Some(Source(param, name, None, []));
      }
      var paid := Spend();
      if !paid {
        return Some(Source(param, name, None, []));
      }
      looked := looked + 1;
      var def := Definition(p, name, at);
      if def.Some? {
        var fed := Sources("", p.stmts[def.value].value.refs, def.value, depth + 1);
        return Some(Source(param, name, Some(At(p, def.value)), fed));
      }
      var owner := Param(p, name, at);
      if owner.None? {
        LookupsNone(left - 1);
        return Some(Source(param, name, None, []));
      }
      var f, index := owner.value.0, owner.value.1;
      var sites := CallSites(p, f);
      var fed := PassedBy(sites, f, index, depth + 1);
      s := Some(Source(param, name, None, fed));
    }

    method PassedBy(sites: seq<nat>, f: nat, index: nat, depth: nat) returns (out: seq<Source>)
      requires p.Valid() && f < |p.funcs| && index < |p.funcs[f].params| && depth <= MAX_DEPTH + 1
      requires forall i :: 0 <= i < |sites| ==> sites[i] < |p.calls|
      modifies this`budget, this`truncated, this`looked, this`refused
      ensures Paid(old(Now()), Now())
      ensures !truncated ==> out == PassedAll(p, MAX_DEPTH + 1 - depth, sites, f, index)
      ensures Charged(old(Now()), Now(),
        LookupsPassed(PassedAll(p, MAX_DEPTH + 1 - depth, sites, f, index), MAX_DEPTH + 1 - depth))
      decreases MAX_DEPTH + 1 - depth, 3, 0
    {
      hide PassedOf, PassedAll, LookupsIn, LookupsPassed, Charged, Program.Valid;
      out := [];
      ghost var left := MAX_DEPTH + 1 - depth;
      PassedStart(p, left, f, index);
      ChargedNothing(old(Now()));
      for i := 0 to |sites|
        invariant Paid(old(Now()), Now())
        invariant !truncated ==> out == PassedAll(p, left, sites[..i], f, index)
        invariant Charged(old(Now()), Now(), LookupsPassed(PassedAll(p, left, sites[..i], f, index), left))
      {
        ghost var was := Now();
        PassedNext(p, left, sites, f, index, i);
        var s := Passed(sites[i], f, index, depth);
        ChargedTwice(old(Now()), was, Now(), LookupsPassed(PassedAll(p, left, sites[..i], f, index), left),
          LookupsIn(PassedOf(p, left, sites[i], f, index).fedBy, left));
        out := out + [s];
      }
      assert sites[..|sites|] == sites;
    }

    method Passed(site: nat, f: nat, index: nat, depth: nat) returns (s: Source)
      requires p.Valid() && site < |p.calls| && f < |p.funcs| && index < |p.funcs[f].params| && depth <= MAX_DEPTH + 1
      modifies this`budget, this`truncated, this`looked, this`refused
      ensures Paid(old(Now()), Now())
      ensures !truncated ==> s == PassedOf(p, MAX_DEPTH + 1 - depth, site, f, index)
      ensures Charged(old(Now()), Now(),
        LookupsIn(PassedOf(p, MAX_DEPTH + 1 - depth, site, f, index).fedBy, MAX_DEPTH + 1 - depth))
      decreases MAX_DEPTH + 1 - depth, 2, 0
    {
      hide ArgumentOf, FirstFit, LookupsIn;
      var call := p.calls[site];
      s := Source("", "", Some(At(p, call.stmt)), []);
      var arg := Argument(call, p.funcs[f], index);
      assert FirstFit(call, p.funcs[f], index, ArgumentOf(call, p.funcs[f], index));
      if arg.None? {
        arg := SpreadFrom(call, 0);
      }
      assert arg == ArgumentAt(p, site, f, index);
      if arg.Some? {
        var fed := Sources("", call.args[arg.value].expr.refs, call.stmt, depth);
        s := s.(fedBy := fed);
      } else {
        LookupsOne(s, MAX_DEPTH + 1 - depth);
      }
    }

    method Sources(param: string, refs: seq<Ref>, at: nat, depth: nat) returns (out: seq<Source>)
      requires p.Valid() && at < |p.stmts| && depth <= MAX_DEPTH + 1
      modifies this`budget, this`truncated, this`looked, this`refused
      ensures Paid(old(Now()), Now())
      ensures !truncated ==> out == SourcesOf(p, MAX_DEPTH + 1 - depth, param, refs, at)
      ensures Charged(old(Now()), Now(),
        LookupsIn(SourcesOf(p, MAX_DEPTH + 1 - depth, param, refs, at), MAX_DEPTH + 1 - depth))
      decreases MAX_DEPTH + 1 - depth, 1, 0
    {
      hide OriginOf, Looked, Lookups, LookupsIn, SourcesOf, Charged, Mentions, Program.Valid;
      out := [];
      var names: seq<string> := [];
      ghost var left := MAX_DEPTH + 1 - depth;
      SourcesStart(p, left, param, at);
      assert refs[..0] == [];
      ChargedNothing(old(Now()));
      for n := 0 to |refs|
        invariant Paid(old(Now()), Now())
        invariant forall name :: name in names <==> Mentions(refs[..n], name)
        invariant !truncated ==> out == SourcesOf(p, left, param, refs[..n], at)
        invariant Charged(old(Now()), Now(), LookupsIn(SourcesOf(p, left, param, refs[..n], at), left))
      {
        ghost var was := Now();
        ghost var before, next := SourcesOf(p, left, param, refs[..n], at),
            Listed(OriginOf(p, left, param, refs[n].name, at));
        SourcesNext(p, left, param, refs, at, n);
        MentionsLast(refs[..n + 1]);
        assert refs[..n + 1][..n] == refs[..n];
        if refs[n].name in names {
          continue;
        }
        names := names + [refs[n].name];
        LookupsAppend(before, next, left);
        var s := Origin(param, refs[n].name, at, depth);
        ChargedTwice(old(Now()), was, Now(), LookupsIn(before, left), LookupsIn(next, left));
        if s.Some? {
          out := out + [s.value];
        }
      }
      assert refs[..|refs|] == refs;
    }

    /** What a call is fed by; the budget falls short exactly when it is less than the lookups. */
    method FedBy(c: nat) returns (out: seq<Source>)
      requires p.Valid() && c < |p.calls|
      modifies this`budget, this`truncated, this`looked, this`refused
      ensures Paid(old(Now()), Now())
      ensures !truncated ==> out == FedByOf(p, MAX_DEPTH, c)
      ensures Charged(old(Now()), Now(), LookupsFor(p, c))
    {
      hide SourcesOf, ParamName, Lookups, LookupsIn, ArgsFrom, Charged, FedByOf, ReceiverOf;
      CallStmt(p, c);
      var call := p.calls[c];
      ghost var left := MAX_DEPTH + 1;
      out := Receiver(c);
      ghost var first := out;
      ghost var whole := ReceiverOf(p, MAX_DEPTH, c);
      ArgsStart(p, c, whole);
      WholeFed(p, c);
      for i := 0 to |call.args|
        invariant Paid(old(Now()), Now())
        invariant !truncated ==> first == whole && out == first + ArgsFrom(p, MAX_DEPTH, c, i)
        invariant Charged(old(Now()), Now(), LookupsIn(whole + ArgsFrom(p, MAX_DEPTH, c, i), left))
      {
        ghost var was := Now();
        ghost var before := ArgsFrom(p, MAX_DEPTH, c, i);
        ghost var next := SourcesOf(p, left, ParamName(call.args[i], i), call.args[i].expr.refs, call.stmt);
        ArgsNext(p, c, i, whole);
        var more := Sources(ParamName(call.args[i], i), call.args[i].expr.refs, call.stmt, 0);
        ChargedTwice(old(Now()), was, Now(), LookupsIn(whole + before, left), LookupsIn(next, left));
        out := out + more;
      }
    }

    /** Its receiver, if it has one. */
    method Receiver(c: nat) returns (out: seq<Source>)
      requires p.Valid() && c < |p.calls|
      modifies this`budget, this`truncated, this`looked, this`refused
      ensures Paid(old(Now()), Now())
      ensures !truncated ==> out == ReceiverOf(p, MAX_DEPTH, c)
      ensures Charged(old(Now()), Now(), LookupsIn(ReceiverOf(p, MAX_DEPTH, c), MAX_DEPTH + 1))
    {
      hide OriginOf, Looked, Lookups, LookupsIn, ReceiverOf, Charged;
      CallStmt(p, c);
      ReceiverIs(p, c);
      ChargedNothing(old(Now()));
      LookupsOne(Source("", "", None, []), MAX_DEPTH + 1);
      var call := p.calls[c];
      out := [];
      if call.receiver != "" {
        var s := Origin("receiver", call.receiver, call.stmt, 0);
        if s.Some? {
          out := [s.value];
        }
      }
    }

    // ----- Forward

    /** What every forward step needs: `r` is some region the values do not leave. */
    ghost predicate Ready(r: Region)
      reads this
    {
      p.Valid() && Encloses(p, r) && seen <= r.keys
    }

    method CallNode(c: nat) returns (n: Node)
      requires p.Valid() && c < |p.calls|
      modifies this`budget, this`truncated, this`looked, this`refused, this`calls
      ensures calls == old(calls) + [c] && Paid(old(Now()), Now().(calls := old(calls)))
      ensures Charged(old(Now()), Now(), LookupsFor(p, c))
      ensures IsCallNode(p, calls, !truncated, n) && n.feeds == [] && n.call == |calls|
    {
      n := Node("", |calls| + 1, Place(p.stmts[p.calls[c].stmt].unit, p.calls[c].span), [], []);
      calls := calls + [c];
      var fed := FedBy(c);
      n := n.(fedBy := fed);
    }

    /** The value at the spans of a statement goes into the calls that take it, or into what is bound. */
    method FlowFrom(st: nat, spans: seq<Span>, depth: nat, ghost r: Region) returns (out: seq<Node>)
      requires Ready(r) && Flowing(st, spans) in r.flows && st < |p.stmts|
      modifies this`budget, this`truncated, this`looked, this`refused, this`calls, this`seen
      ensures Step(p, r, old(Now()), Now(), out, 0)
      ensures Affordable(p, r, old(Now()), Now(), depth + 1, FlowCost(p, r, st, |spans|))
      ensures !truncated ==> Shown(p, calls, iset{st}, out)
      ensures !truncated && spans != [] ==> ClosedAt(p, st, seen) && AllEntered(p, st, spans, seen)
      decreases |r.keys - seen|, 4
    {
      hide Step, ClosedAt, Entered, CallsEntered, Encloses, Consumed, Program.Valid, TakenBefore, DoneBefore,
        AllEntered, EnteredBefore,
        Alone, Skipped, Innermost, Takes, NotSkippedEntered, Affordable, ChainCost, EndsWith, Size, Shown;
      ghost var start := Now();
      RegionFlow(p, r, st, spans);
      out := [];
      var free := false;
      var done: set<nat> := {};
      NoneEntered(p, st, spans, seen);
      NoneDone(p, st, spans);
      NoStep(p, r, start);
      NothingShown(p, calls, iset{st});
      AffordNothing(p, r, start, depth + 1);
      ghost var each := ChainCost(p, r, st, |p.stmts[st].calls|);
      for i := 0 to |spans|
        invariant Ready(r) && Step(p, r, start, Now(), out, 0) && start.seen <= seen
        invariant Affordable(p, r, start, Now(), depth + 1, i * each)
        invariant !truncated ==> Shown(p, calls, iset{st}, out)
        invariant !truncated && done != {} ==> ClosedAt(p, st, seen)
        invariant i > 0 ==> free || done != {}
        invariant DoneBefore(p, st, spans, i, done)
        invariant !truncated ==> EnteredBefore(p, st, spans, i, seen)
      {
        ghost var was := Now();
        var sp := spans[i];
        var chain := Consumers(p, st, sp);
        ConsumedMembers(p, st, sp, chain);
        if |chain| == 0 {
          free := true;
          NoChain(p, r, start, was, st, i, depth);
          NothingTaken(p, st, spans, i, seen);
          SameDone(p, st, spans, i, done);
          continue;
        }
        MoreDone(p, st, spans, i, done, chain[0]);
        if chain[0] !in done {
          FewerLeft(r.keys, start.seen, seen);
          NotSkipped(p, st, spans, i, done, chain[0]);
          ChainAllowed(p, st, spans, i, chain, r.keys);
          var more := Chain(chain, st, sp, depth, r);
          done := done + {chain[0]};
          NextChain(p, r, start, was, Now(), out, more, st, i, |chain|, depth);
          if !truncated {
            ShownAfter(p, was.calls, calls, iset{st}, iset{st}, out, more);
          }
          out := out + more;
          EnteredNext(p, st, spans, i, chain, was.seen, seen, truncated);
        } else {
          assert done + {chain[0]} == done;
          NoChain(p, r, start, was, st, i, depth);
          TakenTwice(p, st, spans, i, done, chain[0]);
          NotAlone(p, st, spans, i, seen);
        }
      }
      EnteredWhole(p, st, spans, seen);
      ghost var was := Now();
      if free {
        FewerLeft(r.keys, start.seen, seen);
        var more := Bound(st, depth, r);
        Steps(p, r, start, was, Now(), out, more, 0, 0);
        StepFacts(p, r, was, Now(), more, 0);
        if !truncated {
          ShownAfter(p, was.calls, calls, iset{st}, iset{st}, out, more);
        }
        out := out + more;
        AffordTwice(p, r, start, was, Now(), depth + 1, |spans| * each, |p.stmts[st].binds|);
        if !truncated {
          StillEntered(p, st, spans, was.seen, seen);
        }
      } else {
        AffordMore(p, r, start, was, depth + 1, |spans| * each, depth + 1, FlowCost(p, r, st, |spans|));
      }
    }

    /** Calls nested in one another: each feeds the next, the outermost what the statement binds. */
    method Chain(cs: seq<nat>, st: nat, sp: Span, depth: nat, ghost r: Region) returns (out: seq<Node>)
      requires Ready(r) && st < |p.stmts| && ClosedAt(p, st, r.keys) && cs != []
      requires forall i :: 0 <= i < |cs| ==> cs[i] < |p.calls| && Entered(p, cs[i], sp, r.keys)
      requires Consumed(p, st, sp, cs) && InStmt(p, st, cs)
      modifies this`budget, this`truncated, this`looked, this`refused, this`calls, this`seen
      ensures Step(p, r, old(Now()), Now(), out, 0) && |out| <= 1
      ensures Affordable(p, r, old(Now()), Now(), depth + 1, ChainCost(p, r, st, |cs|))
      ensures !truncated ==> |out| == 1 && Linked(p, calls, out[0], sp, cs, 0) && Shown(p, calls, iset{st}, out)
      ensures !truncated ==> ClosedAt(p, st, seen) && forall i :: 0 <= i < |cs| ==> Entered(p, cs[i], sp, seen)
      decreases |r.keys - seen|, 3
    {
      hide Step, ClosedAt, Entered, Encloses, IsCallNode, Program.Target, Link, Program.Valid, Affordable,
        Consumed, InStmt, Linked, Shown, ChainMade, NodeShaped, EndsWith;
      ghost var start := Now();
      var made: seq<Node> := [];
      NoStep(p, r, start);
      AffordNothing(p, r, start, depth + 1);
      NothingMade(p, calls, sp, cs);
      var i := 0;
      while i < |cs|
        invariant 0 <= i <= |cs| && Ready(r) && start.seen <= seen
        invariant Step(p, r, start, Now(), made, 0)
        invariant Affordable(p, r, start, Now(), depth + 1, i * r.call)
        invariant !truncated ==> ChainMade(p, calls, made, sp, cs)
        invariant !truncated ==> |made| == i && forall k :: 0 <= k < i ==> Entered(p, cs[k], sp, seen)
      {
        ghost var was := Now();
        FewerLeft(r.keys, start.seen, seen);
        var n := CallAndInto(cs[i], sp, depth, r);
        NextCall(p, r, start, was, Now(), made, n, i, depth);
        if n.None? {
          TimesMore(i + 1, |cs|, r.call);
          AffordMore(p, r, start, Now(), depth + 1, (i + 1) * r.call, depth + 1, |cs| * r.call);
          break;
        }
        if !truncated {
          NextMade(p, was.calls, calls, made, sp, cs, n.value);
        }
        made := made + [n.value];
        if !truncated {
          forall k | 0 <= k < i ensures Entered(p, cs[k], sp, seen) {
            MoreEntered(p, cs[k], sp, was.seen, seen);
          }
        }
        i := i + 1;
      }
      ghost var last := Now();
      assert Affordable(p, r, start, last, depth + 1, |cs| * r.call);
      if made == [] {
        AffordMore(p, r, start, last, depth + 1, |cs| * r.call, depth + 1, ChainCost(p, r, st, |cs|));
        return [];
      }
      FewerLeft(r.keys, start.seen, seen);
      var rest := Bound(st, depth, r);
      StepFacts(p, r, last, Now(), rest, 0);
      AffordTwice(p, r, start, last, Now(), depth + 1, |cs| * r.call, |p.stmts[st].binds|);
      LinkStep(p, r, start, last, Now(), made, rest);
      if !truncated {
        forall k | 0 <= k < |cs| ensures Entered(p, cs[k], sp, seen) {
          MoreEntered(p, cs[k], sp, last.seen, seen);
        }
      }
      if !truncated {
        ChainMadeMore(p, last.calls, calls, made, sp, cs);
        assert made[0..] == made;
        LinkShape(p, calls, made, rest, sp, cs, st, 0);
        ChainShown(p, calls, Link(made, rest), sp, cs, st);
      }
      out := [Link(made, rest)];
    }

    /** One call of a chain and what happens inside the function it names; nothing once the budget is spent. */
    method CallAndInto(c: nat, sp: Span, depth: nat, ghost r: Region) returns (n: Option<Node>)
      requires Ready(r) && c < |p.calls| && Entered(p, c, sp, r.keys)
      modifies this`budget, this`truncated, this`looked, this`refused, this`calls, this`seen
      ensures Step(p, r, old(Now()), Now(), ToList(n), 0)
      ensures Affordable(p, r, old(Now()), Now(), depth + 1, r.call)
      ensures n.None? ==> truncated
      ensures !truncated ==> n.Some? && CallMade(p, calls, n.value, c, sp)
      ensures !truncated ==> Entered(p, c, sp, seen)
      decreases |r.keys - seen|, 2
    {
      hide Step, ClosedAt, Entered, Encloses, IsCallNode, Program.Target, Program.Valid, Affordable, Charged,
        LookupsFor, Light, CallMade, EndsWith, Shaped, GivenNames;
      ghost var start := Now();
      CallLight(p, r, c);
      var ok := Spend();
      if !ok {
        NoStep(p, r, start);
        RefusedStep(p, r, start, start, Now(), [], 0);
        AffordRefused(p, r, start, Now(), depth + 1, LookupsFor(p, c) + 2);
        AffordMore(p, r, start, Now(), depth + 1, LookupsFor(p, c) + 2, depth + 1, r.call);
        return None;
      }
      ghost var paid := Now();
      var node := CallNode(c);
      CallStep(p, r, start, paid, Now(), node, c);
      AffordNode(p, r, start, paid, depth + 1);
      ghost var called := Now();
      AffordLookups(p, r, paid, called, depth + 1, LookupsFor(p, c));
      AffordTwice(p, r, start, paid, called, depth + 1, 1, LookupsFor(p, c));
      var f := p.Target(p.calls[c].callee);
      if f.Some? {
        var feeds := Into(f.value, c, sp, depth, r);
        FeedStep(p, r, start, called, Now(), node, feeds, 0);
        AffordTwice(p, r, start, called, Now(), depth + 1, 1 + LookupsFor(p, c), 1);
        AffordMore(p, r, start, Now(), depth + 1, 1 + LookupsFor(p, c) + 1, depth + 1, r.call);
        if !truncated {
          StepFacts(p, r, called, Now(), feeds, 0);
          IntoMade(p, called.calls, calls, node, feeds, c, sp);
        }
        return Some(node.(feeds := feeds));
      }
      AffordMore(p, r, start, called, depth + 1, 1 + LookupsFor(p, c), depth + 1, r.call);
      NotEntered(p, c, sp, seen);
      NoneMade(p, calls, node, c, sp);
      return Some(node);
    }

    /** Where the value of a statement goes: to its callers, and to the users of what it binds. */
    method Bound(st: nat, depth: nat, ghost r: Region) returns (out: seq<Node>)
      requires Ready(r) && st < |p.stmts| && ClosedAt(p, st, r.keys)
      modifies this`budget, this`truncated, this`looked, this`refused, this`calls, this`seen
      ensures Step(p, r, old(Now()), Now(), out, 0)
      ensures Affordable(p, r, old(Now()), Now(), depth + 1, |p.stmts[st].binds|)
      ensures !truncated ==> Shown(p, calls, iset{st}, out)
      ensures !truncated ==> ClosedAt(p, st, seen) && EndsWith(out, p.stmts[st].binds, At(p, st))
      decreases |r.keys - seen|, 2
    {
      hide Step, UsersKeyed, SitesKeyed, Encloses, EndsWith, Program.Valid, Affordable, Shown, UserStarts, SiteStarts;
      ghost var start := Now();
      StmtFacts(p, st);
      var binds := p.stmts[st].binds;
      out := [];
      NoStep(p, r, start);
      NothingShown(p, calls, iset{st});
      AffordNothing(p, r, start, depth + 1);
      if p.stmts[st].isReturn && p.stmts[st].scope.Some? {
        out := Returned(p.stmts[st].scope.value, depth, r);
        StepFacts(p, r, start, Now(), out, 0);
        if !truncated {
          ShownReturned(p, calls, st, out);
        }
      }
      ghost var home := seen;
      NoEnd(out, At(p, st));
      for i := 0 to |binds|
        invariant Ready(r) && Step(p, r, start, Now(), out, 0) && start.seen <= home <= seen
        invariant Affordable(p, r, start, Now(), depth + 1, i)
        invariant !truncated && p.stmts[st].isReturn && p.stmts[st].scope.Some? ==>
          SitesKeyed(p, p.stmts[st].scope.value, home)
        invariant !truncated ==> forall k :: 0 <= k < i ==> UsersKeyed(p, binds[k], st, seen)
        invariant !truncated ==> EndsWith(out, binds[..i], At(p, st)) && Shown(p, calls, iset{st}, out)
      {
        ghost var was := Now();
        var ok := Spend();
        if !ok {
          RefusedStep(p, r, start, was, Now(), out, 0);
          AffordRefused(p, r, was, Now(), depth + 1, 1);
          AffordTwice(p, r, start, was, Now(), depth + 1, i, 1);
          continue;
        }
        ghost var paid := Now();
        var n := Node(binds[i], 0, At(p, st), [], []);
        AffordNode(p, r, was, paid, depth + 1);
        AffordTwice(p, r, start, was, paid, depth + 1, i, 1);
        FewerLeft(r.keys, start.seen, seen);
        BindIsBindable(p, st, i);
        var feeds := Follow(binds[i], st, depth + 1, r);
        NextBound(p, r, start, was, paid, Now(), out, n, feeds, st, i);
        AffordTwice(p, r, start, paid, Now(), depth + 1, i + 1, 0);
        out := out + [n.(feeds := feeds)];
        if !truncated {
          forall k | 0 <= k < i ensures UsersKeyed(p, binds[k], st, seen) {
            MoreUsers(p, binds[k], st, was.seen, seen);
          }
        }
      }
      if !truncated && p.stmts[st].isReturn && p.stmts[st].scope.Some? {
        MoreSites(p, p.stmts[st].scope.value, home, seen);
      }
      assert binds[..|binds|] == binds;
    }

    /** The callers of a function, at most three; the depth is not looked at. */
    method Returned(f: nat, depth: nat, ghost r: Region) returns (out: seq<Node>)
      requires Ready(r) && f < |p.funcs| && SitesKeyed(p, f, r.keys)
      modifies this`budget, this`truncated, this`looked, this`refused, this`calls, this`seen
      ensures Step(p, r, old(Now()), Now(), out, 0)
      ensures Affordable(p, r, old(Now()), Now(), depth + 1, 0)
      ensures !truncated ==> Shown(p, calls, SiteStarts(p, f), out)
      ensures !truncated ==> SitesKeyed(p, f, seen)
      ensures !truncated && Apart(p) && Plain(p, p.funcs[f].name) ==> SitesEntered(p, f, old(seen), seen)
      decreases |r.keys - seen|, 1
    {
      hide Step, Encloses, ClosedAt, AllEntered, Visit, CallSitesOf, Program.Valid, Affordable, FlowCost, Apart, Plain,
        SitesEntered, Shown, SiteStarts;
      ghost var start := Now();
      out := [];
      NoStep(p, r, start);
      NothingShown(p, calls, SiteStarts(p, f));
      AffordNothing(p, r, start, depth + 1);
      var sites := CallSites(p, f);
      for i := 0 to |sites|
        invariant Ready(r) && Step(p, r, start, Now(), out, 0) && start.seen <= seen
        invariant Affordable(p, r, start, Now(), depth + 1, 0)
        invariant !truncated ==> Shown(p, calls, SiteStarts(p, f), out)
        invariant forall k :: 0 <= k < i ==> Key(p.calls[sites[k]].stmt, p.funcs[f].name) in seen
      {
        SiteFacts(p, f, i);
        var site := p.calls[sites[i]];
        var key := Key(site.stmt, p.funcs[f].name);
        if key !in seen {
          ghost var was := Now();
          seen := seen + {key};
          ghost var marked := Now();
          NewSite(p, f, i, was.seen);
          SiteVisit(p, f, i);
          RegionVisit(p, r, key, [site.span]);
          FewerLeft(r.keys, start.seen, was.seen);
          MarkLeft(r.keys, was.seen, key);
          var more := FlowFrom(site.stmt, [site.span], depth + 1, r);
          StepFacts(p, r, marked, Now(), more, 0);
          MarkStep(p, r, was, Now(), more, key, [site.span]);
          AffordVisit(p, r, was, Now(), key, [site.span], depth + 1);
          AffordTwice(p, r, start, was, Now(), depth + 1, 0, 0);
          Steps(p, r, start, was, Now(), out, more, 0, 0);
          StepFacts(p, r, was, Now(), more, 0);
          if !truncated {
            StartsSite(p, f, i);
            ShownFrom(p, calls, site.stmt, SiteStarts(p, f), more);
            ShownAfter(p, was.calls, calls, SiteStarts(p, f), SiteStarts(p, f), out, more);
          }
          out := out + more;
        }
      }
      if !truncated && Apart(p) && Plain(p, p.funcs[f].name) {
        StepExplored(p, r, start, Now(), out, 0);
        NewSitesEntered(p, f, start.seen, seen);
      }
    }

    /** The users of a name. */
    method Follow(name: string, def: nat, depth: nat, ghost r: Region) returns (out: seq<Node>)
      requires Ready(r) && def < |p.stmts| && UsersKeyed(p, name, def, r.keys) && Bindable(p, name)
      modifies this`budget, this`truncated, this`looked, this`refused, this`calls, this`seen
      ensures Step(p, r, old(Now()), Now(), out, 0)
      ensures Affordable(p, r, old(Now()), Now(), depth, 0)
      ensures !truncated ==> Shown(p, calls, UserStarts(p, name, def), out)
      ensures !truncated ==> UsersKeyed(p, name, def, seen)
      decreases |r.keys - seen|, 1
    {
      hide Step, Encloses, ClosedAt, AllEntered, Visit, UsersOf, Uses, Bindable, Program.Valid, Affordable,
        FlowCost, Shown, UserStarts;
      ghost var start := Now();
      out := [];
      NoStep(p, r, start);
      NothingShown(p, calls, UserStarts(p, name, def));
      AffordNothing(p, r, start, depth);
      var deep := Deep(depth);
      if deep {
        RefusedStep(p, r, start, start, Now(), out, 0);
        AffordRefused(p, r, start, Now(), depth, 0);
        return;
      }
      var users := Users(p, name, def);
      for i := 0 to |users|
        invariant Ready(r) && Step(p, r, start, Now(), out, 0) && start.seen <= seen
        invariant Affordable(p, r, start, Now(), depth, 0)
        invariant !truncated ==> Shown(p, calls, UserStarts(p, name, def), out)
        invariant forall k :: 0 <= k < i ==> Key(users[k], name) in seen
      {
        var key := Key(users[i], name);
        if key in seen {
          continue;
        }
        ghost var was := Now();
        seen := seen + {key};
        ghost var marked := Now();
        var spans := Occurrences(p.stmts[users[i]].value.refs, [name]);
        UserVisit(p, name, def, users[i]);
        RegionVisit(p, r, key, spans);
        FewerLeft(r.keys, start.seen, was.seen);
        MarkLeft(r.keys, was.seen, key);
        var more := FlowFrom(users[i], spans, depth, r);
        StepFacts(p, r, marked, Now(), more, 0);
        MarkStep(p, r, was, Now(), more, key, spans);
        AffordVisit(p, r, was, Now(), key, spans, depth);
        AffordTwice(p, r, start, was, Now(), depth, 0, 0);
        Steps(p, r, start, was, Now(), out, more, 0, 0);
        StepFacts(p, r, was, Now(), more, 0);
        if !truncated {
          StartsUser(p, name, def, i);
          ShownFrom(p, calls, users[i], UserStarts(p, name, def), more);
          ShownAfter(p, was.calls, calls, UserStarts(p, name, def), UserStarts(p, name, def), out, more);
        }
        out := out + more;
      }
    }

    /** Into the function a call names, through the parameters that are given the value. */
    method Into(f: nat, c: nat, sp: Span, depth: nat, ghost r: Region) returns (out: seq<Node>)
      requires Ready(r) && c < |p.calls| && p.Target(p.calls[c].callee) == Some(f) && Entered(p, c, sp, r.keys)
      modifies this`budget, this`truncated, this`looked, this`refused, this`calls, this`seen
      ensures Step(p, r, old(Now()), Now(), out, 0)
      ensures Affordable(p, r, old(Now()), Now(), depth + 1, 1)
      ensures !truncated ==> Entered(p, c, sp, seen)
      ensures !truncated ==> Shaped(p, calls, out) && |out| == |AtMostOne(GivenNames(p, c, f, sp))|
      ensures !truncated ==> EndsWith(out, AtMostOne(GivenNames(p, c, f, sp)), Place(p.funcs[f].owner, p.funcs[f].span))
      decreases |r.keys - seen|, 1
    {
      hide Step, Encloses, ClosedAt, AllEntered, Visit, Program.Valid, Program.Target, GivenNames, Entered, Affordable,
        Shown,
        BodyStarts, NodeShaped;
      ghost var start := Now();
      NoStep(p, r, start);
      AffordNothing(p, r, start, depth + 1);
      AffordMore(p, r, start, start, depth + 1, 0, depth + 1, 1);
      var names := Names(p, f, c, sp);
      if |names| == 0 {
        NoneGiven(p, c, f, sp, seen);
        return [];
      }
      var deep := Deep(depth);
      if deep {
        RefusedStep(p, r, start, start, Now(), [], 0);
        AffordRefused(p, r, start, Now(), depth + 1, 1);
        return [];
      }
      var ok := Spend();
      if !ok {
        RefusedStep(p, r, start, start, Now(), [], 0);
        AffordRefused(p, r, start, Now(), depth + 1, 1);
        return [];
      }
      ghost var paid := Now();
      var unit := p.funcs[f].owner;
      var n := Node(names[0], 0, Place(unit, p.funcs[f].span), [], []);
      NameStep(p, r, start, paid, n);
      AffordNode(p, r, start, paid, depth + 1);
      BodyOf(p, c, f, sp, r.keys);
      var feeds := Body(f, names, depth, r, c, sp);
      StepFacts(p, r, paid, Now(), feeds, 0);
      FeedStep(p, r, start, paid, Now(), n, feeds, 0);
      AffordTwice(p, r, start, paid, Now(), depth + 1, 1, 0);
      if !truncated {
        IsEntered(p, c, f, sp, names, seen);
      }
      if !truncated {
        ParamShaped(p, calls, n.(feeds := feeds), c, f, sp);
      }
      out := [n.(feeds := feeds)];
    }

    method Body(f: nat, names: seq<string>, depth: nat, ghost r: Region, ghost c: nat, ghost sp: Span)
      returns (feeds: seq<Node>)
      requires Ready(r) && f < |p.funcs| && c < |p.calls| && p.Target(p.calls[c].callee) == Some(f)
      requires names == GivenNames(p, c, f, sp) != [] && BodyKeyed(p, f, names, r.keys)
      modifies this`budget, this`truncated, this`looked, this`refused, this`calls, this`seen
      ensures Step(p, r, old(Now()), Now(), feeds, 0)
      ensures Affordable(p, r, old(Now()), Now(), depth + 1, 0)
      ensures !truncated ==> Shown(p, calls, BodyStarts(p, f, names), feeds)
      ensures !truncated ==> BodyKeyed(p, f, names, seen)
      decreases |r.keys - seen|, 0
    {
      hide Step, Encloses, ClosedAt, AllEntered, Visit, Program.Valid, Program.Within, Program.Target, GivenNames,
        Affordable, FlowCost, Shown, BodyStarts;
      ghost var start := Now();
      NoStep(p, r, start);
      NothingShown(p, calls, BodyStarts(p, f, names));
      AffordNothing(p, r, start, depth + 1);
      feeds := [];
      FuncFacts(p, f);
      var stmts := p.units[p.funcs[f].owner].stmts;
      UnitStmts(p, p.funcs[f].owner);
      var all := Spread(p, f, names);
      for i := 0 to |stmts|
        invariant Ready(r) && Step(p, r, start, Now(), feeds, 0) && start.seen <= seen
        invariant Affordable(p, r, start, Now(), depth + 1, 0)
        invariant !truncated ==> Shown(p, calls, BodyStarts(p, f, names), feeds)
        invariant forall k :: 0 <= k < i && Receives(p, f, names, stmts[k]) ==> Key(stmts[k], names[0]) in seen
      {
        var inner := stmts[i];
        var key := Key(inner, names[0]);
        var spans := Occurrences(p.stmts[inner].value.refs, all);
        StmtFacts(p, inner);
        if p.stmts[inner].scope.None? || !p.Within(p.stmts[inner].scope, Some(f)) || |spans| == 0 || key in seen {
          continue;
        }
        assert Receives(p, f, names, stmts[i]);
        ghost var was := Now();
        seen := seen + {key};
        ghost var marked := Now();
        BodyVisit(p, c, f, sp, inner);
        RegionVisit(p, r, key, spans);
        FewerLeft(r.keys, start.seen, was.seen);
        MarkLeft(r.keys, was.seen, key);
        var more := FlowFrom(inner, spans, depth + 1, r);
        StepFacts(p, r, marked, Now(), more, 0);
        MarkStep(p, r, was, Now(), more, key, spans);
        AffordVisit(p, r, was, Now(), key, spans, depth + 1);
        AffordTwice(p, r, start, was, Now(), depth + 1, 0, 0);
        Steps(p, r, start, was, Now(), feeds, more, 0, 0);
        StepFacts(p, r, was, Now(), more, 0);
        if !truncated {
          StartsBody(p, f, names, inner);
          ShownFrom(p, calls, inner, BodyStarts(p, f, names), more);
          ShownAfter(p, was.calls, calls, BodyStarts(p, f, names), BodyStarts(p, f, names), feeds, more);
        }
        feeds := feeds + more;
      }
    }

    /** Names in capitals are followed across files when the subject leads nowhere. */
    method Elsewhere(s: Subject, ghost r: Region) returns (out: seq<Node>)
      requires Ready(r) && s.stmt < |p.stmts| && ConstantsKeyed(p, s, r.keys)
      modifies this`budget, this`truncated, this`looked, this`refused, this`calls, this`seen
      ensures Step(p, r, old(Now()), Now(), out, 0)
      ensures Affordable(p, r, old(Now()), Now(), 0, 0)
      ensures !truncated ==> Shown(p, calls, ConstantStarts(p, s), out)
      ensures !truncated ==> ConstantsKeyed(p, s, seen)
    {
      hide Step, Encloses, UsersKeyed, Program.Valid, Affordable, Shown, ConstantStarts, UserStarts;
      ghost var start := Now();
      out := [];
      NoStep(p, r, start);
      NothingShown(p, calls, ConstantStarts(p, s));
      AffordNothing(p, r, start, 0);
      var refs := p.stmts[s.stmt].value.refs;
      for i := 0 to |refs|
        invariant Ready(r) && Step(p, r, start, Now(), out, 0) && start.seen <= seen
        invariant Affordable(p, r, start, Now(), 0, 0)
        invariant !truncated ==> Shown(p, calls, ConstantStarts(p, s), out)
        invariant !truncated ==> forall k :: 0 <= k < i && Constant(p, s, refs[k]) ==>
          UsersKeyed(p, refs[k].name, s.stmt, seen)
      {
        if p.constant(refs[i].name) && refs[i].span.start < s.span.end && refs[i].span.end > s.span.start {
          ghost var was := Now();
          var more := Follow(refs[i].name, s.stmt, 0, r);
          Steps(p, r, start, was, Now(), out, more, 0, 0);
          AffordTwice(p, r, start, was, Now(), 0, 0, 0);
          StepFacts(p, r, was, Now(), more, 0);
          if !truncated {
            StartsConstant(p, s, i);
            ShownAfter(p, was.calls, calls, ConstantStarts(p, s), UserStarts(p, refs[i].name, s.stmt), out, more);
          }
          out := out + more;
          if !truncated {
            forall k | 0 <= k < i && Constant(p, s, refs[k]) ensures UsersKeyed(p, refs[k].name, s.stmt, seen) {
              MoreUsers(p, refs[k].name, s.stmt, was.seen, seen);
            }
          }
        }
      }
    }

    method Run(s: Subject, ghost r: Region) returns (feeds: seq<Node>)
      requires p.Valid() && s.Valid(p) && Starts(p, r, s) && seen == {}
      modifies this`budget, this`truncated, this`looked, this`refused, this`calls, this`seen
      ensures Step(p, r, old(Now()), Now(), feeds, if s.call.Some? then 1 else 0)
      ensures s.call.Some? ==>
        |feeds| == 1 && feeds[0].call == |calls| && calls == old(calls) + [s.call.value] && seen == {}
      ensures s.call.Some? ==> Charged(old(Now()), Now(), LookupsFor(p, s.call.value))
      ensures s.call.None? ==> Affordable(p, r, old(Now()), Now(), 1, FlowCost(p, r, s.stmt, 1))
      ensures s.call.Some? ==> feeds[0].feeds == []
      ensures !truncated && s.call.None? ==>
        Shown(p, calls, iset{s.stmt}, feeds) || Shown(p, calls, ConstantStarts(p, s), feeds)
      ensures !truncated && s.call.None? ==> ClosedAt(p, s.stmt, seen) && AllEntered(p, s.stmt, [s.span], seen)
      ensures !truncated && feeds == [] ==> ConstantsKeyed(p, s, seen)
    {
      hide Step, Encloses, IsCallNode, ClosedAt, AllEntered, ConstantsKeyed, LookupsFor, Program.Valid, Affordable,
        FlowCost,
        Shown, ConstantStarts;
      ghost var start := Now();
      if s.call.Some? {
        var n := CallNode(s.call.value);
        CallStep(p, r, start, start, Now(), n, s.call.value);
        feeds := [n];
        return;
      }
      feeds := FlowFrom(s.stmt, [s.span], 0, r);
      StepFacts(p, r, start, Now(), feeds, 0);
      if |feeds| == 0 {
        ghost var was := Now();
        var out := Elsewhere(s, r);
        Steps(p, r, start, was, Now(), feeds, out, 0, 0);
        StepFacts(p, r, was, Now(), out, 0);
        AffordMore(p, r, was, Now(), 0, 0, 1, 0);
        AffordTwice(p, r, start, was, Now(), 1, FlowCost(p, r, s.stmt, 1), 0);
        if !truncated {
          MoreKeys(p, s.stmt, s.span, was.seen, seen);
          StillEntered(p, s.stmt, [s.span], was.seen, seen);
        }
        assert feeds + out == out;
        feeds := out;
      }
    }
  }

  /** What a trace starts from: a span of a statement, or one of its calls. */
  datatype Subject = Subject(stmt: nat, span: Span, call: Option<nat>) {
    ghost predicate Valid(p: Program) {
      stmt < |p.stmts| && (call.Some? ==> call.value < |p.calls| && p.calls[call.value].stmt == stmt)
    }
  }

  predicate Constant(p: Program, s: Subject, ref: Ref) {
    p.constant(ref.name) && ref.span.start < s.span.end && ref.span.end > s.span.start
  }

  /** The users of the constants under the subject. */
  ghost function ConstantStarts(p: Program, s: Subject): iset<nat>
    requires p.Valid() && s.stmt < |p.stmts|
  {
    iset u: nat | IsConstantUser(p, s, u)
  }

  ghost predicate IsConstantUser(p: Program, s: Subject, u: nat)
    requires p.Valid() && s.stmt < |p.stmts|
  {
    var refs := p.stmts[s.stmt].value.refs;
    exists k :: 0 <= k < |refs| && Constant(p, s, refs[k]) && u in UsersOf(p, refs[k].name, s.stmt)
  }

  lemma {:induction false} StartsConstant(p: Program, s: Subject, k: nat)
    requires p.Valid() && s.stmt < |p.stmts| && k < |p.stmts[s.stmt].value.refs|
    requires Constant(p, s, p.stmts[s.stmt].value.refs[k])
    ensures UserStarts(p, p.stmts[s.stmt].value.refs[k].name, s.stmt) <= ConstantStarts(p, s)
  {
    hide UsersOf;
  }

  ghost predicate ConstantsKeyed(p: Program, s: Subject, keys: set<Key>)
    requires p.Valid() && s.stmt < |p.stmts|
  {
    var refs := p.stmts[s.stmt].value.refs;
    forall k :: 0 <= k < |refs| && Constant(p, s, refs[k]) ==> UsersKeyed(p, refs[k].name, s.stmt, keys)
  }

  /** A region for a subject that is no call. */
  ghost predicate Starts(p: Program, r: Region, s: Subject)
    requires p.Valid() && s.Valid(p)
  {
    s.call.None? ==> Encloses(p, r) && Flowing(s.stmt, [s.span]) in r.flows && ConstantsKeyed(p, s, r.keys)
  }

  /** A light region with so few keys that neither the budget nor the depth can run out. */
  ghost predicate Small(p: Program, r: Region)
    requires p.Valid()
  {
    Light(p, r) && |r.keys| < MAX_DEPTH && (|r.keys| + 1) * r.visit <= MAX_NODES
  }

  /** Wherever a key of a plain name can be visited, the value was followed into the calls. */
  ghost predicate EveryVisitEntered(p: Program, seen: set<Key>)
    requires p.Valid()
  {
    forall key, spans :: key in seen && key.st < |p.stmts| && Plain(p, key.name) && Visit(p, key, spans) ==>
      AllEntered(p, key.st, spans, seen)
  }

  lemma {:induction false} AllVisitsEntered(p: Program, seen: set<Key>)
    requires p.Valid() && Apart(p) && forall key :: key in seen ==> Explored(p, key, seen)
    ensures EveryVisitEntered(p, seen)
  {
    hide Explored, AllEntered, Visit, Apart, Plain;
    forall key, spans | key in seen && key.st < |p.stmts| && Plain(p, key.name) && Visit(p, key, spans)
      ensures AllEntered(p, key.st, spans, seen)
    {
      EveryVisit(p, key, spans, seen);
    }
  }

  /** `Trace`: whatever region `r` holds the subject, the value is not followed out of it; a trace
      that is not marked was followed everywhere it goes; and what fits is not marked. */
  method Trace(p: Program, s: Subject, ghost r: Region)
    returns (feeds: seq<Node>, calls: seq<nat>, truncated: bool, ghost seen: set<Key>)
    requires p.Valid() && s.Valid(p) && Starts(p, r, s)
    ensures Count(feeds) <= MAX_NODES + 1
    ensures Numbers(feeds) == Upward(0, |calls|) && Right(p, calls, !truncated, feeds)
    ensures seen <= r.keys
    ensures !truncated ==> forall key :: key in seen ==> Explored(p, key, seen)
    ensures !truncated && Apart(p) ==> EveryVisitEntered(p, seen)
    ensures !truncated && s.call.None? ==> ClosedAt(p, s.stmt, seen) && AllEntered(p, s.stmt, [s.span], seen)
    ensures !truncated && feeds == [] ==> ConstantsKeyed(p, s, seen)
    ensures !truncated && s.call.None? ==>
      Shown(p, calls, iset{s.stmt}, feeds) || Shown(p, calls, ConstantStarts(p, s), feeds)
    ensures s.call.Some? ==> |feeds| == 1 && feeds[0].call == 1 && calls == [s.call.value] && seen == {}
    ensures s.call.Some? ==> feeds[0].feeds == []
    ensures s.call.Some? ==> (truncated <==> MAX_NODES < LookupsFor(p, s.call.value))
    ensures s.call.None? && Small(p, r) ==> !truncated
  {
    hide Encloses, Explored, ClosedAt, AllEntered, ConstantsKeyed, Right, Count, Numbers, Upward, Program.Valid,
      LookupsFor, FlowCost, Light, Starts,
      Apart, EveryVisitEntered, Shown, ConstantStarts;
    var t := new Tracer(p);
    ghost var start := t.Now();
    feeds := t.Run(s, r);
    calls, truncated, seen := t.calls, t.truncated, t.seen;
    if !truncated && Apart(p) {
      AllVisitsEntered(p, seen);
    }
    if s.call.None? && Small(p, r) {
      StartCost(p, r, s);
    }
  }

  lemma {:induction false} StartCost(p: Program, r: Region, s: Subject)
    requires p.Valid() && s.Valid(p) && s.call.None? && Starts(p, r, s) && Small(p, r)
    ensures FlowCost(p, r, s.stmt, 1) <= MAX_NODES - r.visit * |r.keys - {}|
  {
    hide Encloses, ConstantsKeyed, FlowCost, LookupsFor;
    assert r.keys - {} == r.keys;
    var v := Flowing(s.stmt, [s.span]);
    assert FlowCost(p, r, v.st, |v.spans|) <= r.visit;
  }

  // ----- There is always a region

  function AllNames(p: Program): set<string> {
    (set st, k | 0 <= st < |p.stmts| && 0 <= k < |p.stmts[st].binds| :: p.stmts[st].binds[k])
    + (set st, k | 0 <= st < |p.stmts| && 0 <= k < |p.stmts[st].value.refs| :: p.stmts[st].value.refs[k].name)
    + (set f | 0 <= f < |p.funcs| :: p.funcs[f].name)
    + (set f, k | 0 <= f < |p.funcs| && 0 <= k < |p.funcs[f].params| :: p.funcs[f].params[k])
  }

  function Below(n: nat): (r: set<nat>)
    ensures forall i: nat :: i in r <==> i < n
  {
    if n == 0 then {} else Below(n - 1) + {n - 1}
  }

  /** All statements and all names. */
  ghost function Whole(p: Program): Region {
    Region(set st, name | st in Below(|p.stmts|)
      && name in AllNames(p) :: Key(st, name), iset v: Flowing | v.st < |p.stmts|, 0, 0)
  }

  lemma {:induction false} WholeEncloses(p: Program, s: Subject)
    requires p.Valid() && s.Valid(p)
    ensures Starts(p, Whole(p), s)
  {
    hide AllNames, CallSitesOf, UsersOf, Receives, Visit, Skipped;
    var r := Whole(p);
    forall st: nat | st < |p.stmts| ensures ClosedAt(p, st, r.keys) {
      forall k | 0 <= k < |p.stmts[st].binds| ensures UsersKeyed(p, p.stmts[st].binds[k], st, r.keys) {
        BindNamed(p, st, k);
        NamedUsers(p, p.stmts[st].binds[k], st);
      }
      if p.stmts[st].isReturn && p.stmts[st].scope.Some? {
        FuncNamed(p, p.stmts[st].scope.value);
      }
    }
    forall v | v in r.flows ensures NotSkippedEntered(p, v.st, v.spans, r.keys) {
      forall i | 0 <= i < |v.spans| ensures CallsEntered(p, v.st, v.spans[i], r.keys) {
        WholeEntered(p, v.st, v.spans[i]);
      }
    }
    var refs := p.stmts[s.stmt].value.refs;
    forall k | 0 <= k < |refs| && Constant(p, s, refs[k]) ensures UsersKeyed(p, refs[k].name, s.stmt, r.keys) {
      RefNamed(p, s.stmt, k);
      NamedUsers(p, refs[k].name, s.stmt);
    }
  }

  lemma {:induction false} WholeEntered(p: Program, st: nat, sp: Span)
    requires p.Valid() && st < |p.stmts|
    ensures CallsEntered(p, st, sp, Whole(p).keys)
  {
    hide AllNames, Receives, Takes, GivenNames;
    StmtCalls(p, st);
    var calls := p.stmts[st].calls;
    forall k | 0 <= k < |calls| ensures Entered(p, calls[k], sp, Whole(p).keys) {
      var f := p.Target(p.calls[calls[k]].callee);
      if f.Some? {
        NamesGiven(p, calls[k], f.value, sp);
        UnitStmts(p, p.funcs[f.value].owner);
      }
    }
  }

  lemma {:induction false} NamesGiven(p: Program, c: nat, f: nat, sp: Span)
    requires c < |p.calls| && f < |p.funcs|
    ensures GivenNames(p, c, f, sp) != [] ==> GivenNames(p, c, f, sp)[0] in AllNames(p)
  {
    hide AllNames, GivenTo;
    GivenNamed(p, c, f, sp, |p.funcs[f].params|);
  }

  lemma {:induction false} NamedUsers(p: Program, name: string, st: nat)
    requires p.Valid() && st < |p.stmts| && name in AllNames(p)
    ensures UsersKeyed(p, name, st, Whole(p).keys)
  {
    hide AllNames, Uses;
  }

  lemma {:induction false} BindNamed(p: Program, st: nat, k: nat)
    requires st < |p.stmts| && k < |p.stmts[st].binds|
    ensures p.stmts[st].binds[k] in AllNames(p)
  {
  }

  lemma {:induction false} RefNamed(p: Program, st: nat, k: nat)
    requires st < |p.stmts| && k < |p.stmts[st].value.refs|
    ensures p.stmts[st].value.refs[k].name in AllNames(p)
  {
  }

  lemma {:induction false} FuncNamed(p: Program, f: nat)
    requires f < |p.funcs|
    ensures p.funcs[f].name in AllNames(p)
  {
  }

  lemma {:induction false} GivenNamed(p: Program, c: nat, f: nat, sp: Span, n: nat)
    requires c < |p.calls| && f < |p.funcs| && n <= |p.funcs[f].params|
    ensures forall i :: 0 <= i < |GivenTo(p, c, f, sp, n)| ==> GivenTo(p, c, f, sp, n)[i] in AllNames(p)
  {
    hide AllNames, Given;
    if n > 0 {
      GivenNamed(p, c, f, sp, n - 1);
      ParamNamed(p, f, n - 1);
    }
  }

  lemma {:induction false} ParamNamed(p: Program, f: nat, k: nat)
    requires f < |p.funcs| && k < |p.funcs[f].params|
    ensures p.funcs[f].params[k] in AllNames(p)
  {
  }

  /** The parameters that are given the value. */
  method Names(p: Program, f: nat, c: nat, sp: Span) returns (names: seq<string>)
    requires c < |p.calls| && f < |p.funcs|
    ensures names == GivenNames(p, c, f, sp)
  {
    names := [];
    for i := 0 to |p.funcs[f].params|
      invariant names == GivenTo(p, c, f, sp, i)
    {
      var a := Argument(p.calls[c], p.funcs[f], i);
      if a.Some? && Inside(p.calls[c].args[a.value].expr.span, sp.start) {
        names := names + [p.funcs[f].params[i]];
      }
    }
  }

  lemma {:induction false} CallStmt(p: Program, c: nat)
    requires p.Valid() && c < |p.calls|
    ensures p.calls[c].stmt < |p.stmts|
  {
  }
}
