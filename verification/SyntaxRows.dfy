/** The wire format of a syntax tree: preorder rows with a packed depth, written by
    `flatten` (pkg/internal/syntax/shim/shim.c) and read by `build` (pkg/internal/syntax/tree.go). */
module SyntaxRows {
  const TWO29: nat := 0x2000_0000
  const TWO32: nat := 0x1_0000_0000
  const ROW_BYTES: nat := 20

  type U32 = x: nat | x < TWO32

  // ----- Trees and their preorder

  datatype Tree<L> = Tree(info: L, children: seq<Tree<L>>)

  datatype Entry<L> = Entry(depth: nat, info: L)

  ghost function Entries<L>(t: Tree<L>, depth: nat): (es: seq<Entry<L>>)
    ensures |es| > 0
    decreases t, 1
  {
    [Entry(depth, t.info)] + Forest(t.children, depth + 1)
  }

  ghost function Forest<L>(ts: seq<Tree<L>>, depth: nat): seq<Entry<L>>
    decreases ts, 0
  {
    if ts == [] then [] else Entries(ts[0], depth) + Forest(ts[1..], depth)
  }

  ghost function Height<L>(t: Tree<L>): nat
    decreases t, 1
  {
    ForestHeight(t.children)
  }

  ghost function ForestHeight<L>(ts: seq<Tree<L>>): nat
    decreases ts, 0
  {
    if ts == [] then 0
    else
      var first, rest := Height(ts[0]) + 1, ForestHeight(ts[1..]);
      if first < rest then rest else first
  }

  lemma {:induction false} ForestAppend<L>(ts: seq<Tree<L>>, t: Tree<L>, depth: nat)
    ensures Forest(ts + [t], depth) == Forest(ts, depth) + Entries(t, depth)
  {
    if ts == [] {
      assert [t][1..] == [];
    } else {
      assert (ts + [t])[1..] == ts[1..] + [t];
      ForestAppend(ts[1..], t, depth);
    }
  }

  /** What may follow a forest at `depth` in a preorder. */
  ghost predicate Follows<L>(rest: seq<Entry<L>>, depth: nat) {
    rest == [] || rest[0].depth < depth
  }

  lemma {:induction false} ForestStart<L>(ts: seq<Tree<L>>, depth: nat)
    ensures ts == [] <==> Forest(ts, depth) == []
    ensures ts != [] ==> Forest(ts, depth)[0] == Entry(depth, ts[0].info)
  {
  }

  lemma {:induction false} ForestHead<L>(ts: seq<Tree<L>>, depth: nat, rest: seq<Entry<L>>)
    requires Follows(rest, depth)
    ensures var all := Forest(ts, depth) + rest;
            && (ts == [] ==> all == rest)
            && (ts != [] ==> && |all| > 0 && all[0] == Entry(depth, ts[0].info)
                             && all[1..] == Forest(ts[0].children, depth + 1) + (Forest(ts[1..], depth) + rest)
                             && Follows(Forest(ts[1..], depth) + rest, depth + 1))
  {
    if ts != [] {
      var head, kids, tail := [Entry(depth, ts[0].info)], Forest(ts[0].children, depth + 1), Forest(ts[1..], depth);
      assert Forest(ts, depth) == head + kids + tail;
      ForestStart(ts[1..], depth);
      assert Forest(ts, depth) + rest == head + (kids + (tail + rest));
    }
  }

  lemma {:induction false} ForestInjective<L>(f: seq<Tree<L>>, g: seq<Tree<L>>, depth: nat, r: seq<Entry<L>>,
      s: seq<Entry<L>>)
    requires Forest(f, depth) + r == Forest(g, depth) + s
    requires Follows(r, depth) && Follows(s, depth)
    ensures f == g && r == s
    decreases f
  {
    ForestHead(f, depth, r);
    ForestHead(g, depth, s);
    if f != [] && g != [] {
      var ff, gg := Forest(f[1..], depth) + r, Forest(g[1..], depth) + s;
      ForestInjective(f[0].children, g[0].children, depth + 1, ff, gg);
      ForestInjective(f[1..], g[1..], depth, r, s);
      assert f == [f[0]] + f[1..] && g == [g[0]] + g[1..];
    }
  }

  /** A preorder with depths determines its tree. */
  lemma {:induction false} EntriesInjective<L>(t: Tree<L>, u: Tree<L>)
    requires Entries(t, 0) == Entries(u, 0)
    ensures t == u
  {
    assert Entries(t, 0)[1..] == Forest(t.children, 1) && Entries(u, 0)[1..] == Forest(u.children, 1);
    assert Entries(t, 0)[0] == Entries(u, 0)[0];
    ForestInjective(t.children, u.children, 1, [], []);
  }

  /** Depths in a preorder start at the root and go down by at most one level at a time. */
  ghost predicate Steps<L>(es: seq<Entry<L>>, first: nat) {
    && |es| > 0 && es[0].depth == first
    && forall i :: 0 < i < |es| ==> first < es[i].depth <= es[i - 1].depth + 1
  }

  lemma {:induction false} EntriesStep<L>(t: Tree<L>, depth: nat)
    ensures Steps(Entries(t, depth), depth)
    decreases t, 1
  {
    ForestStep(t.children, depth + 1);
  }

  lemma {:induction false} ForestStep<L>(ts: seq<Tree<L>>, depth: nat)
    requires depth > 0
    ensures ts != [] ==> Forest(ts, depth) != [] && Forest(ts, depth)[0].depth == depth
    ensures ts == [] ==> Forest(ts, depth) == []
    ensures forall i :: 0 <= i < |Forest(ts, depth)| ==> depth <= Forest(ts, depth)[i].depth
    ensures forall i :: 0 < i < |Forest(ts, depth)| ==> Forest(ts, depth)[i].depth <= Forest(ts, depth)[i - 1].depth + 1
    decreases ts, 0
  {
    if ts != [] {
      EntriesStep(ts[0], depth);
      ForestStep(ts[1..], depth);
      assert Forest(ts, depth) == Entries(ts[0], depth) + Forest(ts[1..], depth);
    }
  }

  /** No depth is above `top`, and some depth is `top`. */
  ghost predicate Tops<L>(es: seq<Entry<L>>, top: int) {
    (forall e :: e in es ==> e.depth <= top) && exists e :: e in es && e.depth == top
  }

  lemma {:induction false} TopsOfBoth<L>(a: seq<Entry<L>>, b: seq<Entry<L>>, s: int, t: int)
    requires Tops(a, s) && (b == [] || Tops(b, t))
    ensures Tops(a + b, if b == [] || s >= t then s else t)
  {
    if b == [] || s >= t {
      var e :| e in a && e.depth == s;
      assert e in a + b;
    } else {
      var e :| e in b && e.depth == t;
      assert e in a + b;
    }
  }

  /** The deepest row is as deep as the tree is high. */
  lemma {:induction false} EntriesReach<L>(t: Tree<L>, depth: nat)
    ensures Tops(Entries(t, depth), depth + Height(t))
    decreases t, 1
  {
    hide Tops;
    ForestReach(t.children, depth + 1);
    OneTop(Entry(depth, t.info));
    TopsOfBoth([Entry(depth, t.info)], Forest(t.children, depth + 1), depth, depth + ForestHeight(t.children));
    ForestStart(t.children, depth + 1);
  }

  lemma {:induction false} OneTop<L>(e: Entry<L>)
    ensures Tops([e], e.depth)
  {
    assert e in [e];
  }

  lemma {:induction false} ForestReach<L>(ts: seq<Tree<L>>, depth: nat)
    requires depth > 0
    ensures ts != [] ==> Tops(Forest(ts, depth), depth + ForestHeight(ts) - 1)
    decreases ts, 0
  {
    hide Tops, Entries, Height;
    if ts != [] {
      EntriesReach(ts[0], depth);
      ForestReach(ts[1..], depth);
      ForestStart(ts[1..], depth);
      TopsOfBoth(Entries(ts[0], depth), Forest(ts[1..], depth), depth + Height(ts[0]),
        depth + ForestHeight(ts[1..]) - 1);
    }
  }

  // ----- Rows

  /** What tree-sitter tells about one node. */
  datatype Raw = Raw(symbol: U32, start: U32, end: U32, field: U32, named: bool, missing: bool, error: bool)

  datatype Row = Row(symbol: U32, start: U32, end: U32, flags: U32, field: U32)

  function Bit(b: bool): nat { if b then 1 else 0 }

  /** The shift `depth << 3` keeps the low 29 bits of the depth. */
  function Pack(e: Entry<Raw>): Row {
    var n := e.info;
    Row(n.symbol, n.start, n.end, (e.depth % TWO29) * 8 + Bit(n.error) * 4 + Bit(n.missing) * 2 + Bit(n.named), n.field)
  }

  function PackAll(es: seq<Entry<Raw>>): seq<Row> {
    seq(|es|, i requires 0 <= i < |es| => Pack(es[i]))
  }

  function Unpack(r: Row): Entry<Raw> {
    Entry(r.flags / 8,
      Raw(r.symbol, r.start, r.end, r.field, r.flags % 2 == 1, r.flags / 2 % 2 == 1, r.flags / 4 % 2 == 1))
  }

  /** Packing loses nothing exactly when the depth fits in 29 bits. */
  lemma {:induction false} UnpackPack(e: Entry<Raw>)
    ensures Unpack(Pack(e)).info == e.info
    ensures Unpack(Pack(e)).depth == e.depth % TWO29
  {
    hide Bit;
    var n := e.info;
    UnpackFlags(e.depth % TWO29, n.error, n.missing, n.named);
  }

  lemma {:induction false} Half(x: nat, q: nat, r: nat)
    requires x == q * 2 + r && r < 2
    ensures x / 2 == q && x % 2 == r
  {
  }

  lemma {:induction false} Quarter(x: nat, q: nat, r: nat)
    requires x == q * 4 + r && r < 4
    ensures x / 4 == q
  {
  }

  lemma {:induction false} Eighth(x: nat, q: nat, r: nat)
    requires x == q * 8 + r && r < 8
    ensures x / 8 == q
  {
  }

  /** The three flags and the depth come apart again. */
  lemma {:induction false} UnpackFlags(d: nat, error: bool, missing: bool, named: bool)
    ensures var flags := d * 8 + Bit(error) * 4 + Bit(missing) * 2 + Bit(named);
            && flags / 8 == d && (flags % 2 == 1) == named
            && (flags / 2 % 2 == 1) == missing && (flags / 4 % 2 == 1) == error
  {
    var e, m, n := Bit(error), Bit(missing), Bit(named);
    var flags := d * 8 + e * 4 + m * 2 + n;
    Eighth(flags, d, e * 4 + m * 2 + n);
    Half(flags, d * 4 + e * 2 + m, n);
    Half(d * 4 + e * 2 + m, d * 2 + e, m);
    Quarter(flags, d * 2 + e, m * 2 + n);
    Half(d * 2 + e, d, e);
  }

  // ----- Writing rows: the cursor walk of `flatten`

  datatype Frame = Frame(siblings: seq<Tree<Raw>>, at: nat)

  ghost predicate Path(path: seq<Frame>) {
    |path| > 0 && forall k :: 0 <= k < |path| ==> path[k].at < |path[k].siblings|
  }

  /** The rows still to come once the subtree under the cursor is done. */
  ghost function After(path: seq<Frame>): seq<Entry<Raw>>
    requires Path(path)
    decreases |path|
  {
    var top := path[|path| - 1];
    Forest(top.siblings[top.at + 1..], |path| - 1) + if |path| == 1 then [] else After(path[..|path| - 1])
  }

  /** The rows still to come, the one under the cursor first. */
  ghost function From(path: seq<Frame>): (es: seq<Entry<Raw>>)
    requires Path(path)
    ensures |es| > 0
  {
    Entries(path[|path| - 1].siblings[path[|path| - 1].at], |path| - 1) + After(path)
  }

  lemma {:induction false} FirstChild(path: seq<Frame>)
    requires Path(path)
    ensures var node := path[|path| - 1].siblings[path[|path| - 1].at];
            && From(path)[0] == Entry(|path| - 1, node.info)
            && (if node.children == [] then From(path)[1..] == After(path)
                else From(path)[1..] == From(path + [Frame(node.children, 0)]))
  {
    var node := path[|path| - 1].siblings[path[|path| - 1].at];
    var next := path + [Frame(node.children, 0)];
    assert From(path)[1..] == Forest(node.children, |path|) + After(path);
    if node.children != [] {
      assert next[..|path|] == path;
      assert From(next) == Entries(node.children[0], |path|) + (Forest(node.children[1..], |path|) + After(path));
    }
  }

  lemma {:induction false} NextSibling(path: seq<Frame>)
    requires Path(path)
    ensures var top := path[|path| - 1];
            if top.at + 1 < |top.siblings| then
              var next := path[|path| - 1 := Frame(top.siblings, top.at + 1)];
              Path(next) && After(path) == From(next)
            else if |path| == 1 then After(path) == []
            else After(path) == After(path[..|path| - 1])
  {
    var top := path[|path| - 1];
    if top.at + 1 < |top.siblings| {
      var next := path[|path| - 1 := Frame(top.siblings, top.at + 1)];
      assert next[..|path| - 1] == path[..|path| - 1];
      assert top.siblings[top.at + 1..][1..] == top.siblings[top.at + 2..];
    }
  }

  function Pow2(n: nat): (p: nat)
    ensures p > 0
  {
    if n == 0 then 1 else 2 * Pow2(n - 1)
  }

  /** Rows the buffer can hold when the allocation works and can grow `grows` times. */
  function Room(granted: bool, grows: nat): nat {
    if granted then 4096 * Pow2(grows) else 0
  }

  /** The rows written so far, and what is still to be written, make up the tree. */
  ghost predicate Written(all: seq<Entry<Raw>>, rows: seq<Row>, rest: seq<Entry<Raw>>) {
    |rows| + |rest| == |all| && rows == PackAll(all[..|rows|]) && rest == all[|rows|..]
  }

  lemma {:induction false} PackWrapped(depth: nat, info: Raw)
    ensures Pack(Entry(depth % TWO32, info)) == Pack(Entry(depth, info))
  {
    assert depth % TWO32 % TWO29 == depth % TWO29;
  }

  lemma {:induction false} WriteOne(all: seq<Entry<Raw>>, rows: seq<Row>, rest: seq<Entry<Raw>>)
    requires Written(all, rows, rest) && rest != []
    ensures Written(all, rows + [Pack(rest[0])], rest[1..])
  {
    assert rest[0] == all[|rows|];
    assert all[..|rows| + 1] == all[..|rows|] + [all[|rows|]];
  }

  lemma {:induction false} WriteRow(all: seq<Entry<Raw>>, rows: seq<Row>, path: seq<Frame>)
    requires Path(path) && Written(all, rows, From(path))
    ensures var node := path[|path| - 1].siblings[path[|path| - 1].at];
            var more := rows + [Pack(Entry((|path| - 1) % TWO32, node.info))];
            if node.children == [] then Written(all, more, After(path)) && |After(path)| < |From(path)|
            else
              var next := path + [Frame(node.children, 0)];
              Path(next) && Written(all, more, From(next)) && |From(next)| < |From(path)|
  {
    FirstChild(path);
    var node := path[|path| - 1].siblings[path[|path| - 1].at];
    PackWrapped(|path| - 1, node.info);
    WriteOne(all, rows, From(path));
  }

  lemma {:induction false} WrittenIsPrefix(all: seq<Entry<Raw>>, rows: seq<Row>, rest: seq<Entry<Raw>>)
    requires Written(all, rows, rest)
    ensures |rows| <= |all| == |PackAll(all)|
    ensures rows == PackAll(all)[..|rows|] && (rest == [] ==> rows == PackAll(all))
  {
    assert all[..|all|] == all;
  }

  /** The inner loop: the next sibling of the cursor or of its nearest ancestor that has one. */
  method Climb(path: seq<Frame>) returns (next: seq<Frame>, more: bool)
    requires Path(path)
    ensures more ==> Path(next) && From(next) == After(path)
    ensures !more ==> After(path) == []
  {
    next := path;
    while next[|next| - 1].at + 1 == |next[|next| - 1].siblings|
      invariant Path(next) && After(next) == After(path)
      decreases |next|
    {
      NextSibling(next);
      if |next| == 1 {
        return next, false;
      }
      next := next[..|next| - 1];
    }
    NextSibling(next);
    var top := next[|next| - 1];
    return next[|next| - 1 := Frame(top.siblings, top.at + 1)], true;
  }

  lemma {:induction false} Start(tree: Tree<Raw>)
    ensures From([Frame([tree], 0)]) == Entries(tree, 0) && Written(Entries(tree, 0), [], Entries(tree, 0))
  {
    assert [tree][1..] == [];
  }

  /** The walk writes the preorder, cut where the buffer could no longer grow. */
  method Flatten(tree: Tree<Raw>, granted: bool, grows: nat) returns (rows: seq<Row>)
    ensures var all := PackAll(Entries(tree, 0));
            rows == if |all| <= Room(granted, grows) then all else all[..Room(granted, grows)]
  {
    hide Entries, Forest, After, From, Written, PackAll, Pack;
    ghost var all := Entries(tree, 0);
    ghost var rest := all;
    var cap, grown, depth := 4096, 0, 0;
    rows := [];
    var path := [Frame([tree], 0)];
    Start(tree);
    Doubling(0, grows);
    var more := granted;
    while more
      invariant granted ==> grown <= grows && 0 < cap && |rows| <= cap == Room(true, grown) <= Room(true, grows)
      invariant Written(all, rows, rest) && |rows| <= Room(granted, grows)
      invariant more ==> granted && Path(path) && rest == From(path) && depth == |path| - 1
      invariant !more ==> rest == [] || |rows| == Room(granted, grows)
      decreases |rest|, more
    {
      if |rows| == cap {
        if grown == grows { more := false; continue; }
        Doubling(grown + 1, grows);
        cap, grown := cap * 2, grown + 1;
      }
      var top := path[|path| - 1];
      var node := top.siblings[top.at];
      WriteRow(all, rows, path);
      rows := rows + [Pack(Entry(depth % TWO32, node.info))];
      if node.children != [] {
        path, depth := path + [Frame(node.children, 0)], depth + 1;
        rest := From(path);
        continue;
      }
      rest := After(path);
      path, more := Climb(path);
      depth := |path| - 1;
    }
    WrittenIsPrefix(all, rows, rest);
  }

  lemma {:induction false} Doubling(n: nat, m: nat)
    requires n <= m
    ensures Pow2(n) <= Pow2(m)
    decreases m
  {
    if n < m {
      Doubling(n, m - 1);
    }
  }

  // ----- Which rows a reader keeps

  /** The rows kept when `open` nodes are on the stack: the first row becomes the root
      whatever its depth; later a row needs an open parent. */
  ghost function KeptFrom(rows: seq<Row>, open: nat): seq<Entry<Raw>> {
    if rows == [] then []
    else
      var e := Unpack(rows[0]);
      if 0 < e.depth <= open then [e] + KeptFrom(rows[1..], e.depth + 1)
      else if open == 0 then [Entry(0, e.info)] + KeptFrom(rows[1..], 1)
      else KeptFrom(rows[1..], open)
  }

  ghost function Kept(rows: seq<Row>): seq<Entry<Raw>> { KeptFrom(rows, 0) }

  lemma {:induction false} KeptAppend(rows: seq<Row>, r: Row, open: nat)
    ensures var kept := KeptFrom(rows, open);
            var now := if kept == [] then open else kept[|kept| - 1].depth + 1;
            KeptFrom(rows + [r], open) == kept + KeptFrom([r], now)
  {
    if rows == [] {
      assert rows + [r] == [r];
    } else {
      assert (rows + [r])[1..] == rows[1..] + [r];
      var e := Unpack(rows[0]);
      var next := if 0 < e.depth <= open then e.depth + 1 else if open == 0 then 1 else open;
      KeptAppend(rows[1..], r, next);
    }
  }

  lemma {:induction false} PackedKept(es: seq<Entry<Raw>>, open: nat)
    requires es != [] ==> es[0].depth <= open
    requires forall i :: 0 <= i < |es| ==> 0 < es[i].depth < TWO29
    requires forall i :: 0 < i < |es| ==> es[i].depth <= es[i - 1].depth + 1
    ensures KeptFrom(PackAll(es), open) == es
  {
    if es != [] {
      UnpackPack(es[0]);
      assert PackAll(es)[1..] == PackAll(es[1..]);
      PackedKept(es[1..], es[0].depth + 1);
    }
  }

  lemma {:induction false} StepsKept(es: seq<Entry<Raw>>)
    requires Steps(es, 0) && forall i :: 0 <= i < |es| ==> es[i].depth < TWO29
    ensures Kept(PackAll(es)) == es
  {
    PackedKept(es[1..], 1);
    UnpackPack(es[0]);
    assert PackAll(es)[1..] == PackAll(es[1..]);
    assert Kept(PackAll(es)) == [es[0]] + es[1..];
  }

  /** For arbitrary rows, a prefix of the rows keeps a prefix of the preorder. */
  lemma {:induction false} CutRowsKept(rows: seq<Row>, n: nat)
    requires n <= |rows|
    ensures Kept(rows[..n]) <= Kept(rows)
    decreases |rows| - n
  {
    if n == |rows| {
      assert rows[..n] == rows;
    } else {
      assert rows[..n + 1] == rows[..n] + [rows[n]];
      KeptAppend(rows[..n], rows[n], 0);
      CutRowsKept(rows, n + 1);
    }
  }

  /** A preorder prefix of a shallow tree is read back whole: what a cut buffer leaves is
      a preorder prefix of the tree. */
  lemma {:induction false} PrefixKept(t: Tree<Raw>, n: nat)
    requires Height(t) < TWO29 && n <= |Entries(t, 0)|
    ensures Kept(PackAll(Entries(t, 0)[..n])) == Entries(t, 0)[..n]
  {
    EntriesStep(t, 0);
    EntriesReach(t, 0);
    var all := Entries(t, 0);
    forall i | 0 <= i < n ensures all[i].depth < TWO29 {
      assert all[i] in all;
    }
    if n > 0 {
      StepsKept(all[..n]);
    }
  }

  lemma {:induction false} KeptIsShallow(rows: seq<Row>, open: nat)
    ensures forall e :: e in KeptFrom(rows, open) ==> e.depth < TWO29
  {
    if rows != [] {
      var e := Unpack(rows[0]);
      KeptIsShallow(rows[1..], if 0 < e.depth <= open then e.depth + 1 else if open == 0 then 1 else open);
    }
  }

  /** The rows of a tree are read back as that tree exactly when its depth fits in 29 bits. */
  lemma {:induction false} RoundTripIffShallow(t: Tree<Raw>)
    ensures Kept(PackAll(Entries(t, 0))) == Entries(t, 0) <==> Height(t) < TWO29
  {
    var all := Entries(t, 0);
    EntriesStep(t, 0);
    EntriesReach(t, 0);
    if Height(t) < TWO29 {
      assert all[..|all|] == all;
      PrefixKept(t, |all|);
    } else {
      KeptIsShallow(PackAll(all), 0);
      var e :| e in all && e.depth == Height(t);
      assert e !in Kept(PackAll(all));
    }
  }
}
