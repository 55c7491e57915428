/** Rebuilding the tree from row bytes and reading the name table (pkg/internal/syntax/tree.go),
    with the name table writer of pkg/internal/syntax/shim/shim.c. */
module SyntaxTree {
  import opened Options
  import opened SyntaxRows
  import opened Texts

  type Text = seq<Byte>

  // ----- Little-endian cells

  function Cell(x: U32): Text {
    [x % 256, x / 256 % 256, x / 65536 % 256, x / 16777216]
  }

  function CellAt(bytes: Text, at: nat): U32
    requires at + 4 <= |bytes|
  {
    var b0: nat, b1: nat, b2: nat, b3: nat := bytes[at], bytes[at + 1], bytes[at + 2], bytes[at + 3];
    b0 + 256 * b1 + 65536 * b2 + 16777216 * b3
  }

  lemma {:induction false} CellRoundTrip(x: U32, before: Text, after: Text)
    ensures CellAt(before + Cell(x) + after, |before|) == x
  {
    var all := before + Cell(x) + after;
    assert all[|before|..|before| + 4] == Cell(x)[0..4];
    CellOf(x, Cell(x), 0);
    SameCell(all, |before|, Cell(x), 0);
  }

  lemma {:induction false} CellOf(x: U32, bytes: Text, at: nat)
    requires bytes == Cell(x) && at == 0
    ensures CellAt(bytes, at) == x
  {
    var y, z := x / 256, x / 65536;
    assert y / 256 == z && z / 256 == x / 16777216;
    assert x == y * 256 + x % 256 && y == z * 256 + y % 256 && z == z / 256 * 256 + z % 256;
  }

  lemma {:induction false} SameCell(a: Text, i: nat, b: Text, j: nat)
    requires i + 4 <= |a| && j + 4 <= |b| && a[i..i + 4] == b[j..j + 4]
    ensures CellAt(a, i) == CellAt(b, j)
  {
    var x, y := a[i..i + 4], b[j..j + 4];
    assert x[0] == a[i] && x[1] == a[i + 1] && x[2] == a[i + 2] && x[3] == a[i + 3];
    assert y[0] == b[j] && y[1] == b[j + 1] && y[2] == b[j + 2] && y[3] == b[j + 3];
  }

  function RowBytes(r: Row): Text {
    Cell(r.symbol) + Cell(r.start) + Cell(r.end) + Cell(r.flags) + Cell(r.field)
  }

  function RowAt(bytes: Text, at: nat): Row
    requires at + ROW_BYTES <= |bytes|
  {
    Row(CellAt(bytes, at), CellAt(bytes, at + 4), CellAt(bytes, at + 8), CellAt(bytes, at + 12), CellAt(bytes, at + 16))
  }

  /** The whole rows in a buffer; bytes after the last whole row are ignored. */
  ghost function Rows(bytes: Text): seq<Row> {
    seq(|bytes| / ROW_BYTES, k requires 0 <= k < |bytes| / ROW_BYTES => RowAt(bytes, k * ROW_BYTES))
  }

  ghost function Wire(rows: seq<Row>): (bytes: Text)
    ensures |bytes| == |rows| * ROW_BYTES
  {
    if rows == [] then [] else Wire(rows[..|rows| - 1]) + RowBytes(rows[|rows| - 1])
  }

  lemma {:induction false} RowRoundTrip(r: Row, before: Text)
    ensures RowAt(before + RowBytes(r), |before|) == r
  {
    var bytes := before + RowBytes(r);
    CellRoundTrip(r.symbol, before, Cell(r.start) + Cell(r.end) + Cell(r.flags) + Cell(r.field));
    assert bytes == before + Cell(r.symbol) + (Cell(r.start) + Cell(r.end) + Cell(r.flags) + Cell(r.field));
    var b1 := before + Cell(r.symbol);
    CellRoundTrip(r.start, b1, Cell(r.end) + Cell(r.flags) + Cell(r.field));
    assert bytes == b1 + Cell(r.start) + (Cell(r.end) + Cell(r.flags) + Cell(r.field));
    var b2 := b1 + Cell(r.start);
    CellRoundTrip(r.end, b2, Cell(r.flags) + Cell(r.field));
    assert bytes == b2 + Cell(r.end) + (Cell(r.flags) + Cell(r.field));
    var b3 := b2 + Cell(r.end);
    CellRoundTrip(r.flags, b3, Cell(r.field));
    assert bytes == b3 + Cell(r.flags) + Cell(r.field);
    var b4 := b3 + Cell(r.flags);
    CellRoundTrip(r.field, b4, []);
    assert bytes == b4 + Cell(r.field) + [];
  }

  lemma {:induction false} WireRoundTrip(rows: seq<Row>)
    ensures Rows(Wire(rows)) == rows
  {
    hide RowAt, RowBytes;
    if rows != [] {
      var init := rows[..|rows| - 1];
      WireRoundTrip(init);
      RowRoundTrip(rows[|rows| - 1], Wire(init));
      forall k | 0 <= k < |rows| ensures RowAt(Wire(rows), k * ROW_BYTES) == rows[k] {
        if k < |init| {
          assert Rows(Wire(init))[k] == init[k];
          SameRow(Wire(init), Wire(rows), k * ROW_BYTES);
        }
      }
    }
  }

  lemma {:induction false} SameRow(a: Text, b: Text, at: nat)
    requires at + ROW_BYTES <= |a| && a <= b
    ensures RowAt(a, at) == RowAt(b, at)
  {
    hide CellAt;
    forall k | 0 <= k < 5 ensures CellAt(a, at + 4 * k) == CellAt(b, at + 4 * k) {
      assert a[at + 4 * k..at + 4 * k + 4] == b[at + 4 * k..at + 4 * k + 4];
      SameCell(a, at + 4 * k, b, at + 4 * k);
    }
    assert CellAt(a, at + 4 * 0) == CellAt(b, at + 4 * 0) && CellAt(a, at + 4 * 1) == CellAt(b, at + 4 * 1);
    assert CellAt(a, at + 4 * 2) == CellAt(b, at + 4 * 2) && CellAt(a, at + 4 * 3) == CellAt(b, at + 4 * 3);
    assert CellAt(a, at + 4 * 4) == CellAt(b, at + 4 * 4);
  }

  // ----- Names

  datatype Names = Names(symbols: seq<Text>, fields: seq<Text>) {
    function Symbol(id: nat): Text { if id < |symbols| then symbols[id] else [] }
    function Field(id: nat): Text { if id < |fields| then fields[id] else [] }
  }

  /** What a node of the rebuilt tree carries besides its children. */
  datatype Info = Info(kind: Text, field: Text, start: nat, end: nat, named: bool, missing: bool, error: bool)

  function Clamp(x: nat, limit: nat): nat { if x < limit then x else limit }

  function Named(raw: Raw, table: Names, size: nat): Info {
    Info(table.Symbol(raw.symbol), table.Field(raw.field), Clamp(raw.start, size), Clamp(raw.end, size),
         raw.named, raw.missing, raw.error)
  }

  ghost function NamedEntries(es: seq<Entry<Raw>>, table: Names, size: nat): seq<Entry<Info>> {
    seq(|es|, i requires 0 <= i < |es| => Entry(es[i].depth, Named(es[i].info, table, size)))
  }

  ghost function NamedTree(t: Tree<Raw>, table: Names, size: nat): Tree<Info>
    decreases t, 1
  {
    Tree(Named(t.info, table, size), NamedForest(t.children, table, size))
  }

  ghost function NamedForest(ts: seq<Tree<Raw>>, table: Names, size: nat): seq<Tree<Info>>
    decreases ts, 0
  {
    if ts == [] then [] else [NamedTree(ts[0], table, size)] + NamedForest(ts[1..], table, size)
  }

  lemma {:induction false} NamedEntriesCommute(t: Tree<Raw>, depth: nat, table: Names, size: nat)
    ensures Entries(NamedTree(t, table, size), depth) == NamedEntries(Entries(t, depth), table, size)
    decreases t, 1
  {
    NamedForestCommute(t.children, depth + 1, table, size);
  }

  lemma {:induction false} NamedForestCommute(ts: seq<Tree<Raw>>, depth: nat, table: Names, size: nat)
    ensures Forest(NamedForest(ts, table, size), depth) == NamedEntries(Forest(ts, depth), table, size)
    decreases ts, 0
  {
    if ts != [] {
      NamedEntriesCommute(ts[0], depth, table, size);
      NamedForestCommute(ts[1..], depth, table, size);
      assert NamedForest(ts, table, size)[1..] == NamedForest(ts[1..], table, size);
      assert NamedEntries(Entries(ts[0], depth) + Forest(ts[1..], depth), table, size)
          == NamedEntries(Entries(ts[0], depth), table, size) + NamedEntries(Forest(ts[1..], depth), table, size);
    }
  }

  // ----- Nodes on the heap

  class Node {
    const info: Info
    var children: seq<Node>

    constructor (info: Info)
      ensures this.info == info && children == []
    {
      this.info, children := info, [];
    }
  }

  /** The heap below `n` spells the tree `t`. */
  ghost predicate Represents(n: Node, t: Tree<Info>, repr: set<Node>)
    reads repr
    decreases t
  {
    && n in repr && n.info == t.info && |n.children| == |t.children|
    && forall i :: 0 <= i < |t.children| ==> Represents(n.children[i], t.children[i], repr)
  }

  lemma {:induction false} LeafEntries(info: Info, depth: nat)
    ensures Entries(Tree(info, []), depth) == [Entry(depth, info)]
  {
  }

  /** The nodes in the order they were made: node `i` has the children `kids[i]`. */
  datatype Arena = Arena(infos: seq<Info>, kids: seq<seq<nat>>, parent: seq<nat>) {
    ghost predicate Valid() {
      && |infos| == |kids| == |parent|
      && (forall i, k :: 0 <= i < |kids| && 0 <= k < |kids[i]| ==> i < kids[i][k] < |kids| && parent[kids[i][k]] == i)
      && forall i, k, l :: 0 <= i < |kids| && 0 <= k < l < |kids[i]| ==> kids[i][k] < kids[i][l]
    }

    ghost function TreeAt(i: nat): Tree<Info>
      requires Valid() && i < |kids|
      decreases |kids| - i
    {
      Tree(infos[i], seq(|kids[i]|, k requires 0 <= k < |kids[i]| => TreeAt(kids[i][k])))
    }

    /** The arena after one more node, the last child of `p`. */
    ghost function Plus(p: nat, info: Info): Arena
      requires Valid() && p < |kids|
    {
      Arena(infos + [info], kids[p := kids[p] + [|kids|]] + [[]], parent + [p])
    }

    /** A path from the root that follows last children. */
    ghost predicate Spine(stack: seq<nat>)
      requires Valid()
    {
      && |stack| > 0 && stack[0] == 0
      && (forall k :: 0 <= k < |stack| ==> stack[k] < |kids|)
      && (forall k, l :: 0 <= k < l < |stack| ==> stack[k] < stack[l])
      && (forall k, l :: 0 <= k < |stack| && l == k + 1 < |stack| ==> LastChild(stack[k], stack[l]))
    }

    ghost predicate LastChild(p: nat, c: nat) {
      p < |kids| && c < |parent| && |kids[p]| > 0 && kids[p][|kids[p]| - 1] == c && parent[c] == p
    }

    lemma {:induction false} PlusKeepsOthers(stack: seq<nat>, info: Info, i: nat)
      requires Valid() && Spine(stack) && i < |kids| && i !in stack
      ensures Plus(stack[|stack| - 1], info).Valid()
      ensures Plus(stack[|stack| - 1], info).TreeAt(i) == TreeAt(i)
      decreases |kids| - i
    {
      var p := stack[|stack| - 1];
      forall k | 0 <= k < |kids[i]| ensures Plus(p, info).TreeAt(kids[i][k]) == TreeAt(kids[i][k]) {
        forall m | 0 <= m < |stack| ensures stack[m] != kids[i][k] {
          if m > 0 {
            assert LastChild(stack[m - 1], stack[m]);
          }
        }
        PlusKeepsOthers(stack, info, kids[i][k]);
      }
    }

    /** The end of a spine gains a leaf. */
    lemma {:induction false} TopGains(stack: seq<nat>, info: Info)
      requires Valid() && Spine(stack) && stack != []
      ensures Plus(stack[|stack| - 1], info).Valid()
      ensures Plus(stack[|stack| - 1], info).TreeAt(stack[|stack| - 1])
           == Tree(TreeAt(stack[|stack| - 1]).info, TreeAt(stack[|stack| - 1]).children + [Tree(info, [])])
    {
      hide Spine;
      var k := |stack| - 1;
      SpineAt(stack, k);
      var i := stack[k];
      var next := Plus(i, info);
      var was, now := TreeAt(i).children, next.TreeAt(i).children;
      forall j | 0 <= j < |was| ensures now[j] == was[j] {
        OffSpine(stack, k, j);
        PlusKeepsOthers(stack, info, kids[i][j]);
      }
      assert next.kids[i] == kids[i] + [|kids|];
      assert next.TreeAt(|kids|).children == [];
      assert now == was + [Tree(info, [])];
    }

    /** Further up a spine only the last child changes. */
    lemma {:induction false} BelowGains(stack: seq<nat>, info: Info, k: nat)
      requires Valid() && Spine(stack) && k < |stack| - 1
      ensures Plus(stack[|stack| - 1], info).Valid() && TreeAt(stack[k]).children != []
      ensures var was := TreeAt(stack[k]).children; var n := |was| - 1;
              was == was[..n] + [TreeAt(stack[k + 1])]
              && Plus(stack[|stack| - 1], info).TreeAt(stack[k])
              == Tree(TreeAt(stack[k]).info, was[..n] + [Plus(stack[|stack| - 1], info).TreeAt(stack[k + 1])])
    {
      hide Spine;
      SpineAt(stack, k);
      SpineAt(stack, |stack| - 1);
      var i := stack[k];
      var next := Plus(stack[|stack| - 1], info);
      var was, now := TreeAt(i).children, next.TreeAt(i).children;
      var n := |was| - 1;
      forall j | 0 <= j < n ensures now[j] == was[j] {
        OffSpine(stack, k, j);
        PlusKeepsOthers(stack, info, kids[i][j]);
      }
      assert next.kids[i] == kids[i];
      assert now == was[..n] + [now[n]] && was == was[..n] + [was[n]];
    }

    lemma {:induction false} SpineAt(stack: seq<nat>, k: nat)
      requires Valid() && Spine(stack) && k < |stack|
      ensures stack[k] < |kids|
      ensures k < |stack| - 1 ==>
        stack[k] < stack[|stack| - 1] && stack[k + 1] < |kids| && LastChild(stack[k], stack[k + 1])
    {
    }

    /** A node put last under the end of a spine comes last in the preorder. */
    lemma {:induction false} PlusAppends(stack: seq<nat>, info: Info, k: nat)
      requires Valid() && Spine(stack) && k < |stack|
      ensures Plus(stack[|stack| - 1], info).Valid()
      ensures Entries(Plus(stack[|stack| - 1], info).TreeAt(stack[k]), k)
           == Entries(TreeAt(stack[k]), k) + [Entry(|stack|, info)]
      decreases |stack| - k
    {
      hide Spine, Valid, TreeAt, LastChild, Forest;
      SpineAt(stack, k);
      SpineAt(stack, |stack| - 1);
      var next := Plus(stack[|stack| - 1], info);
      var was := TreeAt(stack[k]).children;
      if k == |stack| - 1 {
        TopGains(stack, info);
        LeafEntries(info, k + 1);
        ForestAppend(was, Tree(info, []), k + 1);
      } else {
        BelowGains(stack, info, k);
        var n := |was| - 1;
        var last, grown := TreeAt(stack[k + 1]), next.TreeAt(stack[k + 1]);
        PlusAppends(stack, info, k + 1);
        ForestAppend(was[..n], grown, k + 1);
        ForestAppend(was[..n], last, k + 1);
      }
    }

    lemma {:induction false} OffSpine(stack: seq<nat>, k: nat, j: nat)
      requires Valid() && Spine(stack) && k < |stack| && j < |kids[stack[k]]|
      requires k < |stack| - 1 ==> j < |kids[stack[k]]| - 1
      ensures kids[stack[k]][j] !in stack
    {
      forall m | 0 <= m < |stack| ensures stack[m] != kids[stack[k]][j] {
        if m > 0 {
          assert LastChild(stack[m - 1], stack[m]);
          assert stack[m - 1] == stack[k] ==> m - 1 == k;
        }
      }
    }
  }

  /** The nodes on the heap, in the order they were made, mirror an arena. */
  ghost predicate Mirrors(order: seq<Node>, a: Arena)
    reads order
  {
    && a.Valid() && |order| == |a.kids|
    && (forall i, j :: 0 <= i < j < |order| ==> order[i] != order[j])
    && forall i :: 0 <= i < |order| ==> MirrorsNode(order, a, i)
  }

  ghost predicate MirrorsNode(order: seq<Node>, a: Arena, i: nat)
    requires a.Valid() && i < |order| == |a.kids|
    reads order
  {
    && order[i].info == a.infos[i] && |order[i].children| == |a.kids[i]|
    && forall k :: 0 <= k < |a.kids[i]| ==> order[i].children[k] == order[a.kids[i][k]]
  }

  lemma {:induction false} MirrorRepresents(order: seq<Node>, a: Arena, i: nat, repr: set<Node>)
    requires Mirrors(order, a) && i < |order| && forall n :: n in order ==> n in repr
    ensures Represents(order[i], a.TreeAt(i), repr)
    decreases |order| - i
  {
    assert MirrorsNode(order, a, i);
    forall k | 0 <= k < |a.kids[i]| ensures Represents(order[i].children[k], a.TreeAt(a.kids[i][k]), repr) {
      MirrorRepresents(order, a, a.kids[i][k], repr);
    }
  }

  /** What the loop has built from `kept`: the arena, and the spine of open nodes. */
  ghost predicate Building(a: Arena, spine: seq<nat>, kept: seq<Entry<Info>>) {
    if kept == [] then a == Arena([], [], []) && spine == []
    else && a.Valid() && a.Spine(spine) && Entries(a.TreeAt(0), 0) == kept
         && |spine| == kept[|kept| - 1].depth + 1
  }

  lemma {:induction false} BuildingStep(a: Arena, spine: seq<nat>, kept: seq<Entry<Info>>, depth: nat, info: Info)
    returns (next: Arena, down: seq<nat>)
    requires Building(a, spine, kept) && 0 < depth <= |spine|
    ensures a.Valid() && spine[depth - 1] < |a.kids| && next == a.Plus(spine[depth - 1], info)
    ensures down == spine[..depth] + [|a.kids|]
    ensures Building(next, down, kept + [Entry(depth, info)])
  {
    hide Entries, Arena.TreeAt;
    var up := spine[..depth];
    SpineTake(a, spine, depth);
    a.SpineAt(up, depth - 1);
    a.PlusAppends(up, info, 0);
    next, down := a.Plus(up[depth - 1], info), up + [|a.kids|];
    SpineGrows(a, up, info);
  }

  lemma {:induction false} SpineTake(a: Arena, spine: seq<nat>, n: nat)
    requires a.Valid() && a.Spine(spine) && 0 < n <= |spine|
    ensures a.Spine(spine[..n])
  {
    hide Arena.Valid;
    var up := spine[..n];
    forall k, l | 0 <= k < |up| && l == k + 1 < |up| ensures a.LastChild(up[k], up[l]) {
      assert a.LastChild(spine[k], spine[l]);
    }
  }

  lemma {:induction false} SpineGrows(a: Arena, up: seq<nat>, info: Info)
    requires a.Valid() && a.Spine(up) && a.Plus(up[|up| - 1], info).Valid()
    ensures a.Plus(up[|up| - 1], info).Spine(up + [|a.kids|])
  {
    var next, down := a.Plus(up[|up| - 1], info), up + [|a.kids|];
    forall k, l | 0 <= k < |down| && l == k + 1 < |down| ensures next.LastChild(down[k], down[l]) {
      if l < |up| {
        assert a.LastChild(up[k], up[l]);
      }
    }
  }

  /** How the kept rows grow with one more row. */
  lemma {:induction false} KeptStep(rows: seq<Row>, r: Row, table: Names, size: nat)
    ensures var kept := NamedEntries(Kept(rows), table, size);
            var open := if kept == [] then 0 else kept[|kept| - 1].depth + 1;
            var e := Unpack(r);
            var info := Named(e.info, table, size);
            NamedEntries(Kept(rows + [r]), table, size) ==
              if 0 < e.depth <= open then kept + [Entry(e.depth, info)]
              else if open == 0 then [Entry(0, info)]
              else kept
  {
    KeptAppend(rows, r, 0);
    assert [r][1..] == [];
  }

  /** The open nodes on the stack are the nodes on the spine. */
  ghost predicate OnSpine(stack: seq<Node>, order: seq<Node>, spine: seq<nat>) {
    |spine| == |stack| && forall k :: 0 <= k < |stack| ==> spine[k] < |order| && stack[k] == order[spine[k]]
  }

  lemma {:induction false} BuildingNothing(table: Names, size: nat)
    ensures NamedEntries(Kept([]), table, size) == []
    ensures Building(Arena([], [], []), [], []) && Mirrors([], Arena([], [], [])) && OnSpine([], [], [])
  {}

  lemma {:induction false} BuildingRoot(n: Node)
    requires n.children == []
    ensures var a := Arena([n.info], [[]], [0]);
            Building(a, [0], [Entry(0, n.info)]) && Mirrors([n], a) && OnSpine([n], [n], [0])
  {
    var a := Arena([n.info], [[]], [0]);
    assert a.TreeAt(0).children == [];
  }

  method Attach(parent: Node, n: Node, ghost order: seq<Node>, ghost a: Arena, ghost p: nat, ghost next: Arena)
    requires Mirrors(order, a) && p < |order| && order[p] == parent && n !in order && n.children == []
    requires next == a.Plus(p, n.info) && next.Valid()
    modifies parent
    ensures Mirrors(order + [n], next)
  {
    parent.children := parent.children + [n];
    forall i | 0 <= i < |order| + 1 ensures MirrorsNode(order + [n], next, i) {
      if i < |order| {
        assert old(MirrorsNode(order, a, i));
      }
    }
  }

  /** A row below an open node: the stack is cut at its depth, the node becomes the last child
      of the new top and is pushed. */
  method Push(open: seq<Node>, depth: nat, n: Node, ghost order: seq<Node>, ghost a: Arena, ghost spine: seq<nat>,
      ghost kept: seq<Entry<Info>>)
    returns (stack: seq<Node>, ghost next: Arena, ghost down: seq<nat>)
    requires Mirrors(order, a) && OnSpine(open, order, spine) && Building(a, spine, kept) && 0 < depth <= |open|
    requires n !in order && n.children == []
    modifies order
    ensures Mirrors(order + [n], next) && OnSpine(stack, order + [n], down)
    ensures Building(next, down, kept + [Entry(depth, n.info)]) && |stack| == depth + 1
  {
    next, down := BuildingStep(a, spine, kept, depth, n.info);
    stack := open[..depth];
    Attach(stack[depth - 1], n, order, a, spine[depth - 1], next);
    stack := stack + [n];
  }

  lemma {:induction false} BuiltTree(order: seq<Node>, a: Arena, spine: seq<nat>, kept: seq<Entry<Info>>,
      repr: set<Node>)
    returns (t: Tree<Info>)
    requires kept != [] && Building(a, spine, kept) && Mirrors(order, a) && forall n :: n in order ==> n in repr
    ensures order != [] && Represents(order[0], t, repr) && Entries(t, 0) == kept
  {
    t := a.TreeAt(0);
    MirrorRepresents(order, a, 0, repr);
  }

  /** The preorder that bytes are rebuilt to. */
  ghost function Rebuilt(bytes: Text, table: Names, size: nat): seq<Entry<Info>> {
    NamedEntries(Kept(Rows(bytes)), table, size)
  }

  /** Bytes cut anywhere, in the middle of a row or not, are rebuilt to a prefix of the preorder. */
  lemma {:induction false} CutBytesRebuilt(bytes: Text, cut: nat, table: Names, size: nat)
    requires cut <= |bytes|
    ensures Rebuilt(bytes[..cut], table, size) <= Rebuilt(bytes, table, size)
  {
    hide Kept;
    CutRows(bytes, cut);
    var n := cut / ROW_BYTES;
    CutRowsKept(Rows(bytes), n);
    var some, all := Kept(Rows(bytes)[..n]), Kept(Rows(bytes));
    assert some == all[..|some|];
  }

  lemma {:induction false} CutRows(bytes: Text, cut: nat)
    requires cut <= |bytes|
    ensures cut / ROW_BYTES <= |Rows(bytes)| && Rows(bytes[..cut]) == Rows(bytes)[..cut / ROW_BYTES]
  {
    hide RowAt;
    var some := bytes[..cut];
    forall k | 0 <= k < cut / ROW_BYTES ensures RowAt(some, k * ROW_BYTES) == RowAt(bytes, k * ROW_BYTES) {
      SameRow(some, bytes, k * ROW_BYTES);
    }
  }

  /** Two trees built from the same bytes, one of them cut: its preorder is a prefix of the other's. */
  lemma {:induction false} CutTreeIsPrefix(bytes: Text, cut: nat, table: Names, size: nat, part: Tree<Info>,
      whole: Tree<Info>)
    requires cut <= |bytes|
    requires Entries(part, 0) == Rebuilt(bytes[..cut], table, size) && Entries(whole, 0) == Rebuilt(bytes, table, size)
    ensures Entries(part, 0) <= Entries(whole, 0)
    ensures part.info == whole.info
  {
    hide Rebuilt;
    CutBytesRebuilt(bytes, cut, table, size);
    assert Entries(part, 0)[0] == Entries(whole, 0)[0];
  }

  /** The tree on the heap has exactly the kept rows as its preorder; without rows there is none.
      Whatever shorter buffer the bytes are cut to is built to a prefix of it. */
  method Build(bytes: Text, table: Names, source: Text)
    returns (root: Node?, ghost tree: Option<Tree<Info>>, ghost repr: set<Node>)
    ensures root == null <==> |bytes| < ROW_BYTES
    ensures root != null ==> && tree.Some? && Represents(root, tree.value, repr) && fresh(repr)
                             && Entries(tree.value, 0) == Rebuilt(bytes, table, |source|)
    ensures root != null ==> forall cut: nat :: cut <= |bytes| ==>
      Rebuilt(bytes[..cut], table, |source|) <= Entries(tree.value, 0)
  {
    hide Building, Mirrors, OnSpine, Kept, NamedEntries;
    root, tree, repr := null, None, {};
    var stack: seq<Node> := [];
    ghost var order: seq<Node>, spine: seq<nat> := [], [];
    ghost var rows: seq<Row>, kept: seq<Entry<Info>> := [], [];
    ghost var a := Arena([], [], []);
    BuildingNothing(table, |source|);
    var at := 0;
    while at + ROW_BYTES <= |bytes|
      invariant at == |rows| * ROW_BYTES <= |bytes| && rows == Rows(bytes)[..|rows|]
      invariant kept == NamedEntries(Kept(rows), table, |source|)
      invariant Building(a, spine, kept) && (kept == [] <==> root == null) && (rows == [] <==> root == null)
      invariant Mirrors(order, a) && fresh(order) && OnSpine(stack, order, spine)
      invariant |stack| == if kept == [] then 0 else kept[|kept| - 1].depth + 1
      invariant root != null ==> order != [] && root == order[0]
    {
      var row := RowAt(bytes, at);
      assert row == Rows(bytes)[|rows|];
      KeptStep(rows, row, table, |source|);
      rows, at := rows + [row], at + ROW_BYTES;
      var e := Unpack(row);
      var n := new Node(Named(e.info, table, |source|));
      if e.depth == 0 || e.depth > |stack| {
        if root != null { continue; }
        root, stack := n, [n];
        order, a, spine, kept := [n], Arena([n.info], [[]], [0]), [0], [Entry(0, n.info)];
        BuildingRoot(n);
        continue;
      }
      stack, a, spine := Push(stack, e.depth, n, order, a, spine, kept);
      order, kept := order + [n], kept + [Entry(e.depth, n.info)];
    }
    assert rows == Rows(bytes);
    if root != null {
      repr := set n | n in order;
      ghost var t := BuiltTree(order, a, spine, kept, repr);
      tree := Some(t);
      forall cut: nat | cut <= |bytes| ensures Rebuilt(bytes[..cut], table, |source|) <= Entries(t, 0) {
        CutBytesRebuilt(bytes, cut, table, |source|);
      }
    }
  }

  lemma {:induction false} KeptShallow(rows: seq<Row>)
    ensures forall e :: e in Kept(rows) ==> e.depth < TWO29
  {
    KeptIsShallow(rows, 0);
  }

  /** The rebuilt tree is the flattened one, with its names looked up, exactly when the depth
      of the flattened tree fits in 29 bits.  `built` is what `Build` returns: any tree whose
      preorder is the rows kept from the wire. */
  lemma {:induction false} WireRebuildsIffShallow(t: Tree<Raw>, table: Names, size: nat, built: Tree<Info>)
    requires Entries(built, 0) == NamedEntries(Kept(Rows(Wire(PackAll(Entries(t, 0))))), table, size)
    ensures built == NamedTree(t, table, size) <==> Height(t) < TWO29
  {
    hide Entries, Height, Kept, PackAll, Rows, Wire, Named;
    var all := Entries(t, 0);
    WireRoundTrip(PackAll(all));
    NamedEntriesCommute(t, 0, table, size);
    if Height(t) < TWO29 {
      RoundTripIffShallow(t);
      EntriesInjective(built, NamedTree(t, table, size));
    } else {
      EntriesReach(t, 0);
      KeptShallow(PackAll(all));
      var e :| e in all && e.depth == Height(t);
      var i :| 0 <= i < |all| && all[i] == e;
      assert NamedEntries(all, table, size)[i].depth == Height(t);
      assert forall j :: 0 <= j < |Entries(built, 0)| ==> Kept(PackAll(all))[j] in Kept(PackAll(all));
    }
  }

  // ----- The name table

  ghost predicate NulFree(name: Text) { 0 !in name }

  /** Each name with its terminator. */
  ghost function Terminated(names: seq<Text>): Text {
    if names == [] then [] else names[0] + [0] + Terminated(names[1..])
  }

  ghost function NameTable(symbols: seq<Text>, fields: seq<Text>): Text
    requires |symbols| < TWO32 && |fields| < TWO32
  {
    Cell(|symbols|) + Cell(|fields|) + Terminated(symbols + fields)
  }

  /** Splitting at every zero byte, as `bytes.Split` does. */
  function Split(raw: Text): (parts: seq<Text>)
    ensures |parts| > 0
  {
    if raw == [] then [[]]
    else if raw[0] == 0 then [[]] + Split(raw[1..])
    else
      var rest := Split(raw[1..]);
      [[raw[0]] + rest[0]] + rest[1..]
  }

  datatype Parsed = Table(names: Names) | Short | Mismatch

  /** Field identifiers start at one, so the first field name is the empty one. */
  function ParseNames(raw: Text): Parsed {
    if |raw| < 8 then Short
    else
      var symbols: nat, fields: nat := CellAt(raw, 0), CellAt(raw, 4);
      var parts := Split(raw[8..]);
      if |parts| < symbols + fields then Mismatch
      else Table(Names(parts[..symbols], [[]] + parts[symbols..symbols + fields]))
  }

  lemma {:induction false} SplitName(name: Text, rest: Text)
    requires NulFree(name)
    ensures Split(name + [0] + rest) == [name] + Split(rest)
  {
    var raw := name + [0] + rest;
    if name == [] {
      assert raw[1..] == rest;
    } else {
      assert raw[1..] == name[1..] + [0] + rest;
      SplitName(name[1..], rest);
      assert name == [name[0]] + name[1..];
    }
  }

  lemma {:induction false} SplitTerminated(names: seq<Text>)
    requires forall i :: 0 <= i < |names| ==> NulFree(names[i])
    ensures Split(Terminated(names)) == names + [[]]
  {
    if names != [] {
      SplitTerminated(names[1..]);
      SplitName(names[0], Terminated(names[1..]));
    }
  }

  /** The reader gets back every name the writer wrote. */
  lemma {:induction false} NamesRoundTrip(symbols: seq<Text>, fields: seq<Text>)
    requires |symbols| < TWO32 && |fields| < TWO32
    requires forall i :: 0 <= i < |symbols| ==> NulFree(symbols[i])
    requires forall i :: 0 <= i < |fields| ==> NulFree(fields[i])
    ensures ParseNames(NameTable(symbols, fields)) == Table(Names(symbols, [[]] + fields))
  {
    var raw, names := NameTable(symbols, fields), symbols + fields;
    CellRoundTrip(|symbols|, [], Cell(|fields|) + Terminated(names));
    assert raw == [] + Cell(|symbols|) + (Cell(|fields|) + Terminated(names));
    CellRoundTrip(|fields|, Cell(|symbols|), Terminated(names));
    assert raw[8..] == Terminated(names);
    SplitTerminated(names);
    assert names[..|symbols|] == symbols && names[|symbols|..] == fields;
  }

  /** A node that is rebuilt is what the grammar and the parser say of it. */
  ghost predicate Tells(info: Info, raw: Raw, symbols: seq<Text>, fields: seq<Text>, size: nat) {
    && (raw.symbol < |symbols| ==> info.kind == symbols[raw.symbol])
    && (raw.field == 0 ==> info.field == []) && (0 < raw.field <= |fields| ==> info.field == fields[raw.field - 1])
    && (raw.end <= size && raw.start <= raw.end ==> info.start == raw.start && info.end == raw.end)
    && info.start <= size && info.end <= size
    && info.named == raw.named && info.missing == raw.missing && info.error == raw.error
  }

  /** From the rows and the name table as they are written, each node of a shallow tree comes back with the name of its
      symbol, the name of its field, its span and its flags. */
  lemma {:induction false} NodesComeBack(t: Tree<Raw>, symbols: seq<Text>, fields: seq<Text>, size: nat, k: nat)
    requires Height(t) < TWO29 && k < |Entries(t, 0)| && |symbols| < TWO32 && |fields| < TWO32
    requires forall i :: 0 <= i < |symbols| ==> NulFree(symbols[i])
    requires forall i :: 0 <= i < |fields| ==> NulFree(fields[i])
    ensures ParseNames(NameTable(symbols, fields)).Table?
    ensures var back := Rebuilt(Wire(PackAll(Entries(t, 0))), ParseNames(NameTable(symbols, fields)).names, size);
            && |back| == |Entries(t, 0)| && back[k].depth == Entries(t, 0)[k].depth
            && Tells(back[k].info, Entries(t, 0)[k].info, symbols, fields, size)
  {
    hide Entries, Height, Kept, PackAll, Rows, Wire, ParseNames, NameTable, Named, Tells;
    NamesRoundTrip(symbols, fields);
    WireRoundTrip(PackAll(Entries(t, 0)));
    RoundTripIffShallow(t);
    NamedTells(Entries(t, 0)[k].info, symbols, fields, size);
  }

  lemma {:induction false} NamedTells(raw: Raw, symbols: seq<Text>, fields: seq<Text>, size: nat)
    ensures Tells(Named(raw, Names(symbols, [[]] + fields), size), raw, symbols, fields, size)
  {
  }

  /** `append` of the shim: measures always, copies when there is a buffer. */
  method AppendName(name: Text, out: array?<Byte>, at: nat, ghost table: Text) returns (next: nat)
    requires at + |name| + 1 <= |table| && table[at..at + |name| + 1] == name + [0]
    requires out != null ==> out.Length == |table| && out[..at] == table[..at]
    modifies if out == null then {} else {out}
    ensures next == at + |name| + 1
    ensures out != null ==> out[..next] == table[..next]
  {
    var cell := name + [0];
    next := at + |cell|;
    assert forall j :: 0 <= j < |cell| ==> table[at + j] == table[at..next][j];
    if out != null {
      for j := 0 to |cell|
        invariant out[..at + j] == table[..at + j]
      {
        out[at + j] := cell[j];
      }
    }
  }

  /** One pass over the names: with no buffer it only measures, with a buffer of the measured
      size it fills that buffer exactly. */
  method WriteNames(symbols: seq<Text>, fields: seq<Text>, out: array?<Byte>) returns (size: nat)
    requires |symbols| < TWO32 && |fields| < TWO32
    requires out != null ==> out.Length == |NameTable(symbols, fields)|
    modifies if out == null then {} else {out}
    ensures size == |NameTable(symbols, fields)|
    ensures out != null ==> out[..] == NameTable(symbols, fields)
  {
    ghost var table := NameTable(symbols, fields);
    var header := Cell(|symbols|) + Cell(|fields|);
    size := 8;
    if out != null {
      for i := 0 to 8
        invariant out[..i] == header[..i]
      {
        out[i] := header[i];
      }
      assert table[..8] == header;
    }
    var names := symbols + fields;
    assert table[8..] == Terminated(names[0..]);
    for i := 0 to |names|
      invariant size <= |table| && table[size..] == Terminated(names[i..])
      invariant out != null ==> out[..size] == table[..size]
    {
      ghost var rest := table[size..];
      assert names[i..][1..] == names[i + 1..];
      assert rest == names[i] + [0] + Terminated(names[i + 1..]);
      assert table[size..size + |names[i]| + 1] == rest[..|names[i]| + 1];
      size := AppendName(names[i], out, size, table);
      assert table[size..] == rest[|names[i]| + 1..];
    }
  }
}
