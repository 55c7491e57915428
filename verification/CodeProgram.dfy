/** Lowered code units and the relations the tracer closes over
    (pkg/internal/code/model.go, pkg/internal/trace/program.go).

    Units, functions, statements and calls are named by their index. */
module CodeProgram {
  import opened Options

  datatype Span = Span(start: nat, end: nat)

  predicate Inside(s: Span, offset: nat) { s.start <= offset < s.end }

  function Size(s: Span): int { s.end - s.start }

  datatype Ref = Ref(name: string, span: Span)

  datatype Expr = Expr(span: Span, refs: seq<Ref>)

  datatype Arg = Arg(name: string, expr: Expr)

  datatype Call = Call(stmt: nat, span: Span, callee: string, receiver: string, args: seq<Arg>)

  datatype Stmt = Stmt(unit: nat, span: Span, scope: Option<nat>, binds: seq<string>, value: Expr, calls: seq<nat>,
    isReturn: bool)

  datatype Func = Func(name: string, params: seq<string>, span: Span, parent: Option<nat>, owner: nat)

  datatype Unit = Unit(path: string, shell: bool, imports: set<string>, stmts: seq<nat>)

  /** `constant` is the test for an all-capitals name; letter case is not modelled. */
  datatype Program = Program(units: seq<Unit>, funcs: seq<Func>, stmts: seq<Stmt>, calls: seq<Call>,
    constant: string -> bool) {
    /** Indices are in range, a statement is listed by its unit, a call by its statement,
        and a function follows the one around it. */
    ghost predicate Valid() {
      && (forall u, k :: 0 <= u < |units| && 0 <= k < |units[u].stmts| ==>
        units[u].stmts[k] < |stmts| && stmts[units[u].stmts[k]].unit == u)
      && (forall s :: 0 <= s < |stmts| ==>
        stmts[s].unit < |units| && (stmts[s].scope.Some? ==> stmts[s].scope.value < |funcs|))
      && (forall s, k :: 0 <= s < |stmts| && 0 <= k < |stmts[s].calls| ==>
            stmts[s].calls[k] < |calls| && calls[stmts[s].calls[k]].stmt == s)
      && (forall c :: 0 <= c < |calls| ==> calls[c].stmt < |stmts|)
      && (forall f :: 0 <= f < |funcs| ==>
        funcs[f].owner < |units| && (funcs[f].parent.Some? ==> funcs[f].parent.value < f))
    }

    predicate Within(f: Option<nat>, outer: Option<nat>)
      requires Valid() && (f.Some? ==> f.value < |funcs|)
      decreases if f.Some? then f.value + 1 else 0
    {
      if f == outer then true else if f.None? then false else Within(funcs[f.value].parent, outer)
    }

    /** The first function of a name. */
    function Named(name: string): Option<nat> { FirstNamed(name, 0) }

    function FirstNamed(name: string, from: nat): (f: Option<nat>)
      requires from <= |funcs|
      ensures f.Some? ==> from <= f.value < |funcs| && funcs[f.value].name == name && name != ""
      decreases |funcs| - from
    {
      if from == |funcs| || name == "" then None else if funcs[from].name == name then Some(from)
        else FirstNamed(name, from + 1)
    }

    function Target(callee: string): (f: Option<nat>)
      ensures f.Some? ==> f.value < |funcs|
    {
      Named(AfterDot(callee))
    }
  }

  /** What follows the last dot. */
  function AfterDot(s: string): string {
    if s == "" then "" else if '.' in s[1..] then AfterDot(s[1..]) else if s[0] == '.' then s[1..] else s
  }

  lemma {:induction false} AfterDotIs(s: string)
    ensures var r := AfterDot(s);
            '.' !in r && |r| <= |s| && s[|s| - |r|..] == r && (|r| < |s| ==> s[|s| - |r| - 1] == '.')
  {
    if s != "" && '.' in s[1..] {
      AfterDotIs(s[1..]);
    }
  }

  predicate Prefix(p: string, s: string) { p <= s }

  predicate Refers(e: Expr, name: string) { exists i :: 0 <= i < |e.refs| && e.refs[i].name == name }

  // ----- Lists in program order

  function Filter<T>(xs: seq<T>, keep: T -> bool): (r: seq<T>)
    ensures forall i :: 0 <= i < |r| ==> r[i] in xs && keep(r[i])
    ensures forall i :: 0 <= i < |xs| && keep(xs[i]) ==> xs[i] in r
  {
    if xs == [] then []
    else
      var n := |xs| - 1;
      Filter(xs[..n], keep) + if keep(xs[n]) then [xs[n]] else []
  }

  lemma {:induction false} FilterAppend<T>(xs: seq<T>, ys: seq<T>, keep: T -> bool)
    ensures Filter(xs + ys, keep) == Filter(xs, keep) + Filter(ys, keep)
    decreases |ys|
  {
    if ys == [] {
      assert xs + ys == xs;
    } else {
      var n := |ys| - 1;
      assert (xs + ys)[..|xs + ys| - 1] == xs + ys[..n];
      FilterAppend(xs, ys[..n], keep);
    }
  }

  lemma {:induction false} FilterNone<T>(xs: seq<T>, keep: T -> bool)
    requires forall i :: 0 <= i < |xs| ==> !keep(xs[i])
    ensures Filter(xs, keep) == []
  {
    if xs != [] {
      FilterNone(xs[..|xs| - 1], keep);
    }
  }

  lemma {:induction false} FilterNext<T>(xs: seq<T>, k: nat, keep: T -> bool)
    requires k < |xs|
    ensures Filter(xs[..k + 1], keep) == Filter(xs[..k], keep) + if keep(xs[k]) then [xs[k]] else []
  {
    assert xs[..k + 1][..k] == xs[..k];
  }

  lemma {:induction false} FilterWhole<T>(xs: seq<T>, keep: T -> bool)
    ensures Filter(xs[..|xs|], keep) == Filter(xs, keep)
  {
    assert xs[..|xs|] == xs;
  }

  /** The statements of the first `n` units. */
  function StmtsTo(p: Program, n: nat): (r: seq<nat>)
    requires p.Valid() && n <= |p.units|
    ensures forall i :: 0 <= i < |r| ==> r[i] < |p.stmts|
  {
    if n == 0 then [] else StmtsTo(p, n - 1) + p.units[n - 1].stmts
  }

  function AllStmts(p: Program): (r: seq<nat>)
    requires p.Valid()
    ensures forall i :: 0 <= i < |r| ==> r[i] < |p.stmts|
  {
    StmtsTo(p, |p.units|)
  }

  // ----- Users of a name

  predicate Wide(p: Program, name: string, def: nat)
    requires p.Valid() && def < |p.stmts|
  {
    p.stmts[def].scope.None? || p.units[p.stmts[def].unit].shell || Prefix("self.", name) || Prefix("this.", name)
  }

  predicate Shares(p: Program, other: nat, home: nat, name: string)
    requires other < |p.units| && home < |p.units|
  {
    p.units[other].path == p.units[home].path || name in p.units[other].imports || p.constant(name)
  }

  /** A unit that binds the name at its top level. */
  predicate BindsName(p: Program, u: nat, name: string)
    requires p.Valid() && u < |p.units|
  {
    exists k :: 0 <= k < |p.units[u].stmts| && p.stmts[p.units[u].stmts[k]].scope.None?
      && name in p.stmts[p.units[u].stmts[k]].binds
  }

  predicate After(p: Program, st: nat, def: nat)
    requires p.Valid() && st < |p.stmts| && def < |p.stmts|
  {
    p.stmts[st].scope.Some? && p.Within(p.stmts[st].scope, p.stmts[def].scope)
      && p.stmts[st].span.start > p.stmts[def].span.start
  }

  predicate Reaches(p: Program, name: string, def: nat, u: nat)
    requires p.Valid() && def < |p.stmts| && u < |p.units|
  {
    u == p.stmts[def].unit || (Wide(p, name, def) && Shares(p, u, p.stmts[def].unit, name) && !BindsName(p, u, name))
  }

  /** Whether `st` uses the name that `def` binds. */
  predicate Uses(p: Program, name: string, def: nat, st: nat)
    requires p.Valid() && def < |p.stmts|
  {
    && st < |p.stmts| && Reaches(p, name, def, p.stmts[st].unit)
    && st != def && Refers(p.stmts[st].value, name) && (Wide(p, name, def) || After(p, st, def))
  }

  function Using(p: Program, name: string, def: nat): nat -> bool
    requires p.Valid() && def < |p.stmts|
  {
    (st: nat) => Uses(p, name, def, st)
  }

  function UsersOf(p: Program, name: string, def: nat): (r: seq<nat>)
    requires p.Valid() && def < |p.stmts|
    ensures forall i :: 0 <= i < |r| ==> r[i] < |p.stmts| && Uses(p, name, def, r[i])
  {
    Filter(AllStmts(p), Using(p, name, def))
  }

  lemma {:induction false} UnitStmts(p: Program, u: nat)
    requires p.Valid() && u < |p.units|
    ensures forall k :: 0 <= k < |p.units[u].stmts| ==>
      p.units[u].stmts[k] < |p.stmts| && p.stmts[p.units[u].stmts[k]].unit == u
  {
  }

  method Users(p: Program, name: string, def: nat) returns (out: seq<nat>)
    requires p.Valid() && def < |p.stmts|
    ensures out == UsersOf(p, name, def)
  {
    hide Uses, Program.Valid;
    out := [];
    ghost var keep := Using(p, name, def);
    for u := 0 to |p.units|
      invariant out == Filter(StmtsTo(p, u), keep)
    {
      FilterAppend(StmtsTo(p, u), p.units[u].stmts, keep);
      var more := UsersIn(p, name, def, u);
      out := out + more;
    }
  }

  method UsersIn(p: Program, name: string, def: nat, u: nat) returns (out: seq<nat>)
    requires p.Valid() && def < |p.stmts| && u < |p.units|
    ensures out == Filter(p.units[u].stmts, Using(p, name, def))
  {
    hide Wide, Shares, BindsName, After, Refers, Program.Valid;
    out := [];
    var global := Wide(p, name, def);
    var home := p.stmts[def].unit;
    var stmts := p.units[u].stmts;
    ghost var keep := Using(p, name, def);
    UnitStmts(p, u);
    HomeUnit(p, def);
    if u != home && (!global || !Shares(p, u, home, name) || BindsName(p, u, name)) {
      FilterNone(stmts, keep);
      return;
    }
    for k := 0 to |stmts|
      invariant out == Filter(stmts[..k], keep)
    {
      assert stmts[..k + 1][..k] == stmts[..k];
      var st := stmts[k];
      if st != def && Refers(p.stmts[st].value, name) && (global || After(p, st, def)) {
        out := out + [st];
      }
    }
    assert stmts[..|stmts|] == stmts;
  }

  lemma {:induction false} HomeUnit(p: Program, st: nat)
    requires p.Valid() && st < |p.stmts|
    ensures p.stmts[st].unit < |p.units|
  {
  }

  // ----- Definitions

  predicate Visible(p: Program, st: nat, at: nat)
    requires p.Valid() && st < |p.stmts| && at < |p.stmts|
  {
    || p.units[p.stmts[at].unit].shell || p.stmts[st].scope.None?
    || (p.stmts[at].scope.Some? && p.Within(p.stmts[at].scope, p.stmts[st].scope))
  }

  predicate Before(p: Program, st: nat, at: nat)
    requires st < |p.stmts| && at < |p.stmts|
  {
    p.stmts[st].span.start < p.stmts[at].span.start
  }

  /** A binding of the name that `at` may see, above it or at the top level. */
  predicate Binding(p: Program, name: string, at: nat, st: nat)
    requires p.Valid() && st < |p.stmts| && at < |p.stmts|
  {
    st != at && name in p.stmts[st].binds && Visible(p, st, at) && (Before(p, st, at) || p.stmts[st].scope.None?)
  }

  /** The last binding above, or else the first one. */
  ghost predicate LocalAt(p: Program, name: string, at: nat, stmts: seq<nat>, i: nat)
    requires p.Valid() && at < |p.stmts| && i < |stmts| && forall k :: 0 <= k < |stmts| ==> stmts[k] < |p.stmts|
  {
    && Binding(p, name, at, stmts[i])
    && (forall k :: 0 <= k < |stmts| && Binding(p, name, at, stmts[k]) && Before(p, stmts[k], at) ==>
      Before(p, stmts[i], at) && k <= i)
    && (!Before(p, stmts[i], at) ==> forall k :: 0 <= k < i ==> !Binding(p, name, at, stmts[k]))
  }

  ghost predicate IsLocal(p: Program, name: string, at: nat, stmts: seq<nat>, best: Option<nat>)
    requires p.Valid() && at < |p.stmts| && forall k :: 0 <= k < |stmts| ==> stmts[k] < |p.stmts|
  {
    match best
    case None => forall k :: 0 <= k < |stmts| ==> !Binding(p, name, at, stmts[k])
    case Some(st) => exists i :: 0 <= i < |stmts| && stmts[i] == st && LocalAt(p, name, at, stmts, i)
  }

  function LocalOf(p: Program, name: string, at: nat, stmts: seq<nat>): (best: Option<nat>)
    requires p.Valid() && at < |p.stmts| && forall k :: 0 <= k < |stmts| ==> stmts[k] < |p.stmts|
    ensures best.Some? ==> best.value < |p.stmts|
  {
    if stmts == [] then None
    else
      var n := |stmts| - 1;
      var best := LocalOf(p, name, at, stmts[..n]);
      if Binding(p, name, at, stmts[n]) && (best.None? || Before(p, stmts[n], at)) then Some(stmts[n]) else best
  }

  lemma {:induction false} LocalKept(p: Program, name: string, at: nat, stmts: seq<nat>, i: nat)
    requires p.Valid() && at < |p.stmts| && i < |stmts| - 1 && forall k :: 0 <= k < |stmts| ==> stmts[k] < |p.stmts|
    requires LocalAt(p, name, at, stmts[..|stmts| - 1], i)
    requires !Binding(p, name, at, stmts[|stmts| - 1]) || !Before(p, stmts[|stmts| - 1], at)
    ensures LocalAt(p, name, at, stmts, i)
  {
    hide Binding, Before, Program.Valid;
    var n := |stmts| - 1;
    assert forall k :: 0 <= k < n ==> stmts[..n][k] == stmts[k];
  }

  lemma {:induction false} LocalIs(p: Program, name: string, at: nat, stmts: seq<nat>)
    requires p.Valid() && at < |p.stmts| && forall k :: 0 <= k < |stmts| ==> stmts[k] < |p.stmts|
    ensures IsLocal(p, name, at, stmts, LocalOf(p, name, at, stmts))
  {
    hide Binding, Before, LocalAt, Program.Valid;
    if stmts != [] {
      var n := |stmts| - 1;
      LocalIs(p, name, at, stmts[..n]);
      var was := LocalOf(p, name, at, stmts[..n]);
      if Binding(p, name, at, stmts[n]) && (was.None? || Before(p, stmts[n], at)) {
        LocalNew(p, name, at, stmts);
      } else if was.Some? {
        var i :| 0 <= i < n && stmts[..n][i] == was.value && LocalAt(p, name, at, stmts[..n], i);
        LocalKept(p, name, at, stmts, i);
      } else {
        assert forall k :: 0 <= k < n ==> stmts[..n][k] == stmts[k];
      }
    }
  }

  lemma {:induction false} LocalNew(p: Program, name: string, at: nat, stmts: seq<nat>)
    requires p.Valid() && at < |p.stmts| && stmts != [] && forall k :: 0 <= k < |stmts| ==> stmts[k] < |p.stmts|
    requires Binding(p, name, at, stmts[|stmts| - 1])
    requires IsLocal(p, name, at, stmts[..|stmts| - 1], None) || Before(p, stmts[|stmts| - 1], at)
    ensures LocalAt(p, name, at, stmts, |stmts| - 1)
  {
    hide Binding, Before, Program.Valid;
    var n := |stmts| - 1;
    assert forall k :: 0 <= k < n ==> stmts[..n][k] == stmts[k];
  }

  method Local(p: Program, name: string, at: nat) returns (best: Option<nat>)
    requires p.Valid() && at < |p.stmts|
    ensures best == LocalOf(p, name, at, p.units[p.stmts[at].unit].stmts)
    ensures IsLocal(p, name, at, p.units[p.stmts[at].unit].stmts, best)
  {
    hide IsLocal;
    best := None;
    var stmts := p.units[p.stmts[at].unit].stmts;
    for k := 0 to |stmts|
      invariant best == LocalOf(p, name, at, stmts[..k])
    {
      assert stmts[..k + 1][..k] == stmts[..k];
      var st := stmts[k];
      if st == at || name !in p.stmts[st].binds {
        continue;
      }
      var before := p.stmts[st].span.start < p.stmts[at].span.start;
      if Visible(p, st, at) && (before || p.stmts[st].scope.None?) && (best.None? || before) {
        best := Some(st);
      }
    }
    assert stmts[..|stmts|] == stmts;
    LocalIs(p, name, at, stmts);
  }

  /** A top-level binding in another unit that shares the name with `at`. */
  predicate Foreign(p: Program, name: string, at: nat, st: nat)
    requires p.Valid() && at < |p.stmts|
  {
    && st < |p.stmts| && p.stmts[st].unit != p.stmts[at].unit && Shares(p, p.stmts[st].unit, p.stmts[at].unit, name)
    && p.stmts[st].scope.None? && name in p.stmts[st].binds
  }

  function Abroad(p: Program, name: string, at: nat): nat -> bool
    requires p.Valid() && at < |p.stmts|
  {
    (st: nat) => Foreign(p, name, at, st)
  }

  function First<T>(xs: seq<T>): Option<T> { if xs == [] then None else Some(xs[0]) }

  function DefinitionOf(p: Program, name: string, at: nat): (def: Option<nat>)
    requires p.Valid() && at < |p.stmts|
    ensures def.Some? ==> def.value < |p.stmts|
  {
    var best := LocalOf(p, name, at, p.units[p.stmts[at].unit].stmts);
    if best.Some? then best else First(Filter(AllStmts(p), Abroad(p, name, at)))
  }

  method Definition(p: Program, name: string, at: nat) returns (def: Option<nat>)
    requires p.Valid() && at < |p.stmts|
    ensures def == DefinitionOf(p, name, at)
  {
    hide Foreign, Abroad, Program.Valid, LocalOf, IsLocal, Filter;
    HomeUnit(p, at);
    def := Local(p, name, at);
    if def.Some? {
      return;
    }
    ghost var keep := Abroad(p, name, at);
    NothingTo(p, keep);
    for u := 0 to |p.units|
      invariant def.None? && Filter(StmtsTo(p, u), keep) == []
    {
      FilterAppend(StmtsTo(p, u), p.units[u].stmts, keep);
      def := ForeignIn(p, name, at, u);
      if def.Some? {
        FirstOfTo(p, u + 1, keep, def.value);
        return;
      }
    }
  }

  method ForeignIn(p: Program, name: string, at: nat, u: nat) returns (def: Option<nat>)
    requires p.Valid() && at < |p.stmts| && u < |p.units|
    ensures def == First(Filter(p.units[u].stmts, Abroad(p, name, at)))
  {
    hide Shares, Program.Valid, Filter;
    var home, stmts := p.stmts[at].unit, p.units[u].stmts;
    ghost var keep := Abroad(p, name, at);
    UnitStmts(p, u);
    HomeUnit(p, at);
    if u == home || !Shares(p, u, home, name) {
      FilterNone(stmts, keep);
      return None;
    }
    FilterNone(stmts[..0], keep);
    for k := 0 to |stmts|
      invariant Filter(stmts[..k], keep) == []
    {
      FilterNext(stmts, k, keep);
      if p.stmts[stmts[k]].scope.None? && name in p.stmts[stmts[k]].binds {
        FirstStays(stmts, k + 1, keep);
        return Some(stmts[k]);
      }
    }
    FilterWhole(stmts, keep);
    return None;
  }

  lemma {:induction false} FirstStays<T>(xs: seq<T>, k: nat, keep: T -> bool)
    requires k <= |xs| && Filter(xs[..k], keep) != []
    ensures First(Filter(xs, keep)) == First(Filter(xs[..k], keep))
  {
    hide Filter;
    assert xs == xs[..k] + xs[k..];
    FilterAppend(xs[..k], xs[k..], keep);
  }

  lemma {:induction false} NothingTo(p: Program, keep: nat -> bool)
    requires p.Valid()
    ensures Filter(StmtsTo(p, 0), keep) == []
  {
  }

  /** What is first among the first units is first among all. */
  lemma {:induction false} FirstOfTo(p: Program, n: nat, keep: nat -> bool, first: nat)
    requires p.Valid() && n <= |p.units| && First(Filter(StmtsTo(p, n), keep)) == Some(first)
    ensures First(Filter(AllStmts(p), keep)) == Some(first)
    decreases |p.units| - n
  {
    hide Filter, Program.Valid;
    if n < |p.units| {
      FilterAppend(StmtsTo(p, n), p.units[n].stmts, keep);
      FirstOfTo(p, n + 1, keep, first);
    }
  }

  // ----- Uses and definitions agree

  /** `def` is listed, and no other statement binds the name. */
  ghost predicate OnlyBinding(p: Program, name: string, def: nat)
    requires p.Valid() && def < |p.stmts|
  {
    && name in p.stmts[def].binds && def in p.units[p.stmts[def].unit].stmts
    && forall st :: 0 <= st < |p.stmts| && name in p.stmts[st].binds ==> st == def
  }

  lemma {:induction false} InAllStmts(p: Program, u: nat, n: nat, st: nat)
    requires p.Valid() && u < n <= |p.units| && st in p.units[u].stmts
    ensures st in StmtsTo(p, n)
    decreases n
  {
    if u < n - 1 {
      InAllStmts(p, u, n - 1, st);
    }
  }

  lemma {:induction false} OnlyLocal(p: Program, name: string, def: nat, st: nat)
    requires p.Valid() && def < |p.stmts| && st < |p.stmts| && OnlyBinding(p, name, def)
    ensures LocalOf(p, name, st, p.units[p.stmts[st].unit].stmts)
         == if p.stmts[st].unit == p.stmts[def].unit && Binding(p, name, st, def) then Some(def) else None
  {
    hide Visible, Before, LocalOf;
    var stmts := p.units[p.stmts[st].unit].stmts;
    LocalIs(p, name, st, stmts);
    UnitStmts(p, p.stmts[st].unit);
    if p.stmts[st].unit == p.stmts[def].unit {
      var k :| 0 <= k < |stmts| && stmts[k] == def;
    }
  }

  lemma {:induction false} OnlyAbroad(p: Program, name: string, def: nat, st: nat)
    requires p.Valid() && def < |p.stmts| && st < |p.stmts| && OnlyBinding(p, name, def)
    ensures First(Filter(AllStmts(p), Abroad(p, name, st))) == if Foreign(p, name, st, def) then Some(def) else None
  {
    hide Shares;
    HomeUnit(p, def);
    InAllStmts(p, p.stmts[def].unit, |p.units|, def);
    var out := Filter(AllStmts(p), Abroad(p, name, st));
    assert forall i :: 0 <= i < |out| ==> out[i] == def;
    if Foreign(p, name, st, def) {
      var k :| 0 <= k < |AllStmts(p)| && AllStmts(p)[k] == def;
      assert def in out;
    }
  }

  /** The walks agree: of a name with one binding, not imported, a statement that refers to it is a user
      exactly when the binding is its definition there. In the shell, and for fields of `self` and
      `this`, the binding is at the top level. */
  lemma {:induction false} UsesIffDefined(p: Program, name: string, def: nat, st: nat)
    requires p.Valid() && def < |p.stmts| && st < |p.stmts| && st != def && OnlyBinding(p, name, def)
    requires Refers(p.stmts[st].value, name)
    requires name !in p.units[p.stmts[def].unit].imports && name !in p.units[p.stmts[st].unit].imports
    requires p.stmts[def].scope.Some? ==>
      !p.units[p.stmts[def].unit].shell && !Prefix("self.", name) && !Prefix("this.", name)
    ensures Uses(p, name, def, st) <==> DefinitionOf(p, name, st) == Some(def)
  {
    hide LocalOf, Filter, Abroad, Prefix, Program.Within, AllStmts;
    HomeUnit(p, def);
    HomeUnit(p, st);
    OnlyLocal(p, name, def, st);
    OnlyAbroad(p, name, def, st);
    if p.stmts[st].unit != p.stmts[def].unit {
      UnitStmts(p, p.stmts[st].unit);
      assert !BindsName(p, p.stmts[st].unit, name);
    }
  }

  // ----- Parameters

  function IndexOf(names: seq<string>, name: string): (i: nat)
    ensures i <= |names| && (i < |names| ==> names[i] == name) && (forall j :: 0 <= j < i ==> names[j] != name)
  {
    if names == [] then 0 else if names[0] == name then 0 else 1 + IndexOf(names[1..], name)
  }

  /** The innermost function around that has the parameter, and where. */
  function ParamFrom(p: Program, f: Option<nat>, name: string): (r: Option<(nat, nat)>)
    requires p.Valid() && (f.Some? ==> f.value < |p.funcs|)
    ensures r.Some? ==>
      r.value.0 < |p.funcs| && r.value.1 < |p.funcs[r.value.0].params| && p.funcs[r.value.0].params[r.value.1] == name
    decreases if f.Some? then f.value + 1 else 0
  {
    if f.None? then None
    else
      var i := IndexOf(p.funcs[f.value].params, name);
      if i < |p.funcs[f.value].params| then Some((f.value, i)) else ParamFrom(p, p.funcs[f.value].parent, name)
  }

  method Param(p: Program, name: string, at: nat) returns (r: Option<(nat, nat)>)
    requires p.Valid() && at < |p.stmts|
    ensures r == ParamFrom(p, p.stmts[at].scope, name)
  {
    var f: Option<nat> := p.stmts[at].scope;
    while f.Some?
      invariant f.Some? ==> f.value < |p.funcs|
      invariant ParamFrom(p, f, name) == ParamFrom(p, p.stmts[at].scope, name)
      decreases if f.Some? then f.value + 1 else 0
    {
      var i := IndexOf(p.funcs[f.value].params, name);
      if i < |p.funcs[f.value].params| {
        return Some((f.value, i));
      }
      f := p.funcs[f.value].parent;
    }
    return None;
  }

  // ----- Call sites

  const MAX_CALL_SITES := 3

  function CallsOf(p: Program, stmts: seq<nat>): (r: seq<nat>)
    requires p.Valid() && forall k :: 0 <= k < |stmts| ==> stmts[k] < |p.stmts|
    ensures forall i :: 0 <= i < |r| ==> r[i] < |p.calls|
  {
    if stmts == [] then [] else CallsOf(p, stmts[..|stmts| - 1]) + p.stmts[stmts[|stmts| - 1]].calls
  }

  lemma {:induction false} CallsOfAppend(p: Program, xs: seq<nat>, ys: seq<nat>)
    requires p.Valid() && (forall k :: 0 <= k < |xs| ==> xs[k] < |p.stmts|)
      && (forall k :: 0 <= k < |ys| ==> ys[k] < |p.stmts|)
    ensures CallsOf(p, xs + ys) == CallsOf(p, xs) + CallsOf(p, ys)
    decreases |ys|
  {
    if ys == [] {
      assert xs + ys == xs;
    } else {
      var n := |ys| - 1;
      assert (xs + ys)[..|xs + ys| - 1] == xs + ys[..n];
      CallsOfAppend(p, xs, ys[..n]);
    }
  }

  function AtMost(n: nat, xs: seq<nat>): seq<nat> { if |xs| <= n then xs else xs[..n] }

  function Calling(p: Program, f: nat): nat -> bool {
    (c: nat) => c < |p.calls| && p.Target(p.calls[c].callee) == Some(f)
  }

  /** The first three calls of a named function, in program order. */
  function CallSitesOf(p: Program, f: nat): (r: seq<nat>)
    requires p.Valid() && f < |p.funcs|
    ensures |r| <= MAX_CALL_SITES && forall i :: 0 <= i < |r| ==>
      r[i] < |p.calls| && p.Target(p.calls[r[i]].callee) == Some(f)
  {
    if p.funcs[f].name == "" then [] else SitesOf(p, f, AllStmts(p))
  }

  method CallSites(p: Program, f: nat) returns (out: seq<nat>)
    requires p.Valid() && f < |p.funcs|
    ensures out == CallSitesOf(p, f)
  {
    hide Program.Target, Program.Valid, Filter, Calling, AtMost, CallsOf, StmtsTo;
    out := [];
    if p.funcs[f].name == "" {
      return;
    }
    NoSites(p, f);
    for u := 0 to |p.units|
      invariant out == SitesOf(p, f, StmtsTo(p, u))
    {
      ghost var before := StmtsTo(p, u);
      var stmts := p.units[u].stmts;
      UnitStmts(p, u);
      assert before + stmts[..0] == before;
      for k := 0 to |stmts|
        invariant out == SitesOf(p, f, before + stmts[..k])
      {
        assert before + stmts[..k + 1] == (before + stmts[..k]) + [stmts[k]];
        CallsOfOne(p, before + stmts[..k], stmts[k]);
        out := SitesIn(p, f, stmts[k], CallsOf(p, before + stmts[..k]), out);
      }
      assert before + stmts[..|stmts|] == before + stmts;
      StmtsNext(p, u);
    }
  }

  lemma {:induction false} StmtsNext(p: Program, u: nat)
    requires p.Valid() && u < |p.units|
    ensures StmtsTo(p, u + 1) == StmtsTo(p, u) + p.units[u].stmts
  {
  }

  lemma {:induction false} NoSites(p: Program, f: nat)
    requires p.Valid()
    ensures SitesOf(p, f, StmtsTo(p, 0)) == []
  {
  }

  lemma {:induction false} CallsOfOne(p: Program, xs: seq<nat>, st: nat)
    requires p.Valid() && (forall k :: 0 <= k < |xs| ==> xs[k] < |p.stmts|) && st < |p.stmts|
    ensures CallsOf(p, xs + [st]) == CallsOf(p, xs) + p.stmts[st].calls
  {
    assert (xs + [st])[..|xs|] == xs;
  }

  function SitesOf(p: Program, f: nat, stmts: seq<nat>): seq<nat>
    requires p.Valid() && forall k :: 0 <= k < |stmts| ==> stmts[k] < |p.stmts|
  {
    AtMost(MAX_CALL_SITES, Filter(CallsOf(p, stmts), Calling(p, f)))
  }

  lemma {:induction false} AtMostNext(n: nat, xs: seq<nat>, x: nat)
    ensures AtMost(n, xs + [x]) == if |AtMost(n, xs)| < n then AtMost(n, xs) + [x] else AtMost(n, xs)
    ensures AtMost(n, xs + []) == AtMost(n, xs)
  {
    assert xs + [] == xs;
  }

  /** Adds the calls of one statement while there is room. */
  method SitesIn(p: Program, f: nat, st: nat, ghost before: seq<nat>, sites: seq<nat>) returns (out: seq<nat>)
    requires p.Valid() && f < |p.funcs| && st < |p.stmts|
      && sites == AtMost(MAX_CALL_SITES, Filter(before, Calling(p, f)))
    ensures out == AtMost(MAX_CALL_SITES, Filter(before + p.stmts[st].calls, Calling(p, f)))
  {
    hide Program.Target, Filter, AtMost;
    var calls := p.stmts[st].calls;
    StmtCalls(p, st);
    out := sites;
    ghost var all := before + calls;
    assert all[..|before|] == before;
    for k := 0 to |calls|
      invariant out == AtMost(MAX_CALL_SITES, Filter(all[..|before| + k], Calling(p, f)))
    {
      FilterNext(all, |before| + k, Calling(p, f));
      AtMostNext(MAX_CALL_SITES, Filter(all[..|before| + k], Calling(p, f)), calls[k]);
      if p.Target(p.calls[calls[k]].callee) == Some(f) && |out| < MAX_CALL_SITES {
        out := out + [calls[k]];
      }
    }
    assert all[..|before| + |calls|] == all;
  }

  lemma {:induction false} StmtCalls(p: Program, st: nat)
    requires p.Valid() && st < |p.stmts|
    ensures forall k :: 0 <= k < |p.stmts[st].calls| ==>
      p.stmts[st].calls[k] < |p.calls| && p.calls[p.stmts[st].calls[k]].stmt == st
  {
  }

  // ----- Arguments

  predicate IsNamed(a: Arg) { a.name != "" && !Prefix("-", a.name) }

  function Positional(args: seq<Arg>): nat {
    if args == [] then 0 else Positional(args[..|args| - 1]) + if IsNamed(args[|args| - 1]) then 0 else 1
  }

  function Offset(f: Func): nat { if |f.params| > 0 && (f.params[0] == "self" || f.params[0] == "cls") then 1 else 0 }

  /** Whether an argument is the one for a parameter: by its name, or by its place among the unnamed ones. */
  predicate Fits(c: Call, f: Func, index: nat, i: nat)
    requires index < |f.params| && i < |c.args|
  {
    if IsNamed(c.args[i]) then c.args[i].name == f.params[index] else Positional(c.args[..i]) == index - Offset(f)
  }

  ghost predicate FirstFit(c: Call, f: Func, index: nat, r: Option<nat>)
    requires index < |f.params|
  {
    && (r.Some? ==> r.value < |c.args| && Fits(c, f, index, r.value))
    && forall i :: 0 <= i < (if r.Some? then r.value else |c.args|) && i < |c.args| ==> !Fits(c, f, index, i)
  }

  function ArgumentOf(c: Call, f: Func, index: nat): (r: Option<nat>)
    requires index < |f.params|
    ensures FirstFit(c, f, index, r)
  {
    FitFrom(c, f, index, 0)
  }

  function FitFrom(c: Call, f: Func, index: nat, from: nat): (r: Option<nat>)
    requires index < |f.params| && from <= |c.args|
    ensures r.Some? ==> from <= r.value < |c.args| && Fits(c, f, index, r.value)
    ensures forall i :: from <= i < (if r.Some? then r.value else |c.args|) ==> !Fits(c, f, index, i)
    decreases |c.args| - from
  {
    if from == |c.args| then None else if Fits(c, f, index, from) then Some(from) else FitFrom(c, f, index, from + 1)
  }

  lemma {:induction false} FirstFitUnique(c: Call, f: Func, index: nat, i: nat)
    requires index < |f.params| && i < |c.args| && Fits(c, f, index, i) && forall j :: 0 <= j < i ==>
      !Fits(c, f, index, j)
    ensures ArgumentOf(c, f, index) == Some(i)
  {
    hide Fits;
    assert FirstFit(c, f, index, ArgumentOf(c, f, index));
  }

  method Argument(c: Call, f: Func, index: nat) returns (r: Option<nat>)
    requires index < |f.params|
    ensures r == ArgumentOf(c, f, index)
  {
    var positional := 0;
    for i := 0 to |c.args|
      invariant positional == Positional(c.args[..i])
      invariant forall j :: 0 <= j < i ==> !Fits(c, f, index, j)
    {
      assert c.args[..i + 1][..i] == c.args[..i];
      var a := c.args[i];
      var named := a.name != "" && !Prefix("-", a.name);
      if named && a.name == f.params[index] {
        FirstFitUnique(c, f, index, i);
        return Some(i);
      }
      if named {
        continue;
      }
      if positional == index - Offset(f) {
        FirstFitUnique(c, f, index, i);
        return Some(i);
      }
      positional := positional + 1;
    }
    return None;
  }

  function SpreadFrom(c: Call, from: nat): (r: Option<nat>)
    requires from <= |c.args|
    ensures r.Some? ==> from <= r.value < |c.args|
    decreases |c.args| - from
  {
    if from == |c.args| then None
    else if Refers(c.args[from].expr, "@") || Refers(c.args[from].expr, "*") then Some(from)
    else SpreadFrom(c, from + 1)
  }

  // ----- Consumers

  predicate Takes(c: Call, sp: Span) { exists i :: 0 <= i < |c.args| && Inside(c.args[i].expr.span, sp.start) }

  ghost predicate BySize(p: Program, cs: seq<nat>) {
    && (forall i :: 0 <= i < |cs| ==> cs[i] < |p.calls|)
    && forall i, j :: 0 <= i < j < |cs| ==> Size(p.calls[cs[i]].span) <= Size(p.calls[cs[j]].span)
  }

  function Taking(p: Program, sp: Span): nat -> bool { (c: nat) => c < |p.calls| && Takes(p.calls[c], sp) }

  /** The calls of a statement with an argument at the span, smallest first; ties in any order. */
  ghost predicate Consumed(p: Program, st: nat, sp: Span, out: seq<nat>)
    requires p.Valid() && st < |p.stmts|
  {
    BySize(p, out) && multiset(out) == multiset(Filter(p.stmts[st].calls, Taking(p, sp)))
  }

  method Consumers(p: Program, st: nat, sp: Span) returns (out: seq<nat>)
    requires p.Valid() && st < |p.stmts|
    ensures Consumed(p, st, sp, out)
  {
    hide Filter, Takes, BySize, Program.Valid;
    var calls := p.stmts[st].calls;
    StmtCalls(p, st);
    out := [];
    NothingConsumed(p, calls, sp);
    for k := 0 to |calls|
      invariant BySize(p, out) && multiset(out) == multiset(Filter(calls[..k], Taking(p, sp)))
    {
      FilterNext(calls, k, Taking(p, sp));
      if Takes(p.calls[calls[k]], sp) {
        out := Insert(p, out, calls[k]);
      }
    }
    FilterWhole(calls, Taking(p, sp));
  }

  lemma {:induction false} NothingConsumed(p: Program, calls: seq<nat>, sp: Span)
    ensures BySize(p, []) && Filter(calls[..0], Taking(p, sp)) == []
  {
  }

  method Insert(p: Program, xs: seq<nat>, c: nat) returns (out: seq<nat>)
    requires c < |p.calls| && BySize(p, xs)
    ensures BySize(p, out) && multiset(out) == multiset(xs + [c])
  {
    hide Size;
    var at := |xs|;
    while at > 0 && Size(p.calls[xs[at - 1]].span) > Size(p.calls[c].span)
      invariant 0 <= at <= |xs|
      invariant forall i :: at <= i < |xs| ==> xs[i] < |p.calls| && Size(p.calls[xs[i]].span) > Size(p.calls[c].span)
    {
      at := at - 1;
    }
    out := xs[..at] + [c] + xs[at..];
    InsertAt(p, xs, c, at);
    InsertSame(xs, c, at);
  }

  lemma {:induction false} InsertAt(p: Program, xs: seq<nat>, c: nat, at: nat)
    requires c < |p.calls| && BySize(p, xs) && at <= |xs|
    requires at > 0 ==> Size(p.calls[xs[at - 1]].span) <= Size(p.calls[c].span)
    requires forall i :: at <= i < |xs| ==> Size(p.calls[xs[i]].span) > Size(p.calls[c].span)
    ensures BySize(p, xs[..at] + [c] + xs[at..])
  {
    hide Size;
    var out := xs[..at] + [c] + xs[at..];
    forall i, j | 0 <= i < j < |out| ensures Size(p.calls[out[i]].span) <= Size(p.calls[out[j]].span) {
      if j < at {
        assert out[i] == xs[i] && out[j] == xs[j];
      } else if j == at {
        assert out[i] == xs[i] && out[j] == c;
      } else if i < at {
        assert out[i] == xs[i] && out[j] == xs[j - 1];
      } else if i == at {
        assert out[i] == c && out[j] == xs[j - 1];
      } else {
        assert out[i] == xs[i - 1] && out[j] == xs[j - 1];
      }
    }
  }

  lemma {:induction false} InsertSame(xs: seq<nat>, c: nat, at: nat)
    requires at <= |xs|
    ensures multiset(xs[..at] + [c] + xs[at..]) == multiset(xs + [c])
  {
    assert xs == xs[..at] + xs[at..];
  }

  // ----- Occurrences

  function Occurrences(refs: seq<Ref>, names: seq<string>): (r: seq<Span>)
    ensures forall i :: 0 <= i < |refs| && refs[i].name in names ==> refs[i].span in r
  {
    if refs == [] then []
    else
      var n := |refs| - 1;
      Occurrences(refs[..n], names) + if refs[n].name in names then [refs[n].span] else []
  }

  /** Nothing else occurs. */
  lemma {:induction false} OccurrencesOnly(refs: seq<Ref>, names: seq<string>, sp: Span)
    requires sp in Occurrences(refs, names)
    ensures exists i :: 0 <= i < |refs| && refs[i].name in names && refs[i].span == sp
  {
    var n := |refs| - 1;
    if sp in Occurrences(refs[..n], names) {
      OccurrencesOnly(refs[..n], names, sp);
      var i :| 0 <= i < n && refs[..n][i].name in names && refs[..n][i].span == sp;
      assert refs[i].span == sp && refs[i].name in names;
    }
  }
}
