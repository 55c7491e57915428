/** When a key of the visited set stands for one visit (pkg/internal/trace/forward.go): the set knows
    a statement and a name, and not which spans of the statement were followed. */
module Visits {
  import opened Options
  import opened CodeProgram
  import opened Flow

  /** No two arguments of a call overlap. */
  ghost predicate ArgsApart(c: Call) {
    forall i, j, x: nat ::
      0 <= i < |c.args| && 0 <= j < |c.args| && Inside(c.args[i].expr.span, x) && Inside(c.args[j].expr.span, x) ==>
        i == j
  }

  /** No function has two parameters of one name. */
  ghost predicate ParamsDiffer(f: Func) {
    forall i, j :: 0 <= i < |f.params| && 0 <= j < |f.params| && f.params[i] == f.params[j] ==> i == j
  }

  ghost predicate Apart(p: Program) {
    && (forall c :: 0 <= c < |p.calls| ==> ArgsApart(p.calls[c]))
    && forall f :: 0 <= f < |p.funcs| ==> ParamsDiffer(p.funcs[f])
  }

  predicate IsParam(p: Program, name: string, f: nat) { f < |p.funcs| && name in p.funcs[f].params }

  /** The name of a function is no other name, and a parameter of the shell is no variable. */
  ghost predicate Plain(p: Program, name: string)
    requires p.Valid()
  {
    && ((exists f :: 0 <= f < |p.funcs| && p.funcs[f].name == name) ==>
          !Bindable(p, name) && forall f: nat :: !IsParam(p, name, f))
    && (Bindable(p, name) ==> forall f: nat :: IsParam(p, name, f) ==> !p.units[p.funcs[f].owner].shell)
  }

  // ----- One parameter for one span

  lemma {:induction false} OneGiven(p: Program, c: nat, f: nat, i: nat, j: nat, sp: Span)
    requires c < |p.calls| && f < |p.funcs| && ArgsApart(p.calls[c]) && ParamsDiffer(p.funcs[f])
    requires i < |p.funcs[f].params| && j < |p.funcs[f].params| && Given(p, c, f, i, sp) && Given(p, c, f, j, sp)
    ensures i == j
  {
    hide FirstFit, ArgumentOf, Positional;
    var call, func := p.calls[c], p.funcs[f];
    ArgumentFits(call, func, i);
    ArgumentFits(call, func, j);
    var a, b := ArgumentOf(call, func, i).value, ArgumentOf(call, func, j).value;
    assert Inside(call.args[a].expr.span, sp.start) && Inside(call.args[b].expr.span, sp.start);
    assert a == b;
  }

  lemma {:induction false} ArgumentFits(c: Call, f: Func, i: nat)
    requires i < |f.params| && ArgumentOf(c, f, i).Some?
    ensures ArgumentOf(c, f, i).value < |c.args| && Fits(c, f, i, ArgumentOf(c, f, i).value)
  {
    hide Fits;
    assert FirstFit(c, f, i, ArgumentOf(c, f, i));
  }

  lemma {:induction false} GivenOnce(p: Program, c: nat, f: nat, sp: Span, n: nat)
    requires c < |p.calls| && f < |p.funcs| && n <= |p.funcs[f].params| && ArgsApart(p.calls[c])
      && ParamsDiffer(p.funcs[f])
    ensures |GivenTo(p, c, f, sp, n)| <= 1
    ensures (forall i :: 0 <= i < n ==> !Given(p, c, f, i, sp)) ==> GivenTo(p, c, f, sp, n) == []
    ensures forall name :: name in GivenTo(p, c, f, sp, n) ==> name in p.funcs[f].params
  {
    hide Given, ArgsApart, ParamsDiffer;
    if n > 0 {
      GivenOnce(p, c, f, sp, n - 1);
      if Given(p, c, f, n - 1, sp) {
        forall i | 0 <= i < n - 1 ensures !Given(p, c, f, i, sp) {
          if Given(p, c, f, i, sp) {
            OneGiven(p, c, f, i, n - 1, sp);
          }
        }
      }
    }
  }

  // ----- One visit for one key

  lemma {:induction false} ParamVisit(p: Program, key: Key, spans: seq<Span>) returns (f: nat)
    requires p.Valid() && key.st < |p.stmts| && Apart(p) && ParamOf(p, key, spans)
    ensures IsParam(p, key.name, f) && p.funcs[f].owner == p.stmts[key.st].unit
    ensures spans == Occurrences(p.stmts[key.st].value.refs, Spread(p, f, [key.name]))
  {
    hide Occurrences, Spread, GivenTo, Program.Target, ArgsApart, ParamsDiffer;
    var c, g, sp :| 0 <= c < |p.calls| && 0 <= g < |p.funcs| && PassedTo(p, c, g, sp, key)
      && spans == Occurrences(p.stmts[key.st].value.refs, Spread(p, g, GivenNames(p, c, g, sp)));
    GivenOnce(p, c, g, sp, |p.funcs[g].params|);
    assert GivenNames(p, c, g, sp) == [key.name];
    f := g;
  }

  lemma {:induction false} TargetNamed(p: Program, f: nat, c: nat)
    requires f < |p.funcs| && c < |p.calls| && p.Target(p.calls[c].callee) == Some(f)
    ensures p.Named(p.funcs[f].name) == Some(f)
  {
  }

  lemma {:induction false} OneFunction(p: Program, f: nat, c: nat)
    requires p.Valid() && f < |p.funcs| && c < |p.calls| && FirstSite(p, f, c)
    ensures p.Named(p.funcs[f].name) == Some(f)
  {
    hide NoneBefore;
    TargetNamed(p, f, c);
  }

  lemma {:induction false} OneFirst(p: Program, f: nat, c: nat, d: nat)
    requires p.Valid() && f < |p.funcs| && c < |p.calls| && d < |p.calls|
    requires FirstSite(p, f, c) && FirstSite(p, f, d) && p.calls[c].stmt == p.calls[d].stmt
    ensures c == d
  {
    hide CallSitesOf;
    var sites := CallSitesOf(p, f);
    var i :| 0 <= i < |sites| && sites[i] == c && NoneBefore(p, sites, i);
    var j :| 0 <= j < |sites| && sites[j] == d && NoneBefore(p, sites, j);
  }

  lemma {:induction false} OneCall(p: Program, key: Key, a: seq<Span>, b: seq<Span>)
    requires p.Valid() && key.st < |p.stmts| && CallOf(p, key, a) && CallOf(p, key, b)
    ensures a == b
  {
    hide FirstSite, Program.Named;
    var c, f :| 0 <= c < |p.calls| && 0 <= f < |p.funcs| && FirstSite(p, f, c)
      && p.calls[c].stmt == key.st && p.funcs[f].name == key.name && a == [p.calls[c].span];
    var d, g :| 0 <= d < |p.calls| && 0 <= g < |p.funcs| && FirstSite(p, g, d)
      && p.calls[d].stmt == key.st && p.funcs[g].name == key.name && b == [p.calls[d].span];
    OneFunction(p, f, c);
    OneFunction(p, g, d);
    OneFirst(p, f, c, d);
  }

  lemma {:induction false} CallNamed(p: Program, key: Key, spans: seq<Span>)
    requires p.Valid() && key.st < |p.stmts| && CallOf(p, key, spans)
    ensures exists f :: 0 <= f < |p.funcs| && p.funcs[f].name == key.name
  {
    hide FirstSite;
  }

  /** A key of a plain name is visited in one way only. */
  lemma {:induction false} OneVisit(p: Program, key: Key, a: seq<Span>, b: seq<Span>)
    requires p.Valid() && key.st < |p.stmts| && Apart(p) && Plain(p, key.name) && Visit(p, key, a) && Visit(p, key, b)
    ensures a == b
  {
    hide ParamOf, CallOf, Bindable, Occurrences, Apart;
    if CallOf(p, key, a) || CallOf(p, key, b) {
      CallNamed(p, key, if CallOf(p, key, a) then a else b);
      if ParamOf(p, key, a) || ParamOf(p, key, b) {
        var f := ParamVisit(p, key, if ParamOf(p, key, a) then a else b);
        assert false;
      }
      OneCall(p, key, a, b);
    } else {
      UseOrParam(p, key, a);
      UseOrParam(p, key, b);
      if !UseOf(p, key, a) && !UseOf(p, key, b) {
        var f := ParamVisit(p, key, a);
        var g := ParamVisit(p, key, b);
      }
    }
  }

  /** Without a variable of its name, a parameter of the shell is visited with all parameters. */
  lemma {:induction false} UseOrParam(p: Program, key: Key, spans: seq<Span>)
    requires p.Valid() && key.st < |p.stmts| && Apart(p) && Plain(p, key.name)
      && (UseOf(p, key, spans) || ParamOf(p, key, spans))
    ensures Bindable(p, key.name) ==> spans == Occurrences(p.stmts[key.st].value.refs, [key.name])
  {
    hide ParamOf, Bindable, Occurrences, Apart;
    if ParamOf(p, key, spans) {
      var f := ParamVisit(p, key, spans);
    }
  }

  /** A key of a plain name was explored wherever it can be visited. */
  lemma {:induction false} EveryVisit(p: Program, key: Key, spans: seq<Span>, keys: set<Key>)
    requires p.Valid() && Explored(p, key, keys) && Apart(p) && Plain(p, key.name) && Visit(p, key, spans)
    ensures AllEntered(p, key.st, spans, keys)
  {
    hide Visit, AllEntered, ClosedAt, Apart, Plain;
    var some :| Visit(p, key, some) && AllEntered(p, key.st, some, keys);
    OneVisit(p, key, some, spans);
  }

  predicate SamePlace(c: Call, d: Call) { c.stmt == d.stmt && c.span == d.span }

  /** The calls of a plain function are told apart by their spans. */
  ghost predicate SpansDiffer(p: Program, f: nat)
    requires p.Valid() && f < |p.funcs|
  {
    var sites := CallSitesOf(p, f);
    forall i, j :: 0 <= i < |sites| && 0 <= j < |sites| && SamePlace(p.calls[sites[i]], p.calls[sites[j]]) ==>
      sites[i] == sites[j]
  }

  lemma {:induction false} NotUse(p: Program, key: Key, f: nat, spans: seq<Span>)
    requires p.Valid() && key.st < |p.stmts| && f < |p.funcs| && p.funcs[f].name == key.name && Plain(p, key.name)
    ensures !UseOf(p, key, spans)
  {
    hide Bindable, Occurrences;
  }

  lemma {:induction false} CallVisit(p: Program, key: Key, f: nat, i: nat)
    requires p.Valid() && f < |p.funcs| && i < |CallSitesOf(p, f)| && SpansDiffer(p, f)
    requires var c := p.calls[CallSitesOf(p, f)[i]]; key == Key(c.stmt, p.funcs[f].name) && CallOf(p, key, [c.span])
    ensures FirstSite(p, f, CallSitesOf(p, f)[i])
  {
    hide CallSitesOf, Program.Named, NoneBefore;
    var sites := CallSitesOf(p, f);
    var c := sites[i];
    var d, g :| 0 <= d < |p.calls| && 0 <= g < |p.funcs| && FirstSite(p, g, d)
      && p.calls[d].stmt == key.st && p.funcs[g].name == key.name && [p.calls[c].span] == [p.calls[d].span];
    OneFunction(p, g, d);
    TargetNamed(p, f, c);
    assert [p.calls[c].span][0] == [p.calls[d].span][0];
    var j :| 0 <= j < |sites| && sites[j] == d;
    assert SamePlace(p.calls[sites[i]], p.calls[sites[j]]);
  }

  /** Of the listed calls of a plain function exactly the first one of each statement is followed. */
  lemma {:induction false} SiteVisitIff(p: Program, f: nat, i: nat)
    requires p.Valid() && f < |p.funcs| && i < |CallSitesOf(p, f)| && Apart(p) && Plain(p, p.funcs[f].name)
      && SpansDiffer(p, f)
    ensures var c := CallSitesOf(p, f)[i];
            Visit(p, Key(p.calls[c].stmt, p.funcs[f].name), [p.calls[c].span]) <==> FirstSite(p, f, c)
  {
    hide Apart, Bindable, UseOf, ParamOf, CallSitesOf, Occurrences;
    var sites := CallSitesOf(p, f);
    var c := sites[i];
    var key, spans := Key(p.calls[c].stmt, p.funcs[f].name), [p.calls[c].span];
    if Visit(p, key, spans) {
      if ParamOf(p, key, spans) {
        var g := ParamVisit(p, key, spans);
        assert false;
      }
      NotUse(p, key, f, spans);
      CallVisit(p, key, f, i);
    }
  }

  /** A function and a variable of one name in one statement: two visits, of which the key stands for one. */
  lemma {:induction false} ClashingNames(p: Program, f: nat, c: nat)
    requires p.Valid() && f < |p.funcs| && c < |p.calls| && FirstSite(p, f, c) && Bindable(p, p.funcs[f].name)
    requires Refers(p.stmts[p.calls[c].stmt].value, p.funcs[f].name)
    requires p.calls[c].span !in Occurrences(p.stmts[p.calls[c].stmt].value.refs, [p.funcs[f].name])
    ensures var key, uses := Key(p.calls[c].stmt, p.funcs[f].name),
            Occurrences(p.stmts[p.calls[c].stmt].value.refs, [p.funcs[f].name]);
            Visit(p, key, [p.calls[c].span]) && Visit(p, key, uses) && uses != [p.calls[c].span] && !Plain(p, key.name)
  {
    hide ParamOf, Bindable, FirstSite, Occurrences;
    var refs := p.stmts[p.calls[c].stmt].value.refs;
    var i :| 0 <= i < |refs| && refs[i].name == p.funcs[f].name;
    assert refs[i].span in Occurrences(refs, [p.funcs[f].name]);
  }
}
