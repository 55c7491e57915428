/** Where values come from: the backward walk as a function of the program and a limit on its depth
    (pkg/internal/trace/backward.go), before any budget. */
module Origins {
  import opened Options
  import opened CodeProgram
  import Texts

  const MAX_DEPTH := 6

  datatype Place = Place(unit: nat, span: Span)

  function At(p: Program, st: nat): Place
    requires st < |p.stmts|
  {
    Place(p.stmts[st].unit, p.stmts[st].span)
  }

  datatype Source = Source(param: string, name: string, code: Option<Place>, fedBy: seq<Source>)

  /** Names that are looked up: not imported, and not those of a function. */
  predicate Looked(p: Program, name: string, at: nat)
    requires p.Valid() && at < |p.stmts|
  {
    name !in p.units[p.stmts[at].unit].imports && p.Named(name).None?
  }

  predicate Repeated(refs: seq<Ref>, n: nat)
    requires n < |refs|
  {
    exists j :: 0 <= j < n && refs[j].name == refs[n].name
  }

  /** `left` is how many levels may still be looked up; the code starts at depth 0 with MAX_DEPTH + 1. */
  function OriginOf(p: Program, left: nat, param: string, name: string, at: nat): Option<Source>
    requires p.Valid() && at < |p.stmts|
    decreases left, 0, 0
  {
    if !Looked(p, name, at) then None
    else if left == 0 then Some(Source(param, name, None, []))
    else
      var def := DefinitionOf(p, name, at);
      if def.Some? then
        Some(Source(param, name, Some(At(p, def.value)),
          SourcesOf(p, left - 1, "", p.stmts[def.value].value.refs, def.value)))
      else
        var owner := ParamFrom(p, p.stmts[at].scope, name);
        Some(Source(param, name, None, if owner.None? then []
          else PassedAll(p, left - 1, CallSitesOf(p, owner.value.0), owner.value.0, owner.value.1)))
  }

  /** One source for every name of an expression, in the order of first mention. */
  function SourcesOf(p: Program, left: nat, param: string, refs: seq<Ref>, at: nat): seq<Source>
    requires p.Valid() && at < |p.stmts|
    decreases left, 1, |refs|
  {
    if refs == [] then []
    else
      var n := |refs| - 1;
      var before := SourcesOf(p, left, param, refs[..n], at);
      var s := OriginOf(p, left, param, refs[n].name, at);
      if Repeated(refs, n) || s.None? then before else before + [s.value]
  }

  /** What a call site passes for a parameter. */
  function ArgumentAt(p: Program, site: nat, f: nat, index: nat): (r: Option<nat>)
    requires site < |p.calls| && f < |p.funcs| && index < |p.funcs[f].params|
    ensures r.Some? ==> r.value < |p.calls[site].args|
  {
    var arg := ArgumentOf(p.calls[site], p.funcs[f], index);
    if arg.Some? then arg else SpreadFrom(p.calls[site], 0)
  }

  function PassedRefs(p: Program, site: nat, f: nat, index: nat): seq<Ref>
    requires site < |p.calls| && f < |p.funcs| && index < |p.funcs[f].params|
  {
    var arg := ArgumentAt(p, site, f, index);
    if arg.None? then [] else p.calls[site].args[arg.value].expr.refs
  }

  function PassedOf(p: Program, left: nat, site: nat, f: nat, index: nat): Source
    requires p.Valid() && site < |p.calls| && f < |p.funcs| && index < |p.funcs[f].params|
    decreases left, 2, 0
  {
    var call := p.calls[site];
    Source("", "", Some(At(p, call.stmt)), SourcesOf(p, left, "", PassedRefs(p, site, f, index), call.stmt))
  }

  function PassedAll(p: Program, left: nat, sites: seq<nat>, f: nat, index: nat): seq<Source>
    requires p.Valid() && f < |p.funcs| && index < |p.funcs[f].params|
    requires forall i :: 0 <= i < |sites| ==> sites[i] < |p.calls|
    decreases left, 3, |sites|
  {
    if sites == [] then []
    else PassedAll(p, left, sites[..|sites| - 1], f, index) + [PassedOf(p, left, sites[|sites| - 1], f, index)]
  }

  function ParamName(a: Arg, i: nat): string { if a.name == "" then "arg" + Texts.Digits(i + 1) else a.name }

  function ArgsFrom(p: Program, limit: nat, c: nat, n: nat): seq<Source>
    requires p.Valid() && c < |p.calls| && n <= |p.calls[c].args|
  {
    if n == 0 then []
    else
      var a := p.calls[c].args[n - 1];
      ArgsFrom(p, limit, c, n - 1) + SourcesOf(p, limit + 1, ParamName(a, n - 1), a.expr.refs, p.calls[c].stmt)
  }

  function ReceiverOf(p: Program, limit: nat, c: nat): seq<Source>
    requires p.Valid() && c < |p.calls|
  {
    var call := p.calls[c];
    if call.receiver == "" then []
    else
      var s := OriginOf(p, limit + 1, "receiver", call.receiver, call.stmt);
      if s.Some? then [s.value] else []
  }

  /** What a call is fed by, looked up to a depth limit; the code's limit is MAX_DEPTH. */
  function FedByOf(p: Program, limit: nat, c: nat): seq<Source>
    requires p.Valid() && c < |p.calls|
  {
    ReceiverOf(p, limit, c) + ArgsFrom(p, limit, c, |p.calls[c].args|)
  }

  // ----- What the walk costs

  /** The lookups that make the tree of an origin; what stands at the limit is not looked up. */
  function Lookups(s: Source, left: nat): nat
    decreases left, 0, 0
  {
    if left == 0 then 0 else 1 + if s.code.Some? then LookupsIn(s.fedBy, left - 1) else LookupsPassed(s.fedBy, left - 1)
  }

  function LookupsIn(ss: seq<Source>, left: nat): nat
    decreases left, 1, |ss|
  {
    if ss == [] then 0 else LookupsIn(ss[..|ss| - 1], left) + Lookups(ss[|ss| - 1], left)
  }

  /** What is passed at a call site is no lookup itself. */
  function LookupsPassed(ss: seq<Source>, left: nat): nat
    decreases left, 2, |ss|
  {
    if ss == [] then 0 else LookupsPassed(ss[..|ss| - 1], left) + LookupsIn(ss[|ss| - 1].fedBy, left)
  }

  lemma {:induction false} LookupsAppend(xs: seq<Source>, ys: seq<Source>, left: nat)
    ensures LookupsIn(xs + ys, left) == LookupsIn(xs, left) + LookupsIn(ys, left)
    decreases |ys|
  {
    hide Lookups;
    if ys == [] {
      assert xs + ys == xs;
    } else {
      var n := |ys| - 1;
      assert (xs + ys)[..|xs + ys| - 1] == xs + ys[..n];
      LookupsAppend(xs, ys[..n], left);
    }
  }

  lemma {:induction false} LookupsOne(s: Source, left: nat)
    ensures LookupsIn([s], left) == Lookups(s, left) && LookupsIn([], left) == 0
  {
    hide Lookups;
    assert [s][..0] == [];
    assert LookupsIn([s], left) == LookupsIn([s][..0], left) + Lookups(s, left);
  }

  // ----- What the sources of an expression are

  ghost predicate Mentions(refs: seq<Ref>, name: string) { exists k :: 0 <= k < |refs| && refs[k].name == name }

  lemma {:induction false} OriginNamed(p: Program, left: nat, param: string, name: string, at: nat)
    requires p.Valid() && at < |p.stmts|
    ensures var s := OriginOf(p, left, param, name, at);
            (s.Some? <==> Looked(p, name, at)) && (s.Some? ==> s.value.name == name && s.value.param == param)
  {
    hide Looked, ParamFrom, DefinitionOf, CallSitesOf, PassedAll;
  }

  /** Each source is the origin of a mentioned name, and no name has two. */
  ghost predicate AreOrigins(p: Program, left: nat, param: string, refs: seq<Ref>, at: nat, out: seq<Source>)
    requires p.Valid() && at < |p.stmts|
  {
    && (forall i :: 0 <= i < |out| ==>
      Mentions(refs, out[i].name) && OriginOf(p, left, param, out[i].name, at) == Some(out[i]))
    && forall i, j :: 0 <= i < j < |out| ==> out[i].name != out[j].name
  }

  lemma {:induction false} SourcesAreOrigins(p: Program, left: nat, param: string, refs: seq<Ref>, at: nat)
    requires p.Valid() && at < |p.stmts|
    ensures AreOrigins(p, left, param, refs, at, SourcesOf(p, left, param, refs, at))
    decreases |refs|
  {
    hide Looked, OriginOf;
    if refs != [] {
      var n := |refs| - 1;
      OriginNamed(p, left, param, refs[n].name, at);
      var before := SourcesOf(p, left, param, refs[..n], at);
      SourcesAreOrigins(p, left, param, refs[..n], at);
      forall i | 0 <= i < |before|
        ensures Mentions(refs, before[i].name) && (!Repeated(refs, n) ==> before[i].name != refs[n].name)
      {
        assert Mentions(refs[..n], before[i].name);
        var k :| 0 <= k < n && refs[..n][k].name == before[i].name;
        assert refs[k].name == before[i].name;
      }
    }
  }

  /** Every mentioned name that is looked up has its origin among the sources. */
  lemma {:induction false} SourcesCover(p: Program, left: nat, param: string, refs: seq<Ref>, at: nat, name: string)
    requires p.Valid() && at < |p.stmts| && Mentions(refs, name) && Looked(p, name, at)
    ensures OriginOf(p, left, param, name, at).Some?
    ensures OriginOf(p, left, param, name, at).value in SourcesOf(p, left, param, refs, at)
    decreases |refs|
  {
    hide Looked, OriginOf;
    var n := |refs| - 1;
    var k :| 0 <= k < |refs| && refs[k].name == name;
    OriginNamed(p, left, param, name, at);
    if k < n || Repeated(refs, n) {
      var j := k;
      if k == n {
        j :| 0 <= j < n && refs[j].name == refs[n].name;
      }
      assert refs[..n][j] == refs[j];
      SourcesCover(p, left, param, refs[..n], at, name);
    }
  }

  // ----- Back-steps

  /** A name looked up at a statement. */
  datatype Lookup = Lookup(name: string, at: nat)

  ghost predicate Valid(p: Program, a: Lookup)
    requires p.Valid()
  {
    a.at < |p.stmts| && Looked(p, a.name, a.at)
  }

  /** One step back: to a name of the definition, or, from a parameter, to a name of what a listed
      call site passes for it. */
  ghost predicate BackStep(p: Program, a: Lookup, b: Lookup)
    requires p.Valid() && a.at < |p.stmts|
  {
    var def := DefinitionOf(p, a.name, a.at);
    if def.Some? then b.at == def.value && Mentions(p.stmts[def.value].value.refs, b.name)
    else
      var owner := ParamFrom(p, p.stmts[a.at].scope, a.name);
      owner.Some? && exists i ::
        0 <= i < |CallSitesOf(p, owner.value.0)|
          && PassedAt(p, CallSitesOf(p, owner.value.0)[i], owner.value.0, owner.value.1, b)
  }

  ghost predicate PassedAt(p: Program, site: nat, f: nat, index: nat, b: Lookup)
    requires site < |p.calls| && f < |p.funcs| && index < |p.funcs[f].params|
  {
    b.at == p.calls[site].stmt && Mentions(PassedRefs(p, site, f, index), b.name)
  }

  /** A chain of looked up names, each a step back from the one before. */
  ghost predicate Leads(p: Program, a: Lookup, names: seq<string>)
    requires p.Valid()
    decreases |names|
  {
    && names != [] && Valid(p, a) && names[0] == a.name
    && (|names| == 1 || exists b :: BackStep(p, a, b) && Leads(p, b, names[1..]))
  }

  /** The names on a branch of a source tree; what is passed at a call site is a nameless node between two names. */
  ghost predicate Branch(s: Source, names: seq<string>)
    decreases |names|, 0
  {
    && names != [] && names[0] == s.name
    && (|names| == 1 || (if s.code.Some? then BranchIn(s.fedBy, names[1..])
                         else exists i :: 0 <= i < |s.fedBy| && BranchIn(s.fedBy[i].fedBy, names[1..])))
  }

  ghost predicate BranchIn(ss: seq<Source>, names: seq<string>)
    decreases |names|, 1
  {
    exists i :: 0 <= i < |ss| && Branch(ss[i], names)
  }

  ghost predicate OriginBranch(p: Program, left: nat, param: string, a: Lookup, names: seq<string>)
    requires p.Valid()
  {
    a.at < |p.stmts| && OriginOf(p, left, param, a.name, a.at).Some?
      && Branch(OriginOf(p, left, param, a.name, a.at).value, names)
  }

  lemma {:induction false} SourcesBranch(p: Program, left: nat, param: string, refs: seq<Ref>, at: nat,
      names: seq<string>)
    requires p.Valid() && at < |p.stmts|
    ensures BranchIn(SourcesOf(p, left, param, refs, at), names)
       <==> names != [] && Mentions(refs, names[0]) && OriginBranch(p, left, param, Lookup(names[0], at), names)
  {
    hide OriginOf, SourcesOf, Looked, Mentions;
    var out := SourcesOf(p, left, param, refs, at);
    SourcesAreOrigins(p, left, param, refs, at);
    if BranchIn(out, names) {
      var i :| 0 <= i < |out| && Branch(out[i], names);
      assert OriginOf(p, left, param, out[i].name, at) == Some(out[i]);
    }
    if names != [] && Mentions(refs, names[0]) && OriginBranch(p, left, param, Lookup(names[0], at), names) {
      OriginNamed(p, left, param, names[0], at);
      SourcesCover(p, left, param, refs, at, names[0]);
    }
  }

  /** The branches of the tree of an origin are exactly the chains of back-steps that the limit allows. */
  lemma {:induction false} BranchesAreBackSteps(p: Program, left: nat, param: string, a: Lookup, names: seq<string>)
    requires p.Valid() && a.at < |p.stmts|
    ensures OriginBranch(p, left, param, a, names) <==> Leads(p, a, names) && |names| <= left + 1
    decreases |names|, 1
  {
    hide Looked, ParamFrom, DefinitionOf, CallSitesOf, Mentions, PassedRefs;
    OriginNamed(p, left, param, a.name, a.at);
    if names != [] && names[0] == a.name && |names| > 1 && Looked(p, a.name, a.at) && left > 0 {
      var rest := names[1..];
      var def := DefinitionOf(p, a.name, a.at);
      if def.Some? {
        DefinitionBranch(p, left, param, a, names);
      } else {
        ParamBranch(p, left, param, a, names);
      }
    }
  }

  lemma {:induction false} DefinitionBranch(p: Program, left: nat, param: string, a: Lookup, names: seq<string>)
    requires p.Valid() && Valid(p, a) && |names| > 1 && names[0] == a.name && left > 0
      && DefinitionOf(p, a.name, a.at).Some?
    ensures OriginBranch(p, left, param, a, names) <==> Leads(p, a, names) && |names| <= left + 1
    decreases |names|, 0
  {
    hide Looked, ParamFrom, DefinitionOf, CallSitesOf, Mentions, PassedRefs, SourcesOf;
    var def, rest := DefinitionOf(p, a.name, a.at).value, names[1..];
    var refs := p.stmts[def].value.refs;
    SourcesBranch(p, left - 1, "", refs, def, rest);
    BranchesAreBackSteps(p, left - 1, "", Lookup(rest[0], def), rest);
    assert BackStep(p, a, Lookup(rest[0], def)) <==> Mentions(refs, rest[0]);
    if b :| BackStep(p, a, b) && Leads(p, b, rest) {
      assert b == Lookup(rest[0], def);
    }
  }

  lemma {:induction false} PassedAllAt(p: Program, left: nat, sites: seq<nat>, f: nat, index: nat)
    requires p.Valid() && f < |p.funcs| && index < |p.funcs[f].params| && forall i :: 0 <= i < |sites| ==>
      sites[i] < |p.calls|
    ensures |PassedAll(p, left, sites, f, index)| == |sites|
    ensures forall i :: 0 <= i < |sites| ==>
      PassedAll(p, left, sites, f, index)[i] == PassedOf(p, left, sites[i], f, index)
    decreases |sites|
  {
    hide PassedOf;
    if sites != [] {
      PassedAllAt(p, left, sites[..|sites| - 1], f, index);
    }
  }

  ghost predicate SiteLeads(p: Program, site: nat, f: nat, index: nat, names: seq<string>)
    requires p.Valid() && site < |p.calls| && f < |p.funcs| && index < |p.funcs[f].params|
  {
    exists b :: PassedAt(p, site, f, index, b) && Leads(p, b, names)
  }

  lemma {:induction false} SiteBranch(p: Program, left: nat, site: nat, f: nat, index: nat, names: seq<string>)
    requires p.Valid() && site < |p.calls| && f < |p.funcs| && index < |p.funcs[f].params| && names != []
    ensures BranchIn(PassedOf(p, left, site, f, index).fedBy, names) <==>
      SiteLeads(p, site, f, index, names) && |names| <= left + 1
    decreases |names|, 2
  {
    hide Mentions, PassedRefs, SourcesOf, Leads, OriginBranch;
    var a := Lookup(names[0], p.calls[site].stmt);
    SourcesBranch(p, left, "", PassedRefs(p, site, f, index), a.at, names);
    BranchesAreBackSteps(p, left, "", a, names);
    if b :| PassedAt(p, site, f, index, b) && Leads(p, b, names) {
      LeadsName(p, b, names);
      assert b == a;
    }
    assert Mentions(PassedRefs(p, site, f, index), names[0]) ==> PassedAt(p, site, f, index, a);
  }

  /** The branches of a parameter go on at the call sites. */
  lemma {:induction false} OwnerBranch(p: Program, left: nat, param: string, a: Lookup, names: seq<string>)
    requires p.Valid() && Valid(p, a) && |names| > 1 && names[0] == a.name && left > 0
      && DefinitionOf(p, a.name, a.at).None?
    requires ParamFrom(p, p.stmts[a.at].scope, a.name).Some?
    ensures var owner := ParamFrom(p, p.stmts[a.at].scope, a.name).value;
            OriginBranch(p, left, param, a, names)
            <==> exists i ::
              0 <= i < |CallSitesOf(p, owner.0)|
              && BranchIn(PassedOf(p, left - 1, CallSitesOf(p, owner.0)[i], owner.0, owner.1).fedBy, names[1..])
  {
    hide Looked, ParamFrom, DefinitionOf, CallSitesOf, PassedOf, PassedAll, BranchIn, SourcesOf;
    var owner := ParamFrom(p, p.stmts[a.at].scope, a.name).value;
    PassedAllAt(p, left - 1, CallSitesOf(p, owner.0), owner.0, owner.1);
  }

  lemma {:induction false} ParamBranch(p: Program, left: nat, param: string, a: Lookup, names: seq<string>)
    requires p.Valid() && Valid(p, a) && |names| > 1 && names[0] == a.name && left > 0
      && DefinitionOf(p, a.name, a.at).None?
    ensures OriginBranch(p, left, param, a, names) <==> Leads(p, a, names) && |names| <= left + 1
    decreases |names|, 0
  {
    hide Looked, ParamFrom, DefinitionOf, CallSitesOf, PassedAt, PassedAll, PassedOf, BranchIn, Leads;
    var rest := names[1..];
    var owner := ParamFrom(p, p.stmts[a.at].scope, a.name);
    LeadsOn(p, a, names);
    if owner.Some? {
      hide OriginBranch;
      var f, index := owner.value.0, owner.value.1;
      var sites := CallSitesOf(p, f);
      OwnerBranch(p, left, param, a, names);
      forall i | 0 <= i < |sites|
        ensures BranchIn(PassedOf(p, left - 1, sites[i], f, index).fedBy, rest) <==>
          SiteLeads(p, sites[i], f, index, rest) && |rest| <= left
      {
        SiteBranch(p, left - 1, sites[i], f, index, rest);
      }
      if b :| BackStep(p, a, b) && Leads(p, b, rest) {
        var i :| 0 <= i < |sites| && PassedAt(p, sites[i], f, index, b);
        assert SiteLeads(p, sites[i], f, index, rest);
      }
      if i :| 0 <= i < |sites| && SiteLeads(p, sites[i], f, index, rest) {
        var b :| PassedAt(p, sites[i], f, index, b) && Leads(p, b, rest);
        assert BackStep(p, a, b);
      }
    }
  }

  lemma {:induction false} LeadsOn(p: Program, a: Lookup, names: seq<string>)
    requires p.Valid() && Valid(p, a) && |names| > 1 && names[0] == a.name
    ensures Leads(p, a, names) <==> exists b :: BackStep(p, a, b) && Leads(p, b, names[1..])
  {
    hide BackStep;
  }

  lemma {:induction false} LeadsName(p: Program, a: Lookup, names: seq<string>)
    requires p.Valid() && Leads(p, a, names)
    ensures names != [] && names[0] == a.name
  {
  }

  // ----- When the depth limit shows

  /** A lookup that a deeper level shows more of: a definition, or a parameter of a function that is called. */
  ghost predicate Expandable(p: Program, a: Lookup)
    requires p.Valid() && a.at < |p.stmts|
  {
    || DefinitionOf(p, a.name, a.at).Some?
    || (ParamFrom(p, p.stmts[a.at].scope, a.name).Some?
      && CallSitesOf(p, ParamFrom(p, p.stmts[a.at].scope, a.name).value.0) != [])
  }

  /** A chain of exactly `n` back-steps to a lookup that goes on. */
  ghost predicate Deeper(p: Program, a: Lookup, n: nat)
    requires p.Valid()
    decreases n
  {
    Valid(p, a) && if n == 0 then Expandable(p, a) else exists b :: BackStep(p, a, b) && Deeper(p, b, n - 1)
  }

  ghost predicate SameOrigin(p: Program, left: nat, more: nat, param: string, name: string, at: nat)
    requires p.Valid() && at < |p.stmts|
  {
    OriginOf(p, left, param, name, at) == OriginOf(p, more, param, name, at)
  }

  lemma {:induction false} SameSources(p: Program, left: nat, more: nat, param: string, refs: seq<Ref>, at: nat)
    requires p.Valid() && at < |p.stmts|
    ensures |SourcesOf(p, left, param, refs, at)| == |SourcesOf(p, more, param, refs, at)|
    ensures SourcesOf(p, left, param, refs, at) == SourcesOf(p, more, param, refs, at)
       <==> forall name :: Mentions(refs, name) ==> SameOrigin(p, left, more, param, name, at)
    decreases |refs|
  {
    hide Looked, OriginOf, Repeated;
    if refs != [] {
      var n := |refs| - 1;
      var name := refs[n].name;
      OriginNamed(p, left, param, name, at);
      OriginNamed(p, more, param, name, at);
      SameSources(p, left, more, param, refs[..n], at);
      MentionsLast(refs);
      var a, b := SourcesOf(p, left, param, refs[..n], at), SourcesOf(p, more, param, refs[..n], at);
      if !Looked(p, name, at) {
        assert SameOrigin(p, left, more, param, name, at);
      } else if !Repeated(refs, n) {
        AppendSame(a, b, OriginOf(p, left, param, name, at).value, OriginOf(p, more, param, name, at).value);
        assert Mentions(refs, name);
      }
    }
  }

  lemma {:induction false} MentionsLast(refs: seq<Ref>)
    requires refs != []
    ensures forall name :: Mentions(refs, name) <==> Mentions(refs[..|refs| - 1], name) || name == refs[|refs| - 1].name
    ensures Repeated(refs, |refs| - 1) <==> Mentions(refs[..|refs| - 1], refs[|refs| - 1].name)
  {
    var n := |refs| - 1;
    assert forall k :: 0 <= k < n ==> refs[..n][k] == refs[k];
    forall name ensures Mentions(refs, name) <==> Mentions(refs[..n], name) || name == refs[n].name {
      if Mentions(refs[..n], name) {
        var k :| 0 <= k < n && refs[..n][k].name == name;
        assert refs[k].name == name;
      }
    }
    if Repeated(refs, n) {
      var j :| 0 <= j < n && refs[j].name == refs[n].name;
      assert refs[..n][j].name == refs[n].name;
    }
  }

  lemma {:induction false} AppendSame(a: seq<Source>, b: seq<Source>, x: Source, y: Source)
    requires |a| == |b|
    ensures a + [x] == b + [y] <==> a == b && x == y
  {
    if a + [x] == b + [y] {
      assert a == (a + [x])[..|a|] && b == (b + [y])[..|b|] && x == (a + [x])[|a|] && y == (b + [y])[|b|];
    }
  }

  lemma {:induction false} SameName(p: Program, a: Lookup, n: nat, refs: seq<Ref>, at: nat)
    requires p.Valid() && Valid(p, a) && n > 0 && DefinitionOf(p, a.name, a.at) == Some(at)
      && refs == p.stmts[at].value.refs
    ensures Deeper(p, a, n) <==> exists name :: Mentions(refs, name) && Deeper(p, Lookup(name, at), n - 1)
  {
    hide Looked, Mentions, DefinitionOf, Expandable;
    if Deeper(p, a, n) {
      var b :| BackStep(p, a, b) && Deeper(p, b, n - 1);
      assert b == Lookup(b.name, at);
    }
    if name :| Mentions(refs, name) && Deeper(p, Lookup(name, at), n - 1) {
      assert BackStep(p, a, Lookup(name, at));
    }
  }

  /** A larger limit shows the same origin exactly when no chain of back-steps goes on past the limit. */
  lemma {:induction false} SameOriginIff(p: Program, left: nat, more: nat, param: string, a: Lookup)
    requires p.Valid() && a.at < |p.stmts| && left < more
    ensures SameOrigin(p, left, more, param, a.name, a.at) <==> !Deeper(p, a, left)
    decreases left, 1
  {
    hide Looked, ParamFrom, DefinitionOf, CallSitesOf, Mentions, SourcesOf, PassedAll, BackStep;
    if Looked(p, a.name, a.at) {
      if left == 0 {
        NothingSame(p, more, param, a);
      } else if DefinitionOf(p, a.name, a.at).Some? {
        SameDefinition(p, left, more, param, a);
      } else {
        SameParam(p, left, more, param, a);
      }
    }
  }

  lemma {:induction false} NothingSame(p: Program, more: nat, param: string, a: Lookup)
    requires p.Valid() && Valid(p, a) && more > 0
    ensures SameOrigin(p, 0, more, param, a.name, a.at) <==> !Expandable(p, a)
  {
    hide Looked, DefinitionOf, CallSitesOf, SourcesOf, PassedAll, ParamFrom;
    var owner := ParamFrom(p, p.stmts[a.at].scope, a.name);
    if DefinitionOf(p, a.name, a.at).None? && owner.Some? {
      PassedAllAt(p, more - 1, CallSitesOf(p, owner.value.0), owner.value.0, owner.value.1);
    }
  }

  lemma {:induction false} SameDefinition(p: Program, left: nat, more: nat, param: string, a: Lookup)
    requires p.Valid() && Valid(p, a) && 0 < left < more && DefinitionOf(p, a.name, a.at).Some?
    ensures SameOrigin(p, left, more, param, a.name, a.at) <==> !Deeper(p, a, left)
    decreases left, 0
  {
    hide Looked, ParamFrom, DefinitionOf, CallSitesOf, Mentions, SourcesOf, SameOrigin, Deeper;
    var def := DefinitionOf(p, a.name, a.at).value;
    var refs := p.stmts[def].value.refs;
    SameSources(p, left - 1, more - 1, "", refs, def);
    SameName(p, a, left, refs, def);
    forall name ensures SameOrigin(p, left - 1, more - 1, "", name, def) <==> !Deeper(p, Lookup(name, def), left - 1) {
      SameOriginIff(p, left - 1, more - 1, "", Lookup(name, def));
    }
    DefinedSame(p, left, more, param, a);
  }

  lemma {:induction false} DefinedSame(p: Program, left: nat, more: nat, param: string, a: Lookup)
    requires p.Valid() && Valid(p, a) && 0 < left && 0 < more && DefinitionOf(p, a.name, a.at).Some?
    ensures var def := DefinitionOf(p, a.name, a.at).value; var refs := p.stmts[def].value.refs;
            SameOrigin(p, left, more, param, a.name, a.at) <==>
              SourcesOf(p, left - 1, "", refs, def) == SourcesOf(p, more - 1, "", refs, def)
  {
    hide Looked, ParamFrom, DefinitionOf, SourcesOf;
  }

  lemma {:induction false} ParamSame(p: Program, left: nat, more: nat, param: string, a: Lookup)
    requires p.Valid() && Valid(p, a) && 0 < left && 0 < more && DefinitionOf(p, a.name, a.at).None?
    requires ParamFrom(p, p.stmts[a.at].scope, a.name).Some?
    ensures var owner := ParamFrom(p, p.stmts[a.at].scope, a.name).value; var sites := CallSitesOf(p, owner.0);
            SameOrigin(p, left, more, param, a.name, a.at)
            <==> forall i :: 0 <= i < |sites| ==> SamePassed(p, left - 1, more - 1, sites[i], owner.0, owner.1)
  {
    hide Looked, DefinitionOf, SourcesOf, CallSitesOf, PassedAll;
    var owner := ParamFrom(p, p.stmts[a.at].scope, a.name).value;
    var sites := CallSitesOf(p, owner.0);
    PassedAllAt(p, left - 1, sites, owner.0, owner.1);
    PassedAllAt(p, more - 1, sites, owner.0, owner.1);
    var x, y := PassedAll(p, left - 1, sites, owner.0, owner.1), PassedAll(p, more - 1, sites, owner.0, owner.1);
    forall i | 0 <= i < |sites|
      ensures x[i] == y[i] <==> SamePassed(p, left - 1, more - 1, sites[i], owner.0, owner.1) {
    }
    assert x == y <==> forall i :: 0 <= i < |sites| ==> x[i] == y[i];
  }

  ghost predicate SamePassed(p: Program, left: nat, more: nat, site: nat, f: nat, index: nat)
    requires p.Valid() && site < |p.calls| && f < |p.funcs| && index < |p.funcs[f].params|
  {
    SourcesOf(p, left, "", PassedRefs(p, site, f, index), p.calls[site].stmt)
    == SourcesOf(p, more, "", PassedRefs(p, site, f, index), p.calls[site].stmt)
  }

  lemma {:induction false} SameParam(p: Program, left: nat, more: nat, param: string, a: Lookup)
    requires p.Valid() && Valid(p, a) && 0 < left < more && DefinitionOf(p, a.name, a.at).None?
    ensures SameOrigin(p, left, more, param, a.name, a.at) <==> !Deeper(p, a, left)
    decreases left, 0
  {
    hide Looked, ParamFrom, DefinitionOf, CallSitesOf, Mentions, SourcesOf, PassedAll, PassedRefs, Expandable;
    var owner := ParamFrom(p, p.stmts[a.at].scope, a.name);
    if owner.Some? {
      hide SameOrigin;
      var f, index := owner.value.0, owner.value.1;
      var sites := CallSitesOf(p, f);
      ParamSame(p, left, more, param, a);
      forall i | 0 <= i < |sites|
        ensures SamePassed(p, left - 1, more - 1, sites[i], f, index)
           <==> forall b :: PassedAt(p, sites[i], f, index, b) ==> !Deeper(p, b, left - 1)
      {
        SamePassedIff(p, left - 1, more - 1, sites[i], f, index);
      }
      assert Deeper(p, a, left) <==> exists b :: BackStep(p, a, b) && Deeper(p, b, left - 1);
      if Deeper(p, a, left) {
        var b :| BackStep(p, a, b) && Deeper(p, b, left - 1);
        var i :| 0 <= i < |sites| && PassedAt(p, sites[i], f, index, b);
        assert !SamePassed(p, left - 1, more - 1, sites[i], f, index);
      } else {
        forall i | 0 <= i < |sites| ensures SamePassed(p, left - 1, more - 1, sites[i], f, index) {
          forall b | PassedAt(p, sites[i], f, index, b) ensures !Deeper(p, b, left - 1) {
            assert BackStep(p, a, b);
          }
        }
      }
    }
  }

  lemma {:induction false} SamePassedIff(p: Program, left: nat, more: nat, site: nat, f: nat, index: nat)
    requires p.Valid() && site < |p.calls| && f < |p.funcs| && index < |p.funcs[f].params| && left < more
    ensures SamePassed(p, left, more, site, f, index) <==> forall b :: PassedAt(p, site, f, index, b) ==>
      !Deeper(p, b, left)
    decreases left, 2
  {
    hide SourcesOf, SameOrigin, Deeper, Mentions, PassedRefs;
    var refs, at := PassedRefs(p, site, f, index), p.calls[site].stmt;
    SameSources(p, left, more, "", refs, at);
    forall name ensures SameOrigin(p, left, more, "", name, at) <==> !Deeper(p, Lookup(name, at), left) {
      SameOriginIff(p, left, more, "", Lookup(name, at));
    }
    if SamePassed(p, left, more, site, f, index) {
      forall b | PassedAt(p, site, f, index, b) ensures !Deeper(p, b, left) {
        assert SameOrigin(p, left, more, "", b.name, at) && b == Lookup(b.name, at);
      }
    } else {
      var name :| Mentions(refs, name) && !SameOrigin(p, left, more, "", name, at);
      assert PassedAt(p, site, f, index, Lookup(name, at));
    }
  }

  /** What a call asks about: its receiver, and every name of an argument. */
  ghost predicate Asks(p: Program, c: nat, a: Lookup)
    requires c < |p.calls|
  {
    var call := p.calls[c];
    && a.at == call.stmt
    && ((call.receiver != "" && a.name == call.receiver)
        || exists i :: 0 <= i < |call.args| && Mentions(call.args[i].expr.refs, a.name))
  }

  /** The origins of a call are complete, the same under every larger limit, exactly when no chain of
      back-steps from what it asks about goes on past the limit. */
  lemma {:induction false} FedByCompleteIff(p: Program, limit: nat, c: nat)
    requires p.Valid() && c < |p.calls|
    ensures (forall more :: limit < more ==> FedByOf(p, more, c) == FedByOf(p, limit, c))
       <==> forall a :: Asks(p, c, a) ==> !Deeper(p, a, limit + 1)
  {
    hide Asks, Deeper, FedByOf;
    if forall a :: Asks(p, c, a) ==> !Deeper(p, a, limit + 1) {
      forall more | limit < more ensures FedByOf(p, more, c) == FedByOf(p, limit, c) {
        FedBySameIff(p, limit, more, c);
      }
    } else {
      FedBySameIff(p, limit, limit + 1, c);
    }
  }

  lemma {:induction false} FedBySameIff(p: Program, limit: nat, more: nat, c: nat)
    requires p.Valid() && c < |p.calls| && limit < more
    ensures FedByOf(p, more, c) == FedByOf(p, limit, c) <==> forall a :: Asks(p, c, a) ==> !Deeper(p, a, limit + 1)
  {
    hide Deeper, Mentions, ArgsFrom;
    var call := p.calls[c];
    SameReceiver(p, limit, more, c);
    SameArgs(p, limit, more, c, |call.args|);
    var r, s := ReceiverOf(p, limit, c), ReceiverOf(p, more, c);
    var x, y := ArgsFrom(p, limit, c, |call.args|), ArgsFrom(p, more, c, |call.args|);
    assert r + x == s + y <==> r == s && x == y by {
      assert r == (r + x)[..|r|] && s == (s + y)[..|s|] && x == (r + x)[|r|..] && y == (s + y)[|s|..];
    }
    if r == s && x == y {
      forall a | Asks(p, c, a) ensures !Deeper(p, a, limit + 1) {
        assert a == Lookup(a.name, call.stmt);
        if !(call.receiver != "" && a.name == call.receiver) {
          var i :| 0 <= i < |call.args| && Mentions(call.args[i].expr.refs, a.name);
          assert ArgumentEnds(p, limit, c, i);
        }
      }
    } else if r == s {
      var i :| 0 <= i < |call.args| && !ArgumentEnds(p, limit, c, i);
      var name :| Mentions(call.args[i].expr.refs, name) && Deeper(p, Lookup(name, call.stmt), limit + 1);
      assert Asks(p, c, Lookup(name, call.stmt));
    } else {
      assert Asks(p, c, Lookup(call.receiver, call.stmt));
    }
  }

  lemma {:induction false} SameReceiver(p: Program, limit: nat, more: nat, c: nat)
    requires p.Valid() && c < |p.calls| && limit < more
    ensures |ReceiverOf(p, limit, c)| == |ReceiverOf(p, more, c)|
    ensures ReceiverOf(p, limit, c) == ReceiverOf(p, more, c)
       <==> p.calls[c].receiver == "" || !Deeper(p, Lookup(p.calls[c].receiver, p.calls[c].stmt), limit + 1)
  {
    hide OriginOf, Deeper;
    var call := p.calls[c];
    OriginNamed(p, limit + 1, "receiver", call.receiver, call.stmt);
    OriginNamed(p, more + 1, "receiver", call.receiver, call.stmt);
    SameOriginIff(p, limit + 1, more + 1, "receiver", Lookup(call.receiver, call.stmt));
  }

  ghost predicate ArgumentEnds(p: Program, limit: nat, c: nat, i: nat)
    requires p.Valid() && c < |p.calls| && i < |p.calls[c].args|
  {
    forall name :: Mentions(p.calls[c].args[i].expr.refs, name) ==> !Deeper(p, Lookup(name, p.calls[c].stmt), limit + 1)
  }

  lemma {:induction false} SameArgs(p: Program, limit: nat, more: nat, c: nat, n: nat)
    requires p.Valid() && c < |p.calls| && n <= |p.calls[c].args| && limit < more
    ensures |ArgsFrom(p, limit, c, n)| == |ArgsFrom(p, more, c, n)|
    ensures ArgsFrom(p, limit, c, n) == ArgsFrom(p, more, c, n)
       <==> forall i :: 0 <= i < n ==> ArgumentEnds(p, limit, c, i)
  {
    hide SourcesOf, Deeper, Mentions, ParamName, SameOrigin;
    if n > 0 {
      var arg, at := p.calls[c].args[n - 1], p.calls[c].stmt;
      var param := ParamName(arg, n - 1);
      SameArgs(p, limit, more, c, n - 1);
      SameSources(p, limit + 1, more + 1, param, arg.expr.refs, at);
      forall name ensures SameOrigin(p, limit + 1, more + 1, param, name, at) <==>
        !Deeper(p, Lookup(name, at), limit + 1) {
        SameOriginIff(p, limit + 1, more + 1, param, Lookup(name, at));
      }
      var r, s := ArgsFrom(p, limit, c, n - 1), ArgsFrom(p, more, c, n - 1);
      var x, y := SourcesOf(p, limit + 1, param, arg.expr.refs, at), SourcesOf(p, more + 1, param, arg.expr.refs, at);
      assert r + x == s + y <==> r == s && x == y by {
        assert r == (r + x)[..|r|] && s == (s + y)[..|s|] && x == (r + x)[|r|..] && y == (s + y)[|s|..];
      }
      assert x == y <==> ArgumentEnds(p, limit, c, n - 1);
    }
  }
}
