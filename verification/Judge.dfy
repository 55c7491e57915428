/** The judge: what may be recorded about a finding (pkg/internal/layers/judge/tools.go). */
module JudgeStore {
  import opened Options
  import opened Severities

  /** A severity named by a text, as the model writes it. */
  function Named(s: string): Severity {
    if s == "low" then Low else if s == "medium" then Medium else if s == "high" then High
    else if s == "critical" then Critical else Other(s)
  }

  function NameOf(s: Severity): string {
    match s
    case Low => "low"
    case Medium => "medium"
    case High => "high"
    case Critical => "critical"
    case Other(name) => name
  }

  const DISMISS := "dismiss"

  datatype Record = Record(finding: string, verdict: string, confidence: int, explanation: string)

  datatype Target = Target(index: nat, from: Severity, policy: Policy)

  datatype State = Confirmed | Upheld | Downgraded | Dismissed

  datatype Outcome = Outcome(index: nat, severity: Severity, state: State, confidence: int, reason: string)

  // ----- What one verdict comes to

  function Lowest(t: Target): Severity {
    if !t.policy.downgrade then t.from else if t.policy.floor == NO_SEVERITY then Low else t.policy.floor
  }

  function Dismissal(t: Target): (Severity, State) {
    if t.policy.downgrade && t.policy.floor == NO_SEVERITY then (t.from, Dismissed)
    else if Lowest(t).Rank() < t.from.Rank() then (Lowest(t), Downgraded)
    else (t.from, Upheld)
  }

  function Resolve(t: Target, want: string): (Severity, State) {
    if want == DISMISS then Dismissal(t)
    else if Named(want).Rank() > t.from.Rank() then (t.from, Confirmed)
    else
      var end := if Named(want).Rank() < Lowest(t).Rank() then Lowest(t) else Named(want);
      if end.Rank() < t.from.Rank() then (end, Downgraded)
      else if want == NameOf(t.from) then (t.from, Confirmed)
      else (t.from, Upheld)
  }

  /** The bounds of any verdict on a target. */
  ghost predicate Bounded(t: Target, severity: Severity, state: State) {
    && severity.Rank() <= t.from.Rank()
    && (state == Downgraded <==> severity.Rank() < t.from.Rank())
    && (state == Downgraded ==> t.policy.downgrade && t.policy.floor.Rank() <= severity.Rank())
    && (state == Dismissed ==> t.policy.downgrade && t.policy.floor == NO_SEVERITY)
    && (state != Downgraded ==> severity == t.from)
  }

  /** No verdict raises a severity or goes below the floor; only a rule that may be downgraded
      and has no floor can be dismissed. */
  lemma {:induction false} ResolveBounded(t: Target, want: string)
    requires t.from.Rank() > 0 && (want == DISMISS || Named(want).Rank() > 0)
    ensures Bounded(t, Resolve(t, want).0, Resolve(t, want).1)
  {}

  /** A wanted severity within the bounds is granted as it is, and outside them the nearest
      bound is: the result is the wanted severity clamped between the floor and the severity. */
  lemma {:induction false} ResolveClamps(t: Target, want: string)
    requires t.from.Rank() > 0 && Named(want).Rank() > 0
    ensures var low := if Lowest(t).Rank() < t.from.Rank() then Lowest(t).Rank() else t.from.Rank();
            Resolve(t, want).0.Rank() ==
              if Named(want).Rank() > t.from.Rank() then t.from.Rank()
              else if Named(want).Rank() < low then low
              else Named(want).Rank()
  {}

  /** What the policy leaves of a wish to dismiss: a rule that may not be downgraded keeps its severity, one without a
      floor is dismissed, and one with a floor goes down to it. */
  lemma {:induction false} DismissGranted(t: Target)
    requires t.policy.Valid()
    ensures Resolve(t, "dismiss") ==
            if !t.policy.downgrade then (t.from, Upheld)
            else if t.policy.floor == NO_SEVERITY then (t.from, Dismissed)
            else if t.policy.floor.Rank() < t.from.Rank() then (t.policy.floor, Downgraded)
            else (t.from, Upheld)
  {
  }

  /** What it leaves of a wanted severity: never a higher one, a lower one only down to the floor, and none if the rule
      may not be downgraded. A finding is confirmed when its own severity or a higher one is wanted. */
  lemma {:induction false} SeverityGranted(t: Target, want: string)
    requires t.policy.Valid() && t.from.Rank() > 0 && Named(want).Rank() > 0
    ensures var (severity, state) := Resolve(t, want);
            var w, f := Named(want).Rank(), t.from.Rank();
            && (!t.policy.downgrade || w >= f ==> severity == t.from)
            && (t.policy.downgrade && w < f && t.policy.floor.Rank() <= w ==> severity == Named(want))
            && (t.policy.downgrade && w < t.policy.floor.Rank() < f ==> severity == t.policy.floor)
            && (t.policy.downgrade && w < f <= t.policy.floor.Rank() ==> severity == t.from)
            && (state == Confirmed <==> w >= f)
            && (state == Upheld <==> w < f && severity == t.from)
  {
  }

  // ----- The store

  datatype Fault = Unknown | BadVerdict | NoExplanation | BadConfidence

  function Check(targets: map<string, Target>, id: string, r: Record): (f: Option<Fault>)
  {
    if id !in targets then Some(Unknown)
    else if r.verdict != DISMISS && Named(r.verdict).Rank() == 0 then Some(BadVerdict)
    else if r.explanation == "" then Some(NoExplanation)
    else if r.confidence < 1 || r.confidence > 4 then Some(BadConfidence)
    else None
  }

  /** A record is taken when it is about a known finding, wants a dismissal or one of the four severities, explains
      itself and has a confidence from one to four. */
  lemma {:induction false} TakenIff(targets: map<string, Target>, id: string, r: Record)
    ensures Check(targets, id, r).None? <==>
      && id in targets && r.verdict in {"dismiss", "low", "medium", "high", "critical"}
      && |r.explanation| > 0 && 1 <= r.confidence <= 4
  {
  }

  function Filed(t: Target, r: Record): Outcome {
    var (severity, state) := Resolve(t, r.verdict);
    Outcome(t.index, severity, state, r.confidence, r.explanation)
  }

  class Store {
    const targets: map<string, Target>
    const ids: seq<string>
    /** Trims and upper-cases an identifier; a parameter of the model. */
    const canonical: string -> string
    var byID: map<string, Outcome>
    var order: seq<string>

    ghost predicate Valid()
      reads this
    {
      && (forall i, j :: 0 <= i < j < |order| ==> order[i] != order[j])
      && (forall id :: id in order <==> id in byID)
      && (forall id :: id in byID ==> id in targets && Sound(targets[id], byID[id]))
      && (forall id :: id in ids <==> id in targets)
      && forall id :: id in targets ==> targets[id].from.Rank() > 0
    }

    ghost predicate Sound(t: Target, o: Outcome) {
      o.index == t.index && Bounded(t, o.severity, o.state) && 1 <= o.confidence <= 4
    }

    constructor (targets: map<string, Target>, ids: seq<string>, canonical: string -> string)
      requires forall id :: id in ids <==> id in targets
      requires forall id :: id in targets ==> targets[id].from.Rank() > 0
      ensures Valid() && this.targets == targets && this.ids == ids && byID == map[] && this.canonical == canonical
    {
      this.targets, this.ids, this.canonical := targets, ids, canonical;
      byID, order := map[], [];
    }

    predicate Accepts(r: Record) { Check(targets, canonical(r.finding), r).None? }

    ghost predicate AcceptsAll(rs: seq<Record>) { forall i :: 0 <= i < |rs| ==> Accepts(rs[i]) }

    /** The outcomes after recording `rs` in turn: the last record of a finding wins. */
    ghost function After(from: map<string, Outcome>, rs: seq<Record>): map<string, Outcome>
      requires forall i :: 0 <= i < |rs| ==> Accepts(rs[i])
    {
      if rs == [] then from
      else
        var r := rs[|rs| - 1];
        assert Accepts(r);
        After(from, rs[..|rs| - 1])[canonical(r.finding) := Filed(targets[canonical(r.finding)], r)]
    }

    /** The k-th record is the last one about the finding. */
    ghost predicate LastAbout(rs: seq<Record>, k: nat, id: string)
      requires k < |rs|
    {
      canonical(rs[k].finding) == id && forall j :: k < j < |rs| ==> canonical(rs[j].finding) != id
    }

    /** The outcome files the record under the finding, as its policy allows. */
    ghost predicate Files(o: Outcome, id: string, r: Record) {
      && id in targets && o.index == targets[id].index && o.confidence == r.confidence && o.reason == r.explanation
      && (o.severity, o.state) == Resolve(targets[id], r.verdict)
    }

    ghost predicate LastFiled(from: map<string, Outcome>, rs: seq<Record>, id: string, after: map<string, Outcome>) {
      && (forall k :: 0 <= k < |rs| && LastAbout(rs, k, id) ==> id in after && Files(after[id], id, rs[k]))
      && ((forall k :: 0 <= k < |rs| ==> canonical(rs[k].finding) != id) ==>
            (id in after <==> id in from) && (id in from ==> after[id] == from[id]))
    }

    /** Of each finding the last record is what is filed; others keep what they had. */
    lemma {:induction false} LastRecordWins(from: map<string, Outcome>, rs: seq<Record>, id: string)
      requires AcceptsAll(rs)
      ensures LastFiled(from, rs, id, After(from, rs))
    {
      hide After, Files, Filed, Accepts, LastFiled;
      if rs == [] {
        NothingFiled(from, id);
      } else {
        var n := |rs| - 1;
        LastRecordWins(from, rs[..n], id);
        AfterNext(from, rs);
        FiledNext(from, rs[..n], rs[n], id, After(from, rs[..n]));
        assert rs == rs[..n] + [rs[n]];
      }
    }

    lemma {:induction false} NothingFiled(from: map<string, Outcome>, id: string)
      ensures AcceptsAll([]) && LastFiled(from, [], id, After(from, []))
    {
    }

    lemma {:induction false} AfterNext(from: map<string, Outcome>, rs: seq<Record>)
      requires AcceptsAll(rs) && rs != []
      ensures var r := rs[|rs| - 1];
              Accepts(r) && AcceptsAll(rs[..|rs| - 1]) && canonical(r.finding) in targets
              && After(from, rs)
                == After(from, rs[..|rs| - 1])[canonical(r.finding) := Filed(targets[canonical(r.finding)], r)]
    {
      hide Filed;
      assert Accepts(rs[|rs| - 1]);
    }

    lemma {:induction false} FiledNext(from: map<string, Outcome>, rs: seq<Record>, r: Record, id: string,
        after: map<string, Outcome>)
      requires LastFiled(from, rs, id, after) && canonical(r.finding) in targets
      ensures LastFiled(from, rs + [r], id, after[canonical(r.finding) := Filed(targets[canonical(r.finding)], r)])
    {
      hide Files, Filed;
      FilesRecord(canonical(r.finding), r);
      LastNext(rs, r, id);
      var all := rs + [r];
      assert forall k :: 0 <= k < |rs| ==> all[k] == rs[k];
      assert all[|rs|] == r;
      hide LastAbout;
    }

    /** The new record is the last one about its finding, and changes nothing about the others. */
    lemma {:induction false} LastNext(rs: seq<Record>, r: Record, id: string)
      ensures forall k :: 0 <= k < |rs| + 1 && LastAbout(rs + [r], k, id) ==>
                if canonical(r.finding) == id then k == |rs| else k < |rs| && LastAbout(rs, k, id)
    {
      var all := rs + [r];
      assert all[|rs|] == r;
      forall k | 0 <= k < |rs| + 1 && LastAbout(all, k, id)
        ensures if canonical(r.finding) == id then k == |rs| else k < |rs| && LastAbout(rs, k, id)
      {
        if k < |rs| {
          assert canonical(all[|rs|].finding) != id;
          forall j | k < j < |rs| ensures canonical(rs[j].finding) != id {
            assert all[j] == rs[j];
          }
        }
      }
    }

    lemma {:induction false} FilesRecord(id: string, r: Record)
      requires id in targets
      ensures Files(Filed(targets[id], r), id, r)
    {
      hide Resolve;
    }

    lemma {:induction false} AfterThen(from: map<string, Outcome>, first: seq<Record>, then_: seq<Record>)
      requires AcceptsAll(first) && AcceptsAll(then_)
      ensures AcceptsAll(first + then_) && After(from, first + then_) == After(After(from, first), then_)
      decreases |then_|
    {
      hide Accepts, Filed;
      if then_ == [] {
        assert first + then_ == first;
      } else {
        var n := |then_| - 1;
        assert (first + then_)[..|first + then_| - 1] == first + then_[..n];
        AfterThen(from, first, then_[..n]);
      }
    }

    method Put(id: string, r: Record)
      requires Valid() && id == canonical(r.finding) && Accepts(r)
      modifies this
      ensures Valid() && byID == old(byID)[id := Filed(targets[id], r)]
      ensures order == if id in old(byID) then old(order) else old(order) + [id]
    {
      ResolveBounded(targets[id], r.verdict);
      if id !in byID {
        order := order + [id];
      }
      byID := byID[id := Filed(targets[id], r)];
    }

    method CheckAll(rs: seq<Record>) returns (fault: Option<(nat, Fault)>)
      ensures fault.None? <==> forall i :: 0 <= i < |rs| ==> Accepts(rs[i])
    {
      for i := 0 to |rs|
        invariant forall k :: 0 <= k < i ==> Accepts(rs[k])
      {
        var f := Check(targets, canonical(rs[i].finding), rs[i]);
        if f.Some? {
          return Some((i, f.value));
        }
      }
      return None;
    }

    /** A batch is recorded whole or not at all. */
    method Take(rs: seq<Record>) returns (fault: Option<(nat, Fault)>)
      requires Valid()
      modifies this
      ensures Valid() && old(order) <= order
      ensures fault.None? <==> forall i :: 0 <= i < |rs| ==> Accepts(rs[i])
      ensures fault.Some? ==> byID == old(byID) && order == old(order)
      ensures fault.None? ==> byID == After(old(byID), rs)
      ensures forall id :: id in old(byID) ==> id in byID
    {
      hide Valid, Check, Filed;
      fault := CheckAll(rs);
      if fault.Some? {
        return;
      }
      for i := 0 to |rs|
        invariant Valid() && byID == After(old(byID), rs[..i]) && old(order) <= order
        invariant forall id :: id in old(byID) ==> id in byID
      {
        assert rs[..i + 1][..i] == rs[..i];
        Put(canonical(rs[i].finding), rs[i]);
      }
      assert rs[..|rs|] == rs;
    }

    method Missing() returns (out: seq<string>)
      ensures forall id :: id in out <==> id in ids && id !in byID
    {
      out := [];
      for i := 0 to |ids|
        invariant forall id :: id in out <==> id in ids[..i] && id !in byID
      {
        if ids[i] !in byID {
          out := out + [ids[i]];
        }
      }
      assert ids[..|ids|] == ids;
    }

    lemma {:induction false} IdsAreTargets()
      requires Valid()
      ensures forall id :: id in ids <==> id in targets
    {
    }

    ghost predicate AllRecorded()
      reads this
    {
      forall id :: id in targets ==> id in byID
    }

    method Results() returns (out: seq<Outcome>)
      requires Valid()
      ensures |out| == |order| && forall i :: 0 <= i < |order| ==> out[i] == byID[order[i]]
    {
      out := [];
      for i := 0 to |order|
        invariant |out| == i && forall k :: 0 <= k < i ==> out[k] == byID[order[k]]
      {
        assert order[i] in order;
        out := out + [byID[order[i]]];
      }
    }
  }
}

/** The request loop (pkg/llm/agent/agent.go) with the tools of the judge. */
module JudgeLoop {
  import opened Options
  import opened JudgeStore

  /** A tool call of the model; `None` when its arguments do not parse. */
  datatype Call = Call(name: string, args: Option<seq<Record>>)

  datatype Reply = Reply(calls: seq<Call>, tokens: nat)

  const VERDICT := "verdict"
  const SUBMIT := "submit_result"

  datatype LoopError = Budget | Provider | Compaction

  /** One call: `final` is set exactly when it is a submission that the store takes and nothing is
      missing afterwards. */
  method CallTool(store: Store, call: Call) returns (final: bool)
    requires store.Valid()
    modifies store
    ensures store.Valid()
    ensures final <==>
      call.name == SUBMIT && call.args.Some? && store.AcceptsAll(call.args.value) && store.AllRecorded()
    ensures (call.name == VERDICT || call.name == SUBMIT) && call.args.Some? && store.AcceptsAll(call.args.value)
      ==> store.byID == store.After(old(store.byID), call.args.value)
    ensures !((call.name == VERDICT || call.name == SUBMIT) && call.args.Some? && store.AcceptsAll(call.args.value))
      ==> store.byID == old(store.byID) && store.order == old(store.order)
    ensures forall id :: id in old(store.byID) ==> id in store.byID
  {
    hide Store.Valid, Store.Accepts, Store.After;
    if (call.name != VERDICT && call.name != SUBMIT) || call.args.None? {
      return false;
    }
    var fault := store.Take(call.args.value);
    if call.name == VERDICT || fault.Some? {
      return false;
    }
    var missing := store.Missing();
    store.IdsAreTargets();
    if |missing| > 0 {
      assert missing[0] in missing;
      return false;
    }
    forall id | id in store.targets ensures id in store.byID {
      assert id in store.ids && id !in missing;
    }
    return true;
  }

  /** All calls of one reply; those after an accepted submission are still made. */
  method Answer(store: Store, reply: Reply) returns (done: bool, ghost taken: seq<Record>)
    requires store.Valid()
    modifies store
    ensures store.Valid() && (done ==> store.AllRecorded())
    ensures store.AcceptsAll(taken) && store.byID == store.After(old(store.byID), taken)
    ensures forall id :: id in old(store.byID) ==> id in store.byID
  {
    hide Store.Valid, Store.Accepts, Store.After;
    done, taken := false, [];
    NothingAfter(store);
    for i := 0 to |reply.calls|
      invariant store.Valid() && (done ==> store.AllRecorded())
      invariant store.AcceptsAll(taken) && store.byID == store.After(old(store.byID), taken)
      invariant forall id :: id in old(store.byID) ==> id in store.byID
    {
      ghost var call := reply.calls[i];
      if Takes(store, call) {
        store.AfterThen(old(store.byID), taken, call.args.value);
        taken := taken + call.args.value;
      }
      var final := CallTool(store, reply.calls[i]);
      done := done || final;
    }
  }

  /** A call that records its batch. */
  ghost predicate Takes(store: Store, call: Call) {
    (call.name == VERDICT || call.name == SUBMIT) && call.args.Some? && store.AcceptsAll(call.args.value)
  }

  lemma {:induction false} NothingAfter(store: Store)
    ensures store.AcceptsAll([]) && store.After(store.byID, []) == store.byID
  {
  }

  /** Whatever the model replies, at most `calls` requests go out, and the loop ends without an
      error only when every finding has an outcome. */
  method Run(store: Store, calls: int, compactionAt: int)
    returns (sent: nat, counted: nat, error: Option<LoopError>, ghost taken: seq<Record>)
    requires store.Valid()
    modifies store
    ensures store.AcceptsAll(taken) && store.byID == store.After(old(store.byID), taken)
    ensures store.Valid() && counted <= sent && (sent <= calls || sent == 0)
    ensures error.None? ==> store.AllRecorded()
    ensures error == Some(Budget) ==> counted == sent && (sent == calls || calls <= 0)
  {
    hide Store.Valid, Store.Accepts, Store.After;
    sent, counted, taken := 0, 0, [];
    NothingAfter(store);
    while true
      invariant store.AcceptsAll(taken) && store.byID == store.After(old(store.byID), taken)
      invariant store.Valid() && counted == sent && (sent <= calls || sent == 0)
      decreases calls - counted
    {
      if counted >= calls {
        return sent, counted, Some(Budget), taken;
      }
      var ok: bool := *;
      var reply: Reply := *;
      sent := sent + 1;
      if !ok {
        return sent, counted, Some(Provider), taken;
      }
      counted := counted + 1;
      if compactionAt > 0 && reply.tokens >= compactionAt {
        return sent, counted, Some(Compaction), taken;
      }
      ghost var more;
      var done;
      done, more := Answer(store, reply);
      store.AfterThen(old(store.byID), taken, more);
      taken := taken + more;
      if done {
        return sent, counted, None, taken;
      }
    }
  }
}

/** Choosing, labelling and updating the findings (pkg/internal/layers/judge/judge.go). */
module JudgeLayer {
  import opened Options
  import opened Severities
  import opened JudgeStore
  import JudgeLoop
  import Texts

  datatype Rule = Rule(discovery: bool, policy: Policy)

  datatype Judgement = Judgement(state: State, from: Severity, confidence: int, reason: string)

  datatype Finding = Finding(rule: Rule, severity: Severity, judgement: Option<Judgement>) {
    predicate Pending() { judgement.None? && rule.discovery }
  }

  // ----- Identifiers

  /** The identifier of the `n`-th finding that may (`D`) or may not (`ND`) be downgraded. */
  function Id(downgrade: bool, n: nat): string { (if downgrade then "D" else "ND") + Texts.Digits(n) }

  lemma {:induction false} IdInjective(a: bool, m: nat, b: bool, n: nat)
    requires Id(a, m) == Id(b, n)
    ensures a == b && m == n
  {
    assert a == b by {
      assert Id(a, m)[0] == if a then 'D' else 'N';
      assert Id(b, n)[0] == if b then 'D' else 'N';
    }
    assert Texts.Digits(m) == Id(a, m)[if a then 1 else 2..];
    assert Texts.Digits(n) == Id(b, n)[if b then 1 else 2..];
    Texts.DigitsInjective(m, n);
  }

  /** One target per pending finding, under identifiers of its own. */
  ghost predicate Labels(fs: seq<Finding>, targets: map<string, Target>) {
    && (forall id :: id in targets ==> TargetOf(fs, targets[id]))
    && (forall i :: 0 <= i < |fs| && fs[i].Pending() ==> exists id :: id in targets && targets[id].index == i)
    && forall a, b :: a in targets && b in targets && targets[a].index == targets[b].index ==> a == b
  }

  ghost predicate TargetOf(fs: seq<Finding>, t: Target) {
    t.index < |fs| && fs[t.index].Pending() && t == Target(t.index, fs[t.index].severity, fs[t.index].rule.policy)
  }

  /** The identifier of one of the first `down` or `fixed` findings labelled. */
  ghost predicate Numbered(id: string, down: nat, fixed: nat) {
    exists d, n: nat :: id == Id(d, n) && n <= if d then down else fixed
  }

  lemma {:induction false} NextIsNew(d: bool, down: nat, fixed: nat)
    ensures !Numbered(Id(d, 1 + if d then down else fixed), down, fixed)
  {
    var next := 1 + if d then down else fixed;
    if Numbered(Id(d, next), down, fixed) {
      var e, n: nat :| Id(d, next) == Id(e, n) && n <= if e then down else fixed;
      IdInjective(d, next, e, n);
    }
  }

  lemma {:induction false} OneMore(fs: seq<Finding>, targets: map<string, Target>, id: string)
    requires fs != [] && Labels(fs[..|fs| - 1], targets) && fs[|fs| - 1].Pending() && id !in targets
    ensures Labels(fs, targets[id := Target(|fs| - 1, fs[|fs| - 1].severity, fs[|fs| - 1].rule.policy)])
  {
    var n := |fs| - 1;
    var more := targets[id := Target(n, fs[n].severity, fs[n].rule.policy)];
    forall j | j in more ensures TargetOf(fs, more[j]) {
      assert j != id ==> TargetOf(fs[..n], targets[j]);
    }
    forall i | 0 <= i < |fs| && fs[i].Pending() ensures exists j :: j in more && more[j].index == i {
      if i < n {
        assert fs[..n][i].Pending();
        var j :| j in targets && targets[j].index == i;
        assert j in more && more[j].index == i;
      } else {
        assert id in more && more[id].index == i;
      }
    }
  }

  method Label(fs: seq<Finding>) returns (targets: map<string, Target>, ids: seq<string>)
    ensures Labels(fs, targets) && forall id :: id in ids <==> id in targets
  {
    hide Labels, Numbered, Id;
    targets, ids := map[], [];
    var down: nat, fixed: nat := 0, 0;
    assert Labels(fs[..0], targets) by { NoLabels(); }
    for i := 0 to |fs|
      invariant Labels(fs[..i], targets) && forall id :: id in ids <==> id in targets
      invariant forall id :: id in targets ==> Numbered(id, down, fixed)
    {
      assert fs[..i + 1][..i] == fs[..i];
      if fs[i].Pending() {
        var downgrade := fs[i].rule.policy.downgrade;
        NextIsNew(downgrade, down, fixed);
        StillNumbered(targets, downgrade, down, fixed);
        if downgrade { down := down + 1; } else { fixed := fixed + 1; }
        var id := Id(downgrade, if downgrade then down else fixed);
        OneMore(fs[..i + 1], targets, id);
        targets := targets[id := Target(i, fs[i].severity, fs[i].rule.policy)];
        ids := ids + [id];
      } else {
        NoneMore(fs[..i + 1], targets);
      }
    }
    assert fs[..|fs|] == fs;
  }

  lemma {:induction false} NoLabels()
    ensures Labels([], map[])
  {}

  lemma {:induction false} NoneMore(fs: seq<Finding>, targets: map<string, Target>)
    requires fs != [] && Labels(fs[..|fs| - 1], targets) && !fs[|fs| - 1].Pending()
    ensures Labels(fs, targets)
  {
    forall id | id in targets ensures TargetOf(fs, targets[id]) {
      assert TargetOf(fs[..|fs| - 1], targets[id]);
    }
    forall i | 0 <= i < |fs| && fs[i].Pending() ensures exists id :: id in targets && targets[id].index == i {
      assert fs[..|fs| - 1][i].Pending();
    }
  }

  lemma {:induction false} StillNumbered(targets: map<string, Target>, d: bool, down: nat, fixed: nat)
    requires forall id :: id in targets ==> Numbered(id, down, fixed)
    ensures var down', fixed' := if d then down + 1 else down, if d then fixed else fixed + 1;
            && (forall id :: id in targets ==> Numbered(id, down', fixed'))
            && Numbered(Id(d, if d then down' else fixed'), down', fixed')
  {
    var down', fixed' := if d then down + 1 else down, if d then fixed else fixed + 1;
    forall id | id in targets ensures Numbered(id, down', fixed') {
      var e, n: nat :| id == Id(e, n) && n <= if e then down else fixed;
      assert id == Id(e, n) && n <= if e then down' else fixed';
    }
  }

  // ----- Writing the outcomes

  predicate Confident(level: int) { 3 <= level <= 4 }

  function Updated(f: Finding, o: Outcome): Finding {
    if Confident(o.confidence) then
      f.(severity := o.severity, judgement := Some(Judgement(o.state, f.severity, o.confidence, o.reason)))
    else f
  }

  method Apply(findings: array<Finding>, results: seq<Outcome>)
    requires forall i :: 0 <= i < |results| ==> results[i].index < findings.Length
    requires forall i, j :: 0 <= i < j < |results| ==> results[i].index != results[j].index
    modifies findings
    ensures forall i :: 0 <= i < |results| ==>
      findings[results[i].index] == Updated(old(findings[results[i].index]), results[i])
    ensures forall k :: 0 <= k < findings.Length && (forall i :: 0 <= i < |results| ==> results[i].index != k) ==>
      findings[k] == old(findings[k])
  {
    for i := 0 to |results|
      invariant forall k :: 0 <= k < i ==>
        findings[results[k].index] == Updated(old(findings[results[k].index]), results[k])
      invariant forall k :: 0 <= k < findings.Length && (forall j :: 0 <= j < i ==> results[j].index != k) ==>
        findings[k] == old(findings[k])
    {
      var o := results[i];
      if !Confident(o.confidence) { continue; }
      findings[o.index] := Updated(findings[o.index], o);
    }
  }

  /** What a run may do to one finding. */
  ghost predicate Allowed(was: Finding, now: Finding) {
    now == was ||
      (&& was.Pending() && now.rule == was.rule && now.judgement.Some? && now.judgement.value.from == was.severity
       && Confident(now.judgement.value.confidence)
       && Bounded(Target(0, was.severity, was.rule.policy), now.severity, now.judgement.value.state))
  }

  /** The whole layer: whatever the model does, each finding stays or gets a judgement within its
      bounds, and without an error every pending finding has a recorded outcome. */
  method Run(findings: array<Finding>, calls: int, compactionAt: int, canonical: string -> string)
    returns (error: Option<JudgeLoop.LoopError>, ghost recorded: map<nat, Outcome>)
    requires forall i :: 0 <= i < findings.Length ==> findings[i].severity.Rank() > 0
    modifies findings
    ensures forall i :: 0 <= i < findings.Length ==> Allowed(old(findings[i]), findings[i])
    ensures forall i :: 0 <= i < findings.Length ==>
              findings[i] == if i in recorded then Updated(old(findings[i]), recorded[i]) else old(findings[i])
    ensures error.None? ==> forall i :: 0 <= i < findings.Length && old(findings[i]).Pending() ==> i in recorded
  {
    var fs := findings[..];
    var targets, ids := Label(fs);
    if |ids| == 0 {
      return None, map[];
    }
    var store := new Store(targets, ids, canonical);
    ghost var taken;
    var sent, counted, e;
    sent, counted, e, taken := JudgeLoop.Run(store, calls, compactionAt);
    error := e;
    var results := store.Results();
    recorded := ResultsFit(store, fs, results);
    Apply(findings, results);
  }

  ghost predicate Fit(fs: seq<Finding>, o: Outcome) {
    o.index < |fs| && Allowed(fs[o.index], Updated(fs[o.index], o))
  }

  lemma {:induction false} EachFits(store: Store, fs: seq<Finding>, id: string)
    requires store.Valid() && Labels(fs, store.targets) && id in store.byID
    ensures Fit(fs, store.byID[id]) && store.byID[id].index == store.targets[id].index
  {
    assert TargetOf(fs, store.targets[id]);
    assert store.Sound(store.targets[id], store.byID[id]);
  }

  /** The results are about different pending findings, each within the bounds of its target. */
  lemma {:induction false} ResultsFit(store: Store, fs: seq<Finding>, results: seq<Outcome>)
    returns (recorded: map<nat, Outcome>)
    requires store.Valid() && Labels(fs, store.targets)
    requires |results| == |store.order| && forall i :: 0 <= i < |results| ==> results[i] == store.byID[store.order[i]]
    ensures forall i, j :: 0 <= i < j < |results| ==> results[i].index != results[j].index
    ensures forall i :: 0 <= i < |results| ==> results[i].index in recorded && recorded[results[i].index] == results[i]
    ensures forall k :: k in recorded ==> recorded[k].index == k && recorded[k] in results && Fit(fs, recorded[k])
    ensures store.AllRecorded() ==> forall k :: 0 <= k < |fs| && fs[k].Pending() ==> k in recorded
  {
    forall i | 0 <= i < |results|
      ensures store.order[i] in store.byID && Fit(fs, results[i])
        && results[i].index == store.targets[store.order[i]].index
    {
      assert store.order[i] in store.order;
      EachFits(store, fs, store.order[i]);
    }
    forall i, j | 0 <= i < j < |results| ensures results[i].index != results[j].index {
      assert store.order[i] != store.order[j];
    }
    recorded := Filing(results);
    if store.AllRecorded() {
      forall k | 0 <= k < |fs| && fs[k].Pending() ensures k in recorded {
        var id :| id in store.targets && store.targets[id].index == k;
        assert id in store.order;
        var i :| 0 <= i < |store.order| && store.order[i] == id;
        assert results[i].index == k;
      }
    }
  }

  lemma {:induction false} Filing(results: seq<Outcome>) returns (recorded: map<nat, Outcome>)
    requires forall i, j :: 0 <= i < j < |results| ==> results[i].index != results[j].index
    ensures forall i :: 0 <= i < |results| ==> results[i].index in recorded && recorded[results[i].index] == results[i]
    ensures forall k :: k in recorded ==> recorded[k].index == k && recorded[k] in results
  {
    if results == [] {
      recorded := map[];
    } else {
      var o := results[|results| - 1];
      var rest := Filing(results[..|results| - 1]);
      recorded := rest[o.index := o];
    }
  }
}
