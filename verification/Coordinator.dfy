/** The two waves of workers that collect references (pkg/internal/refcheck/runner.go). */
module Coordination {
  import opened Options
  import opened Refs

  /** `collect(ref, k)` is the answer to the k-th call of a collector, whatever it is. */
  type Collect = (Ref, nat) -> Report

  function RefsOf(reports: seq<Report>): seq<Ref> { seq(|reports|, i requires 0 <= i < |reports| => reports[i].ref) }

  function DerivedFrom(rep: Report, n: nat): seq<Ref>
    requires n <= |rep.derived|
  {
    if n == 0 then []
    else
      var d := rep.derived[n - 1];
      DerivedFrom(rep, n - 1) + [Ref(d.kind, d.value, [], rep.ref.locations, true)]
  }

  function DerivedOf(reports: seq<Report>): seq<Ref> {
    if reports == [] then []
    else
      var n := |reports| - 1;
      DerivedOf(reports[..n]) + DerivedFrom(reports[n], |reports[n].derived|)
  }

  /** The reference that a report derives, marked, where the reference of the report is. */
  ghost predicate IsDerived(rep: Report, k: nat, ref: Ref)
    requires k < |rep.derived|
  {
    && ref.kind == rep.derived[k].kind && ref.value == rep.derived[k].value && ref.derived && ref.urls == []
    && ref.locations == rep.ref.locations
  }

  lemma {:induction false} DerivedFromIff(rep: Report, n: nat, ref: Ref)
    requires n <= |rep.derived|
    ensures |DerivedFrom(rep, n)| == n && forall k :: 0 <= k < n ==> IsDerived(rep, k, DerivedFrom(rep, n)[k])
    ensures ref in DerivedFrom(rep, n) <==> exists k :: 0 <= k < n && IsDerived(rep, k, ref)
  {
    if n > 0 {
      DerivedFromIff(rep, n - 1, ref);
      assert IsDerived(rep, n - 1, DerivedFrom(rep, n)[n - 1]);
      assert IsDerived(rep, n - 1, ref) <==> ref == DerivedFrom(rep, n)[n - 1];
    }
  }

  /** Exactly what some report derives is listed, at all places the reference it comes from was found. */
  lemma {:induction false} DerivedIff(reports: seq<Report>, ref: Ref)
    ensures ref in DerivedOf(reports)
       <==> exists i, k :: 0 <= i < |reports| && 0 <= k < |reports[i].derived| && IsDerived(reports[i], k, ref)
  {
    hide IsDerived, DerivedFrom;
    if reports != [] {
      var n := |reports| - 1;
      DerivedIff(reports[..n], ref);
      DerivedFromIff(reports[n], |reports[n].derived|, ref);
      assert forall i :: 0 <= i < n ==> reports[..n][i] == reports[i];
    }
  }

  // ----- Jobs in the hands of the workers

  datatype Job = Job(i: nat, report: Report)

  function One(job: Option<Job>): multiset<nat> { if job.Some? then multiset{job.value.i} else multiset{} }

  function Held(busy: seq<Option<Job>>): multiset<nat> {
    if busy == [] then multiset{} else Held(busy[..|busy| - 1]) + One(busy[|busy| - 1])
  }

  lemma {:induction false} HeldUpdate(busy: seq<Option<Job>>, w: nat, job: Option<Job>)
    requires w < |busy|
    ensures Held(busy[w := job]) + One(busy[w]) == Held(busy) + One(job)
  {
    hide One;
    var n := |busy| - 1;
    if w < n {
      assert busy[w := job][..n] == busy[..n][w := job];
      HeldUpdate(busy[..n], w, job);
      Swap(Held(busy[..n][w := job]), One(busy[n]), One(busy[w]));
      Swap(Held(busy[..n]), One(job), One(busy[n]));
    } else {
      assert busy[w := job][..n] == busy[..n];
      Swap(Held(busy[..n]), One(job), One(busy[n]));
    }
  }

  lemma {:induction false} Swap(a: multiset<nat>, b: multiset<nat>, c: multiset<nat>)
    ensures (a + b) + c == (a + c) + b
  {
  }

  /** Workers that have a job. */
  function AtWork(busy: seq<Option<Job>>): nat {
    if busy == [] then 0 else AtWork(busy[..|busy| - 1]) + if busy[|busy| - 1].Some? then 1 else 0
  }

  lemma {:induction false} AtWorkUpdate(busy: seq<Option<Job>>, w: nat, job: Option<Job>)
    requires w < |busy|
    ensures AtWork(busy[w := job]) + (if busy[w].Some? then 1 else 0) == AtWork(busy) + (if job.Some? then 1 else 0)
  {
    var n := |busy| - 1;
    if w < n {
      assert busy[w := job][..n] == busy[..n][w := job];
      AtWorkUpdate(busy[..n], w, job);
    } else {
      assert busy[w := job][..n] == busy[..n];
    }
  }

  lemma {:induction false} HeldNone(busy: seq<Option<Job>>)
    requires forall w :: 0 <= w < |busy| ==> busy[w].None?
    ensures Held(busy) == multiset{}
  {
    if busy != [] {
      HeldNone(busy[..|busy| - 1]);
    }
  }

  function Range(from: nat, to: nat): (r: multiset<nat>)
    requires from <= to
    ensures forall i :: r[i] == if from <= i < to then 1 else 0
  {
    if from == to then multiset{} else Range(from, to - 1) + multiset{to - 1}
  }

  // ----- What a handled report says

  /** The calls made, and whether the budget is gone. */
  datatype Seen = Seen(calls: seq<Ref>, expired: bool)

  predicate Since(before: Seen, after: Seen) { before.calls <= after.calls && (before.expired ==> after.expired) }

  lemma {:induction false} SameRefAt(a: seq<Report>, b: seq<Report>, i: nat)
    requires RefsOf(a) == RefsOf(b) && i < |a|
    ensures |a| == |b| && a[i].ref == b[i].ref
  {
    assert |RefsOf(a)| == |a| && RefsOf(a)[i] == RefsOf(b)[i];
  }

  lemma {:induction false} ReplacedRef(reports: seq<Report>, i: nat, rep: Report)
    requires i < |reports| && rep.ref == reports[i].ref
    ensures RefsOf(reports[i := rep]) == RefsOf(reports)
  {
  }

  /** The budget was gone, or it is the answer to a call for its reference. */
  ghost predicate Settled(collect: Collect, seen: Seen, rep: Report) {
    || (seen.expired && rep == Unchecked(rep.ref, "budget"))
    || exists k :: 0 <= k < |seen.calls| && Answers(collect, seen.calls, rep, k)
  }

  ghost predicate SettledFrom(collect: Collect, seen: Seen, reports: seq<Report>, from: nat, limit: nat) {
    forall i :: from <= i < |reports| && i < limit ==> Settled(collect, seen, reports[i])
  }

  ghost predicate CappedFrom(reports: seq<Report>, from: nat, limit: nat) {
    forall i :: from <= i < |reports| && limit <= i ==> reports[i] == Unchecked(reports[i].ref, "cap")
  }

  ghost predicate Answers(collect: Collect, calls: seq<Ref>, rep: Report, k: nat)
    requires k < |calls|
  {
    calls[k].Key() == rep.ref.Key() && rep == collect(calls[k], k).(ref := rep.ref)
  }

  lemma {:induction false} StillSettled(collect: Collect, seen: Seen, more: Seen, rep: Report, ref: Ref)
    requires Settled(collect, seen, rep) && Since(seen, more) && ref.Key() == rep.ref.Key()
    ensures Settled(collect, more, rep.(ref := ref))
  {
    if !seen.expired || rep != Unchecked(rep.ref, "budget") {
      var k :| 0 <= k < |seen.calls| && Answers(collect, seen.calls, rep, k);
      assert Answers(collect, more.calls, rep.(ref := ref), k);
    }
  }

  /** Calls are for different keys, all listed before `to` and before the limit. */
  ghost predicate Called(index: map<string, nat>, calls: seq<Ref>, to: nat, limit: nat) {
    && (forall k :: 0 <= k < |calls| ==>
      calls[k].Key() in index && index[calls[k].Key()] < to && index[calls[k].Key()] < limit)
    && (forall i, j :: 0 <= i < j < |calls| ==> calls[i].Key() != calls[j].Key())
  }

  ghost predicate Known(kinds: set<Kind>, refs: seq<Ref>) {
    forall i :: 0 <= i < |refs| ==> refs[i].kind in kinds
  }

  /** Collectors only find references of kinds that have a collector. */
  ghost predicate Wired(kinds: set<Kind>, collect: Collect) {
    forall ref: Ref, k: nat :: ref.kind in kinds ==> Known(kinds, collect(ref, k).derived)
  }

  lemma {:induction false} AddKnown(kinds: set<Kind>, refs: seq<Ref>, found: seq<Ref>)
    requires Known(kinds, refs) && Known(kinds, found)
    ensures Known(kinds, AddAll(refs, found))
  {
    if found != [] {
      AddKnown(kinds, refs, found[..|found| - 1]);
    }
  }

  lemma {:induction false} DerivedFromKnown(kinds: set<Kind>, rep: Report, n: nat)
    requires n <= |rep.derived| && Known(kinds, rep.derived)
    ensures Known(kinds, DerivedFrom(rep, n))
  {
    if n > 0 {
      DerivedFromKnown(kinds, rep, n - 1);
    }
  }

  lemma {:induction false} DerivedKnown(kinds: set<Kind>, reports: seq<Report>)
    requires forall i :: 0 <= i < |reports| ==> Known(kinds, reports[i].derived)
    ensures Known(kinds, DerivedOf(reports))
  {
    if reports != [] {
      var n := |reports| - 1;
      DerivedKnown(kinds, reports[..n]);
      DerivedFromKnown(kinds, reports[n], |reports[n].derived|);
    }
  }

  lemma {:induction false} SettledKnown(kinds: set<Kind>, collect: Collect, seen: Seen, rep: Report)
    requires Wired(kinds, collect) && Known(kinds, seen.calls) && Settled(collect, seen, rep)
    ensures Known(kinds, rep.derived)
  {
    if rep != Unchecked(rep.ref, "budget") {
      var k :| 0 <= k < |seen.calls| && Answers(collect, seen.calls, rep, k);
      assert seen.calls[k].kind in kinds;
      assert rep.derived == collect(seen.calls[k], k).derived;
    }
  }

  ghost predicate Indexed(refs: seq<Ref>, index: map<string, nat>) {
    && Distinct(refs)
    && (forall key :: key in index <==> Find(refs, key) < |refs|)
    && (forall key :: key in index ==> index[key] == Find(refs, key))
  }

  lemma {:induction false} IndexedAt(refs: seq<Ref>, index: map<string, nat>, i: nat)
    requires Indexed(refs, index) && i < |refs|
    ensures refs[i].Key() in index && index[refs[i].Key()] == i
  {
    assert Find(refs, refs[i].Key()) == i;
  }

  lemma {:induction false} FindAppend(refs: seq<Ref>, r: Ref, key: string)
    ensures Find(refs + [r], key) == if Find(refs, key) < |refs| then Find(refs, key) else if r.Key() == key then |refs|
      else |refs| + 1
  {
    if refs != [] {
      assert (refs + [r])[1..] == refs[1..] + [r];
      FindAppend(refs[1..], r, key);
    }
  }

  /** What holds between the calls of the coordinator. */
  ghost predicate Agree(reports: seq<Report>, index: map<string, nat>, capped: bool, limit: nat) {
    Indexed(RefsOf(reports), index) && (capped ==> |reports| > limit)
  }

  // ----- One wave, while jobs are handed to the workers

  /** Every job handed out is with one worker or done, and the reports of the others are as they were. */
  ghost predicate Handing(collect: Collect, from: nat, hi: nat, before: seq<Report>, reports: seq<Report>,
                          busy: seq<Option<Job>>, seen: Seen, first: seq<nat>, handled: seq<nat>) {
    && from <= hi <= |before| == |reports|
    && (forall i :: 0 <= i < |reports| ==> reports[i].ref == before[i].ref)
    && (forall i :: 0 <= i < |reports| && !(from <= i < hi) ==> reports[i] == before[i])
    && (forall i: nat :: from <= i < hi && i !in Held(busy) ==> Settled(collect, seen, reports[i]))
    && (forall w :: 0 <= w < |busy| && busy[w].Some? ==> InHand(collect, from, hi, before, seen, busy[w].value))
    && multiset(handled) + Held(busy) == multiset(first) + Range(from, hi)
  }

  ghost predicate InHand(collect: Collect, from: nat, hi: nat, before: seq<Report>, seen: Seen, job: Job)
    requires hi <= |before|
  {
    from <= job.i < hi && job.report.ref == before[job.i].ref && Settled(collect, seen, job.report)
  }

  lemma {:induction false} HandingStart(collect: Collect, from: nat, reports: seq<Report>, busy: seq<Option<Job>>,
      seen: Seen, handled: seq<nat>)
    requires from <= |reports| && forall w :: 0 <= w < |busy| ==> busy[w].None?
    ensures Handing(collect, from, from, reports, reports, busy, seen, handled, handled)
  {
    HeldNone(busy);
  }

  lemma {:induction false} HandingDone(collect: Collect, from: nat, hi: nat, before: seq<Report>, reports: seq<Report>,
                                       busy: seq<Option<Job>>, seen: Seen, first: seq<nat>, handled: seq<nat>)
    requires Handing(collect, from, hi, before, reports, busy, seen, first, handled)
    requires forall w :: 0 <= w < |busy| ==> busy[w].None?
    ensures forall i :: 0 <= i < |reports| && !(from <= i < hi) ==> reports[i] == before[i]
    ensures forall i :: from <= i < hi ==> Settled(collect, seen, reports[i])
    ensures multiset(handled) == multiset(first) + Range(from, hi)
  {
    hide Settled;
    HeldNone(busy);
  }

  lemma {:induction false} HandingJob(collect: Collect, from: nat, hi: nat, before: seq<Report>, reports: seq<Report>,
                                      busy: seq<Option<Job>>, seen: Seen, first: seq<nat>, handled: seq<nat>, w: nat)
    requires Handing(collect, from, hi, before, reports, busy, seen, first, handled) && w < |busy| && busy[w].Some?
    ensures var job := busy[w].value;
            job.i < hi <= |before| == |reports| && job.report.ref == reports[job.i].ref == before[job.i].ref
              && Settled(collect, seen, job.report)
  {
    hide Settled, Held;
    assert InHand(collect, from, hi, before, seen, busy[w].value);
  }

  lemma {:induction false} CalledAfter(before: map<string, nat>, after: map<string, nat>, calls: seq<Ref>, to: nat,
      limit: nat)
    requires Called(before, calls, to, limit) && forall key :: key in before ==>
      key in after && after[key] == before[key]
    ensures Called(after, calls, to, limit)
  {
  }

  lemma {:induction false} CalledMore(index: map<string, nat>, calls: seq<Ref>, ref: Ref, i: nat, limit: nat)
    requires Called(index, calls, i, limit) && ref.Key() in index && index[ref.Key()] == i < limit
    ensures Called(index, calls + [ref], i + 1, limit)
  {
  }

  lemma {:induction false} CalledWider(index: map<string, nat>, calls: seq<Ref>, to: nat, wider: nat, limit: nat)
    requires Called(index, calls, to, limit) && to <= wider
    ensures Called(index, calls, wider, limit)
  {
  }

  /** A worker takes the next job. */
  lemma {:induction false} TakeKeeps(collect: Collect, from: nat, hi: nat, before: seq<Report>, reports: seq<Report>,
                                     busy: seq<Option<Job>>, seen: Seen, first: seq<nat>, handled: seq<nat>,
                                     w: nat, job: Job, more: Seen)
    requires Handing(collect, from, hi, before, reports, busy, seen, first, handled)
    requires w < |busy| && busy[w].None? && job.i == hi < |before| && Since(seen, more)
    requires job.report.ref == before[hi].ref && Settled(collect, more, job.report)
    ensures Handing(collect, from, hi + 1, before, reports, busy[w := Some(job)], more, first, handled)
  {
    hide Settled, Held;
    var after := busy[w := Some(job)];
    HeldUpdate(busy, w, Some(job));
    assert Held(after) == Held(busy) + multiset{hi};
    assert Range(from, hi + 1) == Range(from, hi) + multiset{hi};
    assert multiset(handled) + Held(after) == (multiset(handled) + Held(busy)) + multiset{hi};
    forall i: nat | from <= i < hi + 1 && i !in Held(after) ensures Settled(collect, more, reports[i]) {
      assert i != hi && i !in Held(busy);
      StillSettled(collect, seen, more, reports[i], reports[i].ref);
    }
    forall v | 0 <= v < |after| && after[v].Some? ensures InHand(collect, from, hi + 1, before, more, after[v].value) {
      if v != w {
        assert InHand(collect, from, hi, before, seen, busy[v].value);
        StillSettled(collect, seen, more, busy[v].value.report, busy[v].value.report.ref);
      }
    }
  }

  /** The budget may end at any time. */
  lemma {:induction false} ExpireKeeps(collect: Collect, from: nat, hi: nat, before: seq<Report>, reports: seq<Report>,
                                       busy: seq<Option<Job>>, seen: Seen, first: seq<nat>, handled: seq<nat>)
    requires Handing(collect, from, hi, before, reports, busy, seen, first, handled)
    ensures Handing(collect, from, hi, before, reports, busy, seen.(expired := true), first, handled)
  {
    hide Settled, Held;
    var more := seen.(expired := true);
    forall i: nat | from <= i < hi && i !in Held(busy) ensures Settled(collect, more, reports[i]) {
      StillSettled(collect, seen, more, reports[i], reports[i].ref);
    }
    forall v | 0 <= v < |busy| && busy[v].Some? ensures InHand(collect, from, hi, before, more, busy[v].value) {
      assert InHand(collect, from, hi, before, seen, busy[v].value);
      StillSettled(collect, seen, more, busy[v].value.report, busy[v].value.report.ref);
    }
  }

  /** A worker writes its report and is idle again. */
  lemma {:induction false} WriteKeeps(collect: Collect, from: nat, hi: nat, before: seq<Report>, reports: seq<Report>,
                                      busy: seq<Option<Job>>, seen: Seen, first: seq<nat>, handled: seq<nat>,
                                      w: nat, rep: Report)
    requires Handing(collect, from, hi, before, reports, busy, seen, first, handled)
    requires w < |busy| && busy[w].Some?
    requires var i := busy[w].value.i; i < |reports| && rep.ref == before[i].ref && Settled(collect, seen, rep)
    ensures var i := busy[w].value.i;
            Handing(collect, from, hi, before, reports[i := rep], busy[w := None], seen, first, handled + [i])
  {
    hide Settled, Held;
    var j := busy[w].value.i;
    HeldUpdate(busy, w, None);
    assert InHand(collect, from, hi, before, seen, busy[w].value);
    assert Held(busy) == Held(busy[w := None]) + multiset{j};
    assert multiset(handled + [j]) == multiset(handled) + multiset{j};
    var free, now := busy[w := None], reports[j := rep];
    forall i: nat | from <= i < hi && i !in Held(free) ensures Settled(collect, seen, now[i]) {
      if i != j {
        assert i !in Held(busy);
      }
    }
    forall v | 0 <= v < |free| && free[v].Some? ensures InHand(collect, from, hi, before, seen, free[v].value) {
      assert InHand(collect, from, hi, before, seen, busy[v].value);
    }
  }

  /** Only the reference of a report changed, and it has the same key. */
  ghost predicate Regained(before: Report, after: Report) {
    after == before.(ref := after.ref) && after.ref.Key() == before.ref.Key()
  }

  /** Appends what is not there yet. */
  method Append<T(==,!new)>(xs: seq<T>, ys: seq<T>) returns (r: seq<T>)
    ensures r == Join(xs, ys)
  {
    r := xs;
    for k := 0 to |ys|
      invariant r == Join(xs, ys[..k])
    {
      assert ys[..k + 1][..k] == ys[..k];
      if ys[k] !in r {
        r := r + [ys[k]];
      }
    }
    assert ys[..|ys|] == ys;
  }

  class Coordinator {
    const limit: nat
    const concurrency: int
    const collect: Collect
    const kinds: set<Kind>
    var reports: seq<Report>
    var index: map<string, nat>
    var capped: bool
    /** Whether the context is done; once it is, it stays done. */
    var expired: bool
    /** Calls of collectors and of `Capped`, in order. */
    var calls: seq<Ref>
    var warnings: seq<(Ref, nat)>
    /** Indices of the reports written by a worker, in order. */
    ghost var handled: seq<nat>

    constructor (limit: nat, concurrency: int, kinds: set<Kind>, collect: Collect)
      ensures this.limit == limit && this.concurrency == concurrency && this.kinds == kinds && this.collect == collect
      ensures reports == [] && index == map[] && !capped && !expired && calls == [] && warnings == [] && handled == []
    {
      this.limit, this.concurrency, this.kinds, this.collect := limit, concurrency, kinds, collect;
      reports, index, capped, expired, calls, warnings, handled := [], map[], false, false, [], [], [];
    }

    function Now(): Seen
      reads this
    {
      Seen(calls, expired)
    }

    ghost predicate Valid()
      reads this
    {
      Agree(reports, index, capped, limit)
    }

    /** `add`: one report per key; a key seen again only gains locations and URLs. */
    method Add(found: seq<Ref>)
      requires Valid()
      modifies this`reports, this`index
      ensures Valid()
      ensures RefsOf(reports) == AddAll(old(RefsOf(reports)), found)
      ensures |old(reports)| <= |reports|
      ensures forall i :: 0 <= i < |old(reports)| ==> Regained(old(reports)[i], reports[i])
      ensures forall i :: |old(reports)| <= i < |reports| ==> reports[i] == Unchecked(reports[i].ref, "")
      ensures forall key :: key in old(index) ==> key in index && index[key] == old(index)[key]
    {
      assert found[..0] == [];
      for n := 0 to |found|
        invariant Valid()
        invariant RefsOf(reports) == AddAll(old(RefsOf(reports)), found[..n])
        invariant |old(reports)| <= |reports|
        invariant forall i :: 0 <= i < |old(reports)| ==> Regained(old(reports)[i], reports[i])
        invariant forall i :: |old(reports)| <= i < |reports| ==> reports[i] == Unchecked(reports[i].ref, "")
        invariant forall key :: key in old(index) ==> key in index && index[key] == old(index)[key]
      {
        assert found[..n + 1][..n] == found[..n];
        AddRef(found[n]);
      }
      assert found[..|found|] == found;
    }

    method AddRef(ref: Ref)
      requires Valid()
      modifies this`reports, this`index
      ensures Valid()
      ensures RefsOf(reports) == AddOne(old(RefsOf(reports)), ref)
      ensures |old(reports)| <= |reports|
      ensures forall i :: 0 <= i < |old(reports)| ==> Regained(old(reports)[i], reports[i])
      ensures forall i :: |old(reports)| <= i < |reports| ==> reports[i] == Unchecked(reports[i].ref, "")
      ensures forall key :: key in old(index) ==> key in index && index[key] == old(index)[key]
    {
      hide Distinct, Find, Join;
      ghost var refs := RefsOf(reports);
      if ref.Key() !in index {
        index := index[ref.Key() := |reports|];
        reports := reports + [Unchecked(ref, "")];
        assert RefsOf(reports) == refs + [ref];
        IndexAppend(refs, old(index), ref);
      } else {
        var i := index[ref.Key()];
        var locations := Append(reports[i].ref.locations, ref.locations);
        var urls := Append(reports[i].ref.urls, ref.urls);
        reports := reports[i := reports[i].(ref := reports[i].ref.(locations := locations, urls := urls))];
        assert RefsOf(reports) == refs[i := Merge(refs[i], ref)];
        IndexMerge(refs, index, i, Merge(refs[i], ref));
      }
    }

    /** `derived`: what the collectors found, at the locations of the reference it was found from. */
    method Derived() returns (out: seq<Ref>)
      ensures out == DerivedOf(reports)
    {
      out := [];
      for n := 0 to |reports|
        invariant out == DerivedOf(reports[..n])
      {
        assert reports[..n + 1][..n] == reports[..n];
        var rep := reports[n];
        for k := 0 to |rep.derived|
          invariant out == DerivedOf(reports[..n]) + DerivedFrom(rep, k)
        {
          var d := rep.derived[k];
          out := out + [Ref(d.kind, d.value, [], rep.ref.locations, true)];
        }
      }
      assert reports[..|reports|] == reports;
    }

    /** The first half of `work`: the reference is read, and collected while there is budget. */
    method Collected(i: nat) returns (job: Job)
      requires i < |reports| && Wired(kinds, collect) && Known(kinds, RefsOf(reports)) && Known(kinds, calls)
      requires Indexed(RefsOf(reports), index) && Called(index, calls, i, limit) && i < limit
      modifies this`calls
      ensures job == Job(i, if expired then Unchecked(reports[i].ref, "budget")
        else collect(reports[i].ref, |old(calls)|).(ref := reports[i].ref))
      ensures calls == old(calls) + if expired then [] else [reports[i].ref]
      ensures Settled(collect, Now(), job.report)
      ensures Called(index, calls, i + 1, limit) && Known(kinds, calls)
    {
      hide Indexed, Wired, Called;
      var ref := reports[i].ref;
      assert RefsOf(reports)[i] == ref;
      CalledWider(index, calls, i, i + 1, limit);
      if expired {
        job := Job(i, Unchecked(ref, "budget"));
      } else {
        assert ref.kind in kinds;
        job := Job(i, collect(ref, |calls|).(ref := ref));
        IndexedAt(RefsOf(reports), index, i);
        CalledMore(index, calls, ref, i, limit);
        calls := calls + [ref];
        assert Answers(collect, calls, job.report, |calls| - 1);
      }
    }

    /** The second half: a failure once the budget is gone is not the reference's fault. */
    method Written(job: Job) returns (rep: Report)
      requires job.i < |reports| && job.report.ref == reports[job.i].ref && Settled(collect, Now(), job.report)
      modifies this`reports, this`handled
      ensures reports == old(reports)[job.i := rep] && handled == old(handled) + [job.i]
      ensures rep == if job.report.status.Failed? && expired then Unchecked(job.report.ref, "budget") else job.report
      ensures rep.ref == old(reports)[job.i].ref && Settled(collect, Now(), rep)
    {
      rep := job.report;
      if rep.status == Failed && expired {
        rep := Unchecked(rep.ref, "budget");
      }
      reports := reports[job.i := rep];
      handled := handled + [job.i];
    }

    /** `wave`: the reports from `from` on are handed to the workers in order, in any schedule. */
    method Wave(from: nat)
      requires Valid() && from <= |reports|
      requires Wired(kinds, collect) && Known(kinds, RefsOf(reports)) && Known(kinds, calls)
      requires Called(index, calls, from, limit)
      requires forall i :: from <= i < |reports| ==> reports[i] == Unchecked(reports[i].ref, "")
      modifies this`reports, this`capped, this`warnings, this`calls, this`handled, this`expired
      ensures Valid() && RefsOf(reports) == old(RefsOf(reports)) && Known(kinds, calls) && Since(old(Now()), Now())
      ensures Called(index, calls, |reports|, limit)
      ensures forall i :: 0 <= i < from ==> reports[i] == old(reports)[i]
      ensures SettledFrom(collect, Now(), reports, from, limit)
      ensures CappedFrom(reports, from, limit)
      ensures multiset(handled) == multiset(old(handled)) + Range(from, Bound(from, |reports|, limit))
      ensures capped == (old(capped) || |reports| > limit)
      ensures warnings == old(warnings) + if capped && !old(capped) then [(reports[limit].ref, |reports|)] else []
    {
      hide Settled, Indexed, Called, Known, Wired, Range, RefsOf;
      Warn();
      var pending := Pending(from);
      SameRefs(old(reports), reports);
      HandOut(from, pending);
      RefsAt();
      CalledWider(index, calls, from + |pending|, |reports|, limit);
    }

    method Warn()
      modifies this`capped, this`warnings
      ensures capped == (old(capped) || |reports| > limit)
      ensures warnings == old(warnings) + if capped && !old(capped) then [(reports[limit].ref, |reports|)] else []
    {
      if |reports| > limit && !capped {
        capped := true;
        warnings := warnings + [(reports[limit].ref, |reports|)];
      }
    }

    /** Marks what is past the limit; the rest is pending. */
    method Pending(from: nat) returns (pending: seq<nat>)
      requires from <= |reports|
      modifies this`reports
      ensures |reports| == |old(reports)| && from + |pending| == Bound(from, |reports|, limit)
      ensures forall k :: 0 <= k < |pending| ==> pending[k] == from + k
      ensures forall i :: 0 <= i < |reports| ==>
        reports[i] == if from <= i && limit <= i then old(reports)[i].(detail := "cap") else old(reports)[i]
    {
      pending := [];
      for i := from to |reports|
        invariant |reports| == |old(reports)| && from + |pending| == Bound(from, i, limit)
        invariant forall k :: 0 <= k < |pending| ==> pending[k] == from + k
        invariant forall j :: 0 <= j < |reports| ==>
          reports[j] == if from <= j < i && limit <= j then old(reports)[j].(detail := "cap") else old(reports)[j]
      {
        if i >= limit {
          reports := reports[i := reports[i].(detail := "cap")];
        } else {
          pending := pending + [i];
        }
      }
    }

    /** Jobs up to `hi` were handed out since the reports were `before` and `began` was seen. */
    ghost predicate Underway(from: nat, hi: nat, before: seq<Report>, busy: seq<Option<Job>>, first: seq<nat>,
        began: Seen)
      reads this
    {
      && Handing(collect, from, hi, before, reports, busy, Now(), first, handled)
      && Valid() && RefsOf(reports) == RefsOf(before) && Wired(kinds, collect) && Known(kinds, RefsOf(reports))
      && Known(kinds, calls) && Since(began, Now()) && Called(index, calls, hi, limit)
    }

    /** An idle worker takes the next job. */
    method TakeJob(i: nat, busy: seq<Option<Job>>, w: nat, ghost from: nat, ghost before: seq<Report>,
        ghost first: seq<nat>, ghost began: Seen) returns (now: seq<Option<Job>>)
      requires Underway(from, i, before, busy, first, began)
      requires w < |busy| && busy[w].None? && i < |reports| && i < limit
      modifies this`calls
      ensures Underway(from, i + 1, before, now, first, began) && |now| == |busy| && AtWork(now) == AtWork(busy) + 1
      ensures |reports| == |old(reports)|
    {
      hide Settled, Held, Called, Known, Indexed, Wired, Handing, InHand, AtWork;
      ghost var was := Now();
      SameRefAt(reports, before, i);
      var job := Collected(i);
      TakeKeeps(collect, from, i, before, reports, busy, was, first, handled, w, job, Now());
      AtWorkUpdate(busy, w, Some(job));
      now := busy[w := Some(job)];
    }

    /** A busy worker writes its report. */
    method GiveReport(busy: seq<Option<Job>>, w: nat, ghost from: nat, ghost hi: nat, ghost before: seq<Report>,
        ghost first: seq<nat>, ghost began: Seen) returns (now: seq<Option<Job>>)
      requires Underway(from, hi, before, busy, first, began) && w < |busy| && busy[w].Some?
      modifies this`reports, this`handled
      ensures Underway(from, hi, before, now, first, began) && |now| == |busy| && AtWork(now) == AtWork(busy) - 1
      ensures |reports| == |old(reports)|
    {
      hide Settled, Held, Called, Known, Indexed, Wired, Handing, InHand, AtWork;
      var job := busy[w].value;
      HandingJob(collect, from, hi, before, reports, busy, Now(), first, handled, w);
      ghost var was, done := reports, handled;
      var rep := Written(job);
      ReplacedRef(was, job.i, rep);
      WriteKeeps(collect, from, hi, before, was, busy, Now(), first, done, w, rep);
      AtWorkUpdate(busy, w, None);
      now := busy[w := None];
    }

    /** The unbuffered channel: any idle worker takes the next job, any busy one writes, the budget may end. */
    method HandOut(from: nat, pending: seq<nat>)
      requires Valid() && from <= |reports| && from + |pending| == Bound(from, |reports|, limit)
      requires forall k :: 0 <= k < |pending| ==> pending[k] == from + k
      requires Wired(kinds, collect) && Known(kinds, RefsOf(reports)) && Known(kinds, calls)
      requires Called(index, calls, from, limit)
      modifies this`reports, this`calls, this`handled, this`expired
      ensures Valid() && RefsOf(reports) == old(RefsOf(reports)) && Known(kinds, calls) && Since(old(Now()), Now())
      ensures Called(index, calls, from + |pending|, limit)
      ensures forall i :: 0 <= i < |reports| && !(from <= i < from + |pending|) ==> reports[i] == old(reports)[i]
      ensures forall i :: from <= i < from + |pending| ==> Settled(collect, Now(), reports[i])
      ensures multiset(handled) == multiset(old(handled)) + Range(from, from + |pending|)
    {
      hide Settled, Called, Known, Wired, Handing, AtWork, Agree, RefsOf;
      ghost var before, first, began := reports, handled, Now();
      var workers: nat := if concurrency > 1 then concurrency else 1;
      var busy: seq<Option<Job>> := seq(workers, _ => None);
      var next: nat := 0;
      HandingStart(collect, from, reports, busy, Now(), handled);
      while next < |pending| || exists w :: 0 <= w < |busy| && busy[w].Some?
        invariant |busy| == workers && next <= |pending| && |reports| == |before|
        invariant Underway(from, from + next, before, busy, first, began)
        decreases 2 * (|pending| - next) + AtWork(busy), if expired then 0 else 1
      {
        assert busy[0].None? || busy[0].Some?;
        if {
          case !expired =>
            ExpireKeeps(collect, from, from + next, before, reports, busy, Now(), first, handled);
            expired := true;
          case next < |pending| && exists w :: 0 <= w < |busy| && busy[w].None? =>
            var w :| 0 <= w < |busy| && busy[w].None?;
            busy := TakeJob(pending[next], busy, w, from, before, first, began);
            next := next + 1;
          case exists w :: 0 <= w < |busy| && busy[w].Some? =>
            var w :| 0 <= w < |busy| && busy[w].Some?;
            busy := GiveReport(busy, w, from, from + next, before, first, began);
        }
      }
      HandingDone(collect, from, from + next, before, reports, busy, Now(), first, handled);
    }

    /** `Run` on the references extracted from the files; `first` is how the reports were after the first wave. */
    method Run(found: seq<Ref>) returns (ghost first: seq<Report>)
      requires reports == [] && index == map[] && !capped && calls == [] && warnings == [] && handled == []
      requires Known(kinds, found) && Wired(kinds, collect)
      modifies this
      ensures Valid()
      // references are what was extracted and what the first wave derived from it, and nothing further
      ensures RefsOf(first) == AddAll([], found)
      ensures RefsOf(reports) == AddAll(RefsOf(first), DerivedOf(first))
      ensures |first| <= |reports| && forall i :: 0 <= i < |first| ==> Regained(first[i], reports[i])
      // every report below the limit was handled by one worker, once over both waves
      ensures multiset(handled) == Range(0, Bound(0, |reports|, limit))
      ensures SettledFrom(collect, Now(), reports, 0, limit)
      // a key is collected at most once, and only below the limit
      ensures Called(index, calls, |reports|, limit)
      ensures CappedFrom(reports, 0, limit)
      // the callback is called once when there are too many references, and never otherwise
      ensures |warnings| == if |reports| > limit then 1 else 0
      ensures |reports| > limit ==>
        warnings[0].0.Key() == reports[limit].ref.Key() && limit < warnings[0].1 <= |reports|
    {
      hide Settled, Find, Indexed, AddOne, AddAll, Known, Wired, Called, Range, RefsOf, SettledFrom, CappedFrom;
      RefsAt();
      NothingIndexed(limit);
      Add(found);
      AddKnown(kinds, [], found);
      Wave(0);
      first := reports;
      var extracted := |reports|;
      var derived := Derived();
      FirstKnown(kinds, collect, Now(), limit, reports);
      DerivedKnown(kinds, reports);
      ghost var settled, was := Now(), index;
      Add(derived);
      AddKnown(kinds, RefsOf(first), derived);
      CalledAfter(was, index, calls, extracted, limit);
      Wave(extracted);
      RangeJoin(extracted, |reports|, limit);
      BothSettled(collect, settled, Now(), first, reports, limit);
    }
  }

  lemma {:induction false} BothSettled(collect: Collect, settled: Seen, seen: Seen, first: seq<Report>,
      reports: seq<Report>, limit: nat)
    requires Since(settled, seen) && |first| <= |reports|
    requires forall i :: 0 <= i < |first| ==> Regained(first[i], reports[i])
    requires SettledFrom(collect, settled, first, 0, limit) && SettledFrom(collect, seen, reports, |first|, limit)
    requires CappedFrom(first, 0, limit) && CappedFrom(reports, |first|, limit)
    ensures SettledFrom(collect, seen, reports, 0, limit) && CappedFrom(reports, 0, limit)
  {
    hide Settled;
    forall i | 0 <= i < |first| && i < limit ensures Settled(collect, seen, reports[i]) {
      StillSettled(collect, settled, seen, first[i], reports[i].ref);
    }
  }

  lemma {:induction false} RangeJoin(middle: nat, to: nat, limit: nat)
    requires middle <= to
    ensures Range(0, Bound(0, to, limit)) == Range(0, Bound(0, middle, limit)) + Range(middle, Bound(middle, to, limit))
    ensures Range(0, 0) == multiset{}
  {
  }

  lemma {:induction false} SameRefs(before: seq<Report>, after: seq<Report>)
    requires |before| == |after| && forall i :: 0 <= i < |before| ==> after[i].ref == before[i].ref
    ensures RefsOf(before) == RefsOf(after)
  {
  }

  lemma {:induction false} RefsAt()
    ensures forall reports: seq<Report> :: |RefsOf(reports)| == |reports|
    ensures forall reports: seq<Report>, i :: 0 <= i < |reports| ==> RefsOf(reports)[i] == reports[i].ref
  {
  }

  /** Where the reports of a wave that are below the limit end. */
  function Bound(from: nat, to: nat, limit: nat): nat { if from <= limit < to then limit else if limit < from then from
      else to }

  lemma {:induction false} FirstKnown(kinds: set<Kind>, collect: Collect, seen: Seen, limit: nat, reports: seq<Report>)
    requires Wired(kinds, collect) && Known(kinds, seen.calls)
    requires SettledFrom(collect, seen, reports, 0, limit)
    requires CappedFrom(reports, 0, limit)
    ensures forall i :: 0 <= i < |reports| ==> Known(kinds, reports[i].derived)
  {
    hide Settled;
    forall i | 0 <= i < |reports| ensures Known(kinds, reports[i].derived) {
      if i < limit {
        SettledKnown(kinds, collect, seen, reports[i]);
      }
    }
  }

  lemma {:induction false} NothingIndexed(limit: nat)
    ensures RefsOf([]) == [] && Indexed([], map[]) && forall kinds :: Known(kinds, [])
    ensures forall index :: Called(index, [], 0, limit)
  {
  }

  lemma {:induction false} IndexAppend(refs: seq<Ref>, index: map<string, nat>, r: Ref)
    requires Indexed(refs, index) && r.Key() !in index
    ensures Indexed(refs + [r], index[r.Key() := |refs|])
  {
    hide Ref.Key;
    var after := index[r.Key() := |refs|];
    forall key ensures key in after <==> Find(refs + [r], key) < |refs + [r]| {
      FindAppend(refs, r, key);
    }
    forall key | key in after ensures after[key] == Find(refs + [r], key) {
      FindAppend(refs, r, key);
    }
    forall i, j | 0 <= i < j < |refs + [r]| ensures (refs + [r])[i].Key() != (refs + [r])[j].Key() {
      if j == |refs| {
        IndexedAt(refs, index, i);
      }
    }
  }

  lemma {:induction false} IndexMerge(refs: seq<Ref>, index: map<string, nat>, i: nat, r: Ref)
    requires Indexed(refs, index) && i < |refs| && r.Key() == refs[i].Key()
    ensures Indexed(refs[i := r], index)
  {
    forall key ensures Find(refs[i := r], key) == Find(refs, key) {
      SameFind(refs, refs[i := r], key);
    }
  }

  lemma {:induction false} SameFind(refs: seq<Ref>, after: seq<Ref>, key: string)
    requires |refs| == |after| && forall j :: 0 <= j < |refs| ==> refs[j].Key() == after[j].Key()
    ensures Find(after, key) == Find(refs, key)
  {
    if refs != [] {
      assert refs[0].Key() == after[0].Key();
      SameFind(refs[1..], after[1..], key);
    }
  }
}
