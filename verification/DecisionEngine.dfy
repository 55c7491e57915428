/** The worst case over all combinations of places, and the verdict of a rule
    (pkg/internal/layers/decision/engine.go). */
module DecisionEngine {
  import opened Options
  import opened Severities
  import opened DecisionTable

  // ----- Combinations: one instance per subject

  datatype Subject = Entry | Facts | Frame | Places | Trace

  /** The subjects in the order of their names. */
  const SUBJECTS: seq<Subject> := [Entry, Facts, Frame, Places, Trace]

  datatype Instance = Instance(place: string, replies: map<string, Reply>)

  type Evidence = map<Subject, seq<Instance>>

  function GroupsFrom(e: Evidence, subjects: seq<Subject>): seq<seq<Instance>> {
    if subjects == [] then []
    else
      var init, last := GroupsFrom(e, subjects[..|subjects| - 1]), subjects[|subjects| - 1];
      if last in e then init + [e[last]] else init
  }

  function Groups(e: Evidence): seq<seq<Instance>> { GroupsFrom(e, SUBJECTS) }

  function With(c: Combination, i: Instance, labelled: bool): Combination {
    map q | q in c.Keys + i.replies.Keys ::
      if q in i.replies then Given(i.replies[q], if labelled then i.place else "") else c[q]
  }

  /** A choice picks one instance of every group. */
  ghost predicate Choice(groups: seq<seq<Instance>>, choice: seq<nat>) {
    |choice| == |groups| && forall k :: 0 <= k < |groups| ==> choice[k] < |groups[k]|
  }

  ghost function Pick(groups: seq<seq<Instance>>, choice: seq<nat>): Combination
    requires Choice(groups, choice)
    decreases |groups|
  {
    if groups == [] then map[]
    else
      var n := |groups| - 1;
      With(Pick(groups[..n], choice[..n]), groups[n][choice[n]], |groups[n]| > 1)
  }

  /** Where the enumeration puts a choice: the last group varies fastest. */
  ghost function Place(groups: seq<seq<Instance>>, choice: seq<nat>): nat
    requires Choice(groups, choice)
    decreases |groups|
  {
    if groups == [] then 0
    else
      var n := |groups| - 1;
      Place(groups[..n], choice[..n]) * |groups[n]| + choice[n]
  }

  ghost function Size(groups: seq<seq<Instance>>): nat {
    if groups == [] then 1 else Size(groups[..|groups| - 1]) * |groups[|groups| - 1]|
  }

  ghost function Paired(c: Combination, instances: seq<Instance>): seq<Combination> {
    seq(|instances|, j requires 0 <= j < |instances| => With(c, instances[j], |instances| > 1))
  }

  ghost function Expand(all: seq<Combination>, instances: seq<Instance>): seq<Combination> {
    if all == [] then [] else Expand(all[..|all| - 1], instances) + Paired(all[|all| - 1], instances)
  }

  ghost function Combos(groups: seq<seq<Instance>>): seq<Combination> {
    if groups == [] then [map[]] else Expand(Combos(groups[..|groups| - 1]), groups[|groups| - 1])
  }

  /** The outer loop of `combinations`. */
  method Combinations(e: Evidence) returns (all: seq<Combination>)
    ensures all == Combos(Groups(e))
  {
    hide Expand;
    all := [map[]];
    for s := 0 to |SUBJECTS|
      invariant all == Combos(GroupsFrom(e, SUBJECTS[..s]))
    {
      assert SUBJECTS[..s + 1][..s] == SUBJECTS[..s];
      if SUBJECTS[s] in e {
        var instances := e[SUBJECTS[s]];
        ghost var groups := GroupsFrom(e, SUBJECTS[..s]);
        assert (groups + [instances])[..|groups|] == groups;
        all := Expanded(all, instances);
      }
    }
    assert SUBJECTS[..|SUBJECTS|] == SUBJECTS;
  }

  /** Its two inner loops: each combination so far with each instance of the next subject. */
  method Expanded(all: seq<Combination>, instances: seq<Instance>) returns (next: seq<Combination>)
    ensures next == Expand(all, instances)
  {
    hide With;
    next := [];
    for i := 0 to |all|
      invariant next == Expand(all[..i], instances)
    {
      assert all[..i + 1][..i] == all[..i];
      for j := 0 to |instances|
        invariant next == Expand(all[..i], instances) + Paired(all[i], instances)[..j]
      {
        next := next + [With(all[i], instances[j], |instances| > 1)];
      }
      assert Paired(all[i], instances)[..|instances|] == Paired(all[i], instances);
    }
    assert all[..|all|] == all;
  }

  lemma {:induction false} NextBlock(i: nat, n: nat, m: nat)
    requires i < n
    ensures i * m + m <= n * m && (n - 1) * m + m == n * m
  {
    assert (i + 1) * m <= n * m;
  }

  lemma {:induction false} ExpandSize(all: seq<Combination>, instances: seq<Instance>)
    ensures |Expand(all, instances)| == |all| * |instances|
  {
    if all != [] {
      ExpandSize(all[..|all| - 1], instances);
      NextBlock(0, |all|, |instances|);
    }
  }

  lemma {:induction false} ExpandAt(all: seq<Combination>, instances: seq<Instance>, i: nat, j: nat)
    requires i < |all| && j < |instances|
    ensures i * |instances| + j < |Expand(all, instances)|
    ensures Expand(all, instances)[i * |instances| + j] == With(all[i], instances[j], |instances| > 1)
  {
    var n, m := |all| - 1, |instances|;
    ExpandSize(all[..n], instances);
    ExpandSize(all, instances);
    NextBlock(i, n + 1, m);
    if i < n {
      NextBlock(i, n, m);
      ExpandAt(all[..n], instances, i, j);
    } else {
      assert Expand(all, instances)[n * m + j] == Paired(all[n], instances)[j];
    }
  }

  /** The enumeration holds the combination of every choice, at the place of the choice. */
  lemma {:induction false} EveryChoiceEnumerated(groups: seq<seq<Instance>>, choice: seq<nat>)
    requires Choice(groups, choice)
    ensures Place(groups, choice) < |Combos(groups)|
    ensures Combos(groups)[Place(groups, choice)] == Pick(groups, choice)
    decreases |groups|
  {
    hide Expand, With;
    if groups != [] {
      var n := |groups| - 1;
      EveryChoiceEnumerated(groups[..n], choice[..n]);
      ExpandAt(Combos(groups[..n]), groups[n], Place(groups[..n], choice[..n]), choice[n]);
    }
  }

  lemma {:induction false} ComboCount(groups: seq<seq<Instance>>)
    ensures |Combos(groups)| == Size(groups)
    ensures (exists k :: 0 <= k < |groups| && groups[k] == []) <==> Combos(groups) == []
  {
    hide Expand;
    if groups != [] {
      var n := |groups| - 1;
      ComboCount(groups[..n]);
      ExpandSize(Combos(groups[..n]), groups[n]);
      NoneTimes(|Combos(groups[..n])|, |groups[n]|);
      assert forall k :: 0 <= k < n ==> groups[..n][k] == groups[k];
    }
  }

  lemma {:induction false} NoneTimes(a: nat, b: nat)
    ensures a * b == 0 <==> a == 0 || b == 0
  {
    if a > 0 && b > 0 {
      NextBlock(0, a, b);
    }
  }

  /** Each place of the enumeration is the place of exactly one choice. */
  lemma {:induction false} EveryPlaceChosen(groups: seq<seq<Instance>>, place: nat) returns (choice: seq<nat>)
    requires place < |Combos(groups)|
    ensures Choice(groups, choice) && Place(groups, choice) == place
    decreases |groups|
  {
    if groups == [] {
      choice := [];
    } else {
      var n, m := |groups| - 1, |groups[|groups| - 1]|;
      ExpandSize(Combos(groups[..n]), groups[n]);
      assert m > 0;
      DivideRadix(place, m, |Combos(groups[..n])|);
      var rest := EveryPlaceChosen(groups[..n], place / m);
      choice := rest + [place % m];
      assert choice[..n] == rest;
    }
  }

  lemma {:induction false} DivideRadix(place: nat, m: nat, n: nat)
    requires m > 0 && place < n * m
    ensures place / m < n && place / m * m + place % m == place
  {
    if n <= place / m {
      TimesMonotone(n, place / m, m);
    }
  }

  lemma {:induction false} TimesMonotone(a: nat, b: nat, m: nat)
    requires a <= b
    ensures a * m <= b * m
  {
  }

  lemma {:induction false} PlacesDiffer(groups: seq<seq<Instance>>, a: seq<nat>, b: seq<nat>)
    requires Choice(groups, a) && Choice(groups, b) && Place(groups, a) == Place(groups, b)
    ensures a == b
    decreases |groups|
  {
    if groups != [] {
      var n, m := |groups| - 1, |groups[|groups| - 1]|;
      SameRadix(Place(groups[..n], a[..n]), a[n], Place(groups[..n], b[..n]), b[n], m);
      PlacesDiffer(groups[..n], a[..n], b[..n]);
      assert a == a[..n] + [a[n]] && b == b[..n] + [b[n]];
    }
  }

  lemma {:induction false} SameRadix(i: nat, j: nat, k: nat, l: nat, m: nat)
    requires j < m && l < m && i * m + j == k * m + l
    ensures i == k && j == l
  {
    if i < k {
      NextBlock(i, k, m);
    } else if k < i {
      NextBlock(k, i, m);
    }
  }

  // ----- What a combination holds

  /** A chosen instance, and whether it is the only one of its subject. */
  datatype Chosen = Chosen(instance: Instance, alone: bool)

  ghost function ChosenOf(groups: seq<seq<Instance>>, choice: seq<nat>): seq<Chosen>
    requires Choice(groups, choice)
  {
    seq(|groups|, k requires 0 <= k < |groups| => Chosen(groups[k][choice[k]], |groups[k]| == 1))
  }

  ghost predicate Answers(chosen: Chosen, question: string) { question in chosen.instance.replies }

  /** The k-th chosen instance replies to the question, and no later one does. */
  ghost predicate AnswersLast(chosen: seq<Chosen>, k: nat, question: string)
    requires k < |chosen|
  {
    Answers(chosen[k], question) && forall j :: k < j < |chosen| ==> !Answers(chosen[j], question)
  }

  /** The reply of an instance, with its place when there are others. */
  ghost function GivenBy(chosen: Chosen, question: string): Given
    requires Answers(chosen, question)
  {
    Given(chosen.instance.replies[question], if chosen.alone then "" else chosen.instance.place)
  }

  /** The combination holds the replies of all chosen instances, and of each question the last one. */
  ghost predicate Holds(c: Combination, chosen: seq<Chosen>, question: string) {
    && (question in c <==> exists k :: 0 <= k < |chosen| && Answers(chosen[k], question))
    && forall k :: 0 <= k < |chosen| && AnswersLast(chosen, k, question) ==>
         question in c && c[question] == GivenBy(chosen[k], question)
  }

  /** Every combination holds what the instances of its choice replied. */
  lemma {:induction false} CombinationHolds(groups: seq<seq<Instance>>, choice: seq<nat>, question: string)
    requires Choice(groups, choice)
    ensures Place(groups, choice) < |Combos(groups)|
    ensures Holds(Combos(groups)[Place(groups, choice)], ChosenOf(groups, choice), question)
  {
    hide Combos, Place, Pick, Holds;
    EveryChoiceEnumerated(groups, choice);
    PickHolds(groups, choice, question);
  }

  lemma {:induction false} PickHolds(groups: seq<seq<Instance>>, choice: seq<nat>, question: string)
    requires Choice(groups, choice)
    ensures Holds(Pick(groups, choice), ChosenOf(groups, choice), question)
    decreases |groups|
  {
    hide With, Holds;
    if groups != [] {
      var n := |groups| - 1;
      var front := ChosenOf(groups[..n], choice[..n]);
      var last := Chosen(groups[n][choice[n]], |groups[n]| == 1);
      PickHolds(groups[..n], choice[..n], question);
      WithHolds(Pick(groups[..n], choice[..n]), front, last, question);
      assert ChosenOf(groups, choice) == front + [last];
    } else {
      NothingHeld(question);
      assert ChosenOf(groups, choice) == [];
    }
  }

  lemma {:induction false} NothingHeld(question: string)
    ensures Holds(map[], [], question)
  {
  }

  lemma {:induction false} WithHolds(c: Combination, chosen: seq<Chosen>, last: Chosen, question: string)
    requires Holds(c, chosen, question)
    ensures Holds(With(c, last.instance, !last.alone), chosen + [last], question)
  {
    var d, all := With(c, last.instance, !last.alone), chosen + [last];
    assert forall k :: 0 <= k < |chosen| ==> all[k] == chosen[k];
    assert all[|chosen|] == last;
    forall k | 0 <= k < |all| && AnswersLast(all, k, question)
      ensures question in d && d[question] == GivenBy(all[k], question)
    {
      if k < |chosen| {
        assert !Answers(all[|chosen|], question);
        assert AnswersLast(chosen, k, question);
      }
    }
  }

  /** How many of the first `k` subjects have evidence. */
  ghost function Before(e: Evidence, k: nat): nat
    requires k <= |SUBJECTS|
  {
    if k == 0 then 0 else Before(e, k - 1) + if SUBJECTS[k - 1] in e then 1 else 0
  }

  /** The groups are the evidence of the subjects, in the order of their names. */
  lemma {:induction false} GroupsInOrder(e: Evidence, n: nat)
    requires n <= |SUBJECTS|
    ensures |GroupsFrom(e, SUBJECTS[..n])| == Before(e, n)
    ensures forall k :: 0 <= k < n && SUBJECTS[k] in e ==>
              Before(e, k) < Before(e, n) && GroupsFrom(e, SUBJECTS[..n])[Before(e, k)] == e[SUBJECTS[k]]
  {
    if n > 0 {
      assert SUBJECTS[..n][..n - 1] == SUBJECTS[..n - 1];
      GroupsInOrder(e, n - 1);
    } else {
      assert SUBJECTS[..0] == [];
    }
  }

  // ----- One combination

  datatype Result = Misfired | Dismissed | Lowered | Kept | Confirmed

  datatype Term = Term(place: string, mass: real)

  type Matched = map<string, Term>

  datatype Outcome = Outcome(result: Result, severity: Severity, matched: Matched) {
    function Rank(): nat {
      match result
      case Misfired => 0
      case Dismissed => 1
      case Lowered => 1 + severity.Rank()
      case Kept => 3 + Critical.Rank()
      case Confirmed => 4 + Critical.Rank()
    }
  }

  /** `match`: the row matches when every question reaches the threshold. */
  function Match(c: Combination, row: Row, bar: real): (m: Option<Matched>)
    ensures m.Some? <==> Matches(c, row, bar)
  {
    if Matches(c, row, bar) then
      Some(map q | q in row :: Term(if q in c then c[q].place else "", Mass(ReplyTo(c, q).probabilities, row[q])))
    else None
  }

  function First(c: Combination, rows: seq<Row>, bar: real): (m: Option<Matched>)
    ensures m.Some? <==> exists i :: 0 <= i < |rows| && Matches(c, rows[i], bar)
  {
    if rows == [] then None
    else
      var m := Match(c, rows[0], bar);
      if m.Some? then
        assert Matches(c, rows[0], bar);
        m
      else
        var rest := First(c, rows[1..], bar);
        assert rest.Some? ==> exists i :: 0 <= i < |rows[1..]| && Matches(c, rows[1..][i], bar);
        assert forall i :: 0 < i < |rows| ==> rows[i] == rows[1..][i - 1];
        rest
  }

  /** The most severe level first. */
  const SEVERITIES: seq<Severity> := [Critical, High, Medium, Low]

  function Level(c: Combination, t: Table, bar: real, levels: seq<Severity>): Option<(Severity, Matched)> {
    if levels == [] then None
    else
      var m := First(c, LevelRows(t, levels[0]), bar);
      if m.Some? then Some((levels[0], m.value)) else Level(c, t, bar, levels[1..])
  }

  const KEPT := Outcome(Kept, NO_SEVERITY, map[])

  function Decide(c: Combination, t: Table, limits: Limits, lowering: bool): Outcome {
    var misfire := First(c, t.misfire, limits.dismiss);
    if misfire.Some? && lowering then Outcome(Misfired, NO_SEVERITY, misfire.value)
    else
      var confirm := First(c, t.confirm, limits.confirm);
      if confirm.Some? then Outcome(Confirmed, NO_SEVERITY, confirm.value)
      else if !lowering then KEPT
      else
        var level := Level(c, t, limits.dismiss, SEVERITIES);
        if level.Some? then Outcome(Lowered, level.value.0, level.value.1)
        else
          var dismiss := First(c, t.dismiss, limits.dismiss);
          if dismiss.Some? then Outcome(Dismissed, NO_SEVERITY, dismiss.value) else KEPT
  }

  lemma {:induction false} LevelIsKnown(c: Combination, t: Table, bar: real, levels: seq<Severity>)
    ensures var r := Level(c, t, bar, levels); r.Some? ==> r.value.0 in levels
  {
    if levels != [] {
      LevelIsKnown(c, t, bar, levels[1..]);
    }
  }

  lemma {:induction false} DecideFacts(c: Combination, t: Table, limits: Limits, lowering: bool)
    ensures var o := Decide(c, t, limits, lowering);
            && (o.result == Lowered ==> o.severity in SEVERITIES)
            && (!lowering ==> o.result == Confirmed || o.result == Kept)
            && (o.result == Misfired <==> o.Rank() == 0) && (o.result == Confirmed <==> o.Rank() == 8)
            && (o.result == Misfired ==> First(c, t.misfire, limits.dismiss).Some?)
            && (o.result == Confirmed <==> Confirming(c, t, limits, lowering))
  {
    LevelIsKnown(c, t, limits.dismiss, SEVERITIES);
  }

  /** A rank is the rank of one result and severity. */
  lemma {:induction false} RankDetermines(c: Combination, d: Combination, t: Table, limits: Limits, lowering: bool)
    requires Decide(c, t, limits, lowering).Rank() == Decide(d, t, limits, lowering).Rank()
    ensures Decide(c, t, limits, lowering).result == Decide(d, t, limits, lowering).result
    ensures Decide(c, t, limits, lowering).severity == Decide(d, t, limits, lowering).severity
  {
    hide Decide, Outcome.Rank;
    DecideShape(c, t, limits, lowering);
    DecideShape(d, t, limits, lowering);
    ShapeDetermines(Decide(c, t, limits, lowering), Decide(d, t, limits, lowering));
  }

  /** Only a lowering names a severity, one of the known ones. */
  ghost predicate Shaped(o: Outcome) { if o.result == Lowered then o.severity in SEVERITIES
      else o.severity == NO_SEVERITY }

  lemma {:induction false} DecideShape(c: Combination, t: Table, limits: Limits, lowering: bool)
    ensures Shaped(Decide(c, t, limits, lowering))
  {
    hide First, Level;
    LevelIsKnown(c, t, limits.dismiss, SEVERITIES);
  }

  lemma {:induction false} ShapeDetermines(a: Outcome, b: Outcome)
    requires Shaped(a) && Shaped(b) && a.Rank() == b.Rank()
    ensures a.result == b.result && a.severity == b.severity
  {
  }

  ghost predicate AnyMatch(c: Combination, rows: seq<Row>, bar: real) {
    exists i :: 0 <= i < |rows| && Matches(c, rows[i], bar)
  }

  /** A level of the table has a row that matches. */
  ghost predicate LevelMatches(c: Combination, t: Table, bar: real, level: Severity) {
    level in t.severity && AnyMatch(c, t.severity[level], bar)
  }

  /** What a combination comes to, by the rows that match: the first of misfire, confirm, severity and
      dismiss rows, the severity being the highest one with a matching row. */
  lemma {:induction false} DecideIff(c: Combination, t: Table, limits: Limits, lowering: bool)
    ensures var o := Decide(c, t, limits, lowering);
            var misfires := lowering && AnyMatch(c, t.misfire, limits.dismiss);
            var confirms := !misfires && AnyMatch(c, t.confirm, limits.confirm);
            var lowers := exists level: Severity :: level.Rank() > 0 && LevelMatches(c, t, limits.dismiss, level);
            && (o.result == Misfired <==> misfires)
            && (o.result == Confirmed <==> confirms)
            && (o.result == Lowered <==> lowering && !misfires && !confirms && lowers)
            && (o.result == Dismissed <==>
                  lowering && !misfires && !confirms && !lowers && AnyMatch(c, t.dismiss, limits.dismiss))
            && (o.result == Lowered ==> HighestLevel(c, t, limits.dismiss, o.severity))
  {
    hide First, Level, Matches;
    assert SEVERITIES[0] == Critical && SEVERITIES[1] == High && SEVERITIES[2] == Medium && SEVERITIES[3] == Low;
    LevelIs(c, t, limits.dismiss, SEVERITIES);
    assert forall level: Severity :: level.Rank() > 0 <==> level in SEVERITIES;
    var level := Level(c, t, limits.dismiss, SEVERITIES);
    if level.Some? {
      assert LevelMatches(c, t, limits.dismiss, level.value.0);
    }
  }

  ghost predicate HighestLevel(c: Combination, t: Table, bar: real, level: Severity) {
    && level.Rank() > 0 && LevelMatches(c, t, bar, level)
    && forall other :: LevelMatches(c, t, bar, other) ==> other.Rank() <= level.Rank()
  }

  lemma {:induction false} LevelIs(c: Combination, t: Table, bar: real, levels: seq<Severity>)
    requires forall i, j :: 0 <= i < j < |levels| ==> levels[j].Rank() < levels[i].Rank()
    ensures var r := Level(c, t, bar, levels);
            && (r.Some? <==> exists i :: 0 <= i < |levels| && LevelMatches(c, t, bar, levels[i]))
            && (r.Some? ==>
                  && r.value.0 in levels && LevelMatches(c, t, bar, r.value.0)
                  && forall i :: 0 <= i < |levels| && LevelMatches(c, t, bar, levels[i]) ==>
                       levels[i].Rank() <= r.value.0.Rank())
  {
    hide First, Matches;
    if levels != [] {
      LevelIs(c, t, bar, levels[1..]);
    }
  }

  // ----- The weakest term and the worst case

  ghost predicate IsWeakest(m: Matched, w: real) {
    && w <= 1.0 && (forall q :: q in m ==> w <= m[q].mass)
    && (w == 1.0 || exists q :: q in m && m[q].mass == w)
  }

  lemma {:induction false} WeakestExists(m: Matched)
    ensures exists w :: IsWeakest(m, w)
    decreases |m|
  {
    if m == map[] {
      assert IsWeakest(m, 1.0);
    } else {
      var q :| q in m;
      var rest := m - {q};
      assert |rest.Keys| == |m.Keys - {q}|;
      WeakestExists(rest);
      var w :| IsWeakest(rest, w);
      var v := if m[q].mass < w then m[q].mass else w;
      assert m.Keys == rest.Keys + {q};
      if v == w && w != 1.0 {
        var r :| r in rest && rest[r].mass == w;
        assert r in m && m[r].mass == v;
      }
      assert IsWeakest(m, v);
    }
  }

  ghost function Weakest(m: Matched): (w: real)
    ensures IsWeakest(m, w)
  {
    WeakestExists(m);
    var w :| IsWeakest(m, w);
    w
  }

  method FindWeakest(m: Matched) returns (lowest: real)
    ensures lowest == Weakest(m)
  {
    lowest := 1.0;
    var keys := m.Keys;
    while keys != {}
      invariant keys <= m.Keys && lowest <= 1.0
      invariant forall q :: q in m && q !in keys ==> lowest <= m[q].mass
      invariant lowest == 1.0 || exists q :: q in m && m[q].mass == lowest
      decreases |keys|
    {
      var q :| q in keys;
      keys := keys - {q};
      if m[q].mass < lowest {
        lowest := m[q].mass;
      }
    }
    assert IsWeakest(m, lowest);
  }

  /** `worst` after the next outcome `o`. */
  ghost function Worse(worst: Outcome, o: Outcome): Outcome {
    var tied := o.Rank() == worst.Rank() && o.result != Confirmed && Weakest(o.matched) < Weakest(worst.matched);
    if o.Rank() > worst.Rank() || tied then o else worst
  }

  ghost function Worst(all: seq<Combination>, t: Table, limits: Limits, lowering: bool): Outcome {
    if all == [] then KEPT
    else if |all| == 1 then Decide(all[0], t, limits, lowering)
    else Worse(Worst(all[..|all| - 1], t, limits, lowering), Decide(all[|all| - 1], t, limits, lowering))
  }

  lemma {:induction false} WorstNext(all: seq<Combination>, i: nat, t: Table, limits: Limits, lowering: bool)
    requires 0 < i < |all|
    ensures Worst(all[..i + 1], t, limits, lowering)
      == Worse(Worst(all[..i], t, limits, lowering), Decide(all[i], t, limits, lowering))
  {
    hide Decide, Worse;
    assert all[..i + 1][..i] == all[..i];
  }

  method DecideAll(e: Evidence, t: Table, limits: Limits, lowering: bool) returns (worst: Outcome)
    ensures worst == Worst(Combos(Groups(e)), t, limits, lowering)
  {
    hide Decide, IsWeakest, Combos;
    var all := Combinations(e);
    if all == [] {
      return KEPT;
    }
    worst := Decide(all[0], t, limits, lowering);
    for i := 1 to |all|
      invariant worst == Worst(all[..i], t, limits, lowering)
    {
      WorstNext(all, i, t, limits, lowering);
      var o := Decide(all[i], t, limits, lowering);
      var ow := FindWeakest(o.matched);
      var ww := FindWeakest(worst.matched);
      var tied := o.Rank() == worst.Rank() && o.result != Confirmed && ow < ww;
      if o.Rank() > worst.Rank() || tied {
        worst := o;
      }
    }
    assert all[..|all|] == all;
  }

  /** `w` ranks at least as high as `o`, and among equal ranks below a confirmation its match
      is at most as strong. */
  ghost predicate AtLeast(w: Outcome, o: Outcome) {
    o.Rank() <= w.Rank() && (o.Rank() == w.Rank() && w.result != Confirmed ==> Weakest(w.matched) <= Weakest(o.matched))
  }

  ghost predicate RankTells(o: Outcome) { o.result == Confirmed <==> o.Rank() == 8 }

  lemma {:induction false} WorseIsAtLeast(w: Outcome, o: Outcome, x: Outcome)
    requires RankTells(w) && RankTells(o) && RankTells(x)
    ensures AtLeast(Worse(w, o), o) && (AtLeast(w, x) ==> AtLeast(Worse(w, o), x))
  {}

  /** The aggregate is the outcome of some combination and no combination ranks higher; among
      equal ranks it has the weakest match, except for a confirmation, which keeps the first. */
  lemma {:induction false} WorstIsMaximum(all: seq<Combination>, t: Table, limits: Limits, lowering: bool)
    requires all != []
    ensures exists i :: 0 <= i < |all| && Worst(all, t, limits, lowering) == Decide(all[i], t, limits, lowering)
    ensures forall i :: 0 <= i < |all| ==> AtLeast(Worst(all, t, limits, lowering), Decide(all[i], t, limits, lowering))
  {
    hide Decide, Weakest, AtLeast, Worse;
    var n := |all| - 1;
    if n == 0 {
      Reflexive(Decide(all[0], t, limits, lowering));
    } else {
      WorstIsMaximum(all[..n], t, limits, lowering);
      var w, o := Worst(all[..n], t, limits, lowering), Decide(all[n], t, limits, lowering);
      var i :| 0 <= i < n && w == Decide(all[..n][i], t, limits, lowering);
      assert all[..n][i] == all[i];
      WorseIsEither(w, o);
      var j := if Worse(w, o) == o then n else i;
      assert Worst(all, t, limits, lowering) == Decide(all[j], t, limits, lowering);
      DecideFacts(all[i], t, limits, lowering);
      DecideFacts(all[n], t, limits, lowering);
      forall k | 0 <= k < |all| ensures AtLeast(Worst(all, t, limits, lowering), Decide(all[k], t, limits, lowering)) {
        DecideFacts(all[k], t, limits, lowering);
        WorseIsAtLeast(w, o, Decide(all[k], t, limits, lowering));
        if k < n {
          assert AtLeast(w, Decide(all[..n][k], t, limits, lowering));
        }
      }
    }
  }

  lemma {:induction false} Reflexive(o: Outcome)
    ensures AtLeast(o, o)
  {}

  lemma {:induction false} WorseIsEither(w: Outcome, o: Outcome)
    ensures Worse(w, o) == w || Worse(w, o) == o
  {}

  // ----- More instances, in any order

  /** The same replies; the place labels may differ. */
  ghost predicate SameReplies(c: Combination, d: Combination) {
    c.Keys == d.Keys && forall q :: q in c ==> c[q].reply == d[q].reply
  }

  lemma {:induction false} FirstIgnoresLabels(c: Combination, d: Combination, rows: seq<Row>, bar: real)
    requires SameReplies(c, d)
    ensures First(c, rows, bar).Some? == First(d, rows, bar).Some?
  {
    assert forall q :: ReplyTo(c, q) == ReplyTo(d, q);
    assert forall i :: 0 <= i < |rows| ==> Matches(c, rows[i], bar) == Matches(d, rows[i], bar);
  }

  lemma {:induction false} LevelIgnoresLabels(c: Combination, d: Combination, t: Table, bar: real,
      levels: seq<Severity>)
    requires SameReplies(c, d)
    ensures var a, b := Level(c, t, bar, levels), Level(d, t, bar, levels);
            a.Some? == b.Some? && (a.Some? ==> a.value.0 == b.value.0)
  {
    if levels != [] {
      FirstIgnoresLabels(c, d, LevelRows(t, levels[0]), bar);
      LevelIgnoresLabels(c, d, t, bar, levels[1..]);
    }
  }

  lemma {:induction false} DecideIgnoresLabels(c: Combination, d: Combination, t: Table, limits: Limits, lowering: bool)
    requires SameReplies(c, d)
    ensures Decide(c, t, limits, lowering).Rank() == Decide(d, t, limits, lowering).Rank()
  {
    FirstIgnoresLabels(c, d, t.misfire, limits.dismiss);
    FirstIgnoresLabels(c, d, t.confirm, limits.confirm);
    FirstIgnoresLabels(c, d, t.dismiss, limits.dismiss);
    LevelIgnoresLabels(c, d, t, limits.dismiss, SEVERITIES);
  }

  /** Every group of `more` has at least the instances of the group of `groups`. */
  ghost predicate Covers(more: seq<seq<Instance>>, groups: seq<seq<Instance>>) {
    && |more| == |groups|
    && forall k, i :: 0 <= k < |groups| && 0 <= i < |groups[k]| ==> groups[k][i] in more[k]
  }

  lemma {:induction false} PickInMore(more: seq<seq<Instance>>, groups: seq<seq<Instance>>, choice: seq<nat>)
    returns (other: seq<nat>)
    requires Covers(more, groups) && Choice(groups, choice)
    ensures Choice(more, other) && SameReplies(Pick(groups, choice), Pick(more, other))
    decreases |groups|
  {
    if groups == [] {
      other := [];
    } else {
      var n := |groups| - 1;
      forall k, i | 0 <= k < n && 0 <= i < |groups[..n][k]| ensures groups[..n][k][i] in more[..n][k] {
        assert groups[k][i] in more[k];
      }
      var rest := PickInMore(more[..n], groups[..n], choice[..n]);
      assert groups[n][choice[n]] in more[n];
      var j: nat :| j < |more[n]| && more[n][j] == groups[n][choice[n]];
      other := rest + [j];
      assert other[..n] == rest;
    }
  }

  /** Adding instances to groups that already have one never makes the outcome milder. */
  lemma {:induction false} MoreIsNoMilder(more: seq<seq<Instance>>, groups: seq<seq<Instance>>, t: Table,
      limits: Limits, lowering: bool)
    requires Covers(more, groups) && forall k :: 0 <= k < |groups| ==> groups[k] != []
    ensures Worst(Combos(groups), t, limits, lowering).Rank() <= Worst(Combos(more), t, limits, lowering).Rank()
  {
    var all, wide := Combos(groups), Combos(more);
    ComboCount(groups);
    WorstIsMaximum(all, t, limits, lowering);
    var i :| 0 <= i < |all| && Worst(all, t, limits, lowering) == Decide(all[i], t, limits, lowering);
    var choice := EveryPlaceChosen(groups, i);
    EveryChoiceEnumerated(groups, choice);
    var other := PickInMore(more, groups, choice);
    EveryChoiceEnumerated(more, other);
    DecideIgnoresLabels(all[i], Pick(more, other), t, limits, lowering);
    WorstIsMaximum(wide, t, limits, lowering);
    assert Decide(wide[Place(more, other)], t, limits, lowering).Rank() <= Worst(wide, t, limits, lowering).Rank();
  }

  /** The aggregate result and severity do not depend on the order of the instances. */
  lemma {:induction false} OrderIrrelevant(a: seq<seq<Instance>>, b: seq<seq<Instance>>, t: Table, limits: Limits,
      lowering: bool)
    requires |a| == |b| && forall k :: 0 <= k < |a| ==> multiset(a[k]) == multiset(b[k])
    ensures var x, y := Worst(Combos(a), t, limits, lowering), Worst(Combos(b), t, limits, lowering);
            x.result == y.result && x.severity == y.severity
  {
    ComboCount(a);
    ComboCount(b);
    assert forall k :: 0 <= k < |a| ==> |a[k]| == |multiset(a[k])| == |multiset(b[k])| == |b[k]|;
    if Combos(a) != [] {
      CoversPermuted(a, b);
      CoversPermuted(b, a);
      MoreIsNoMilder(a, b, t, limits, lowering);
      MoreIsNoMilder(b, a, t, limits, lowering);
      WorstIsMaximum(Combos(a), t, limits, lowering);
      WorstIsMaximum(Combos(b), t, limits, lowering);
      var i :| 0 <= i < |Combos(a)|
        && Worst(Combos(a), t, limits, lowering) == Decide(Combos(a)[i], t, limits, lowering);
      var j :| 0 <= j < |Combos(b)|
        && Worst(Combos(b), t, limits, lowering) == Decide(Combos(b)[j], t, limits, lowering);
      RankDetermines(Combos(a)[i], Combos(b)[j], t, limits, lowering);
    }
  }

  lemma {:induction false} CoversPermuted(a: seq<seq<Instance>>, b: seq<seq<Instance>>)
    requires |a| == |b| && forall k :: 0 <= k < |a| ==> multiset(a[k]) == multiset(b[k])
    ensures Covers(a, b)
  {
    forall k, i | 0 <= k < |b| && 0 <= i < |b[k]| ensures b[k][i] in a[k] {
      assert b[k][i] in multiset(b[k]);
      assert b[k][i] in multiset(a[k]);
    }
  }

  /** A subject without any instance keeps the finding whatever the others say. */
  lemma {:induction false} EmptySubjectKeeps(groups: seq<seq<Instance>>, t: Table, limits: Limits, lowering: bool)
    requires exists k :: 0 <= k < |groups| && groups[k] == []
    ensures Worst(Combos(groups), t, limits, lowering) == KEPT
  {
    ComboCount(groups);
  }

  // ----- The verdict

  datatype State = Confirms | Dismisses | Downgrades

  datatype Verdict = Verdict(state: State, severity: Severity, confidence: nat)

  function Confidence(weakest: real): nat { if weakest >= 0.95 then 4 else 3 }

  function Higher(a: Severity, b: Severity): Severity { if b.Rank() > a.Rank() then b else a }

  function LowerTo(target: Severity, current: Severity, confidence: nat): Option<Verdict> {
    if target.Rank() >= current.Rank() then None else Some(Verdict(Downgrades, target, confidence))
  }

  function Judged(o: Outcome, weakest: real, policy: Policy, current: Severity): Option<Verdict> {
    var confidence := Confidence(weakest);
    match o.result
    case Confirmed => Some(Verdict(Confirms, current, confidence))
    case Misfired => Some(Verdict(Dismisses, current, confidence))
    case Lowered => LowerTo(Higher(o.severity, policy.floor), current, confidence)
    case Dismissed =>
      if policy.floor == NO_SEVERITY then Some(Verdict(Dismisses, current, confidence))
      else LowerTo(policy.floor, current, confidence)
    case Kept => None
  }

  ghost function JudgedWorst(e: Evidence, t: Table, limits: Limits, policy: Policy,
      current: Severity): Option<Verdict> {
    var o := Worst(Combos(Groups(e)), t, limits, policy.downgrade);
    Judged(o, Weakest(o.matched), policy, current)
  }

  method Judge(e: Evidence, t: Table, limits: Limits, policy: Policy, current: Severity) returns (v: Option<Verdict>)
    ensures v == JudgedWorst(e, t, limits, policy, current)
  {
    var o := DecideAll(e, t, limits, policy.downgrade);
    var weakest := FindWeakest(o.matched);
    v := Judged(o, weakest, policy, current);
  }

  lemma {:induction false} NoneKept(t: Table, limits: Limits, lowering: bool)
    ensures Worst([], t, limits, lowering) == KEPT
  {}

  ghost predicate AllMisfire(e: Evidence, t: Table, limits: Limits) {
    && Combos(Groups(e)) != []
    && forall i :: 0 <= i < |Combos(Groups(e))| ==> First(Combos(Groups(e))[i], t.misfire, limits.dismiss).Some?
  }

  /** What the worst outcome can be: it misfires only when every combination does. */
  lemma {:induction false} WorstFacts(all: seq<Combination>, t: Table, limits: Limits, lowering: bool)
    ensures var o := Worst(all, t, limits, lowering);
            && (o.result == Lowered ==> o.severity in SEVERITIES)
            && (!lowering ==> o.result == Confirmed || o.result == Kept)
            && (o.result == Misfired ==> all != [] && forall j :: 0 <= j < |all| ==>
              First(all[j], t.misfire, limits.dismiss).Some?)
  {
    hide Decide, First, Weakest, Worst, Confirming;
    NoneKept(t, limits, lowering);
    if all != [] {
      WorstIsMaximum(all, t, limits, lowering);
      var i :| 0 <= i < |all| && Worst(all, t, limits, lowering) == Decide(all[i], t, limits, lowering);
      DecideFacts(all[i], t, limits, lowering);
      if Decide(all[i], t, limits, lowering).result == Misfired {
        forall j | 0 <= j < |all| ensures First(all[j], t.misfire, limits.dismiss).Some? {
          DecideFacts(all[j], t, limits, lowering);
        }
      }
    }
  }

  /** Whatever the replies: a verdict never raises a severity, leaves the floor only when every
      combination is a misfire, and without downgrading can only confirm. */
  lemma {:induction false} VerdictBounds(e: Evidence, t: Table, limits: Limits, policy: Policy, current: Severity)
    requires policy.Valid() && current.Rank() > 0
    ensures var v := JudgedWorst(e, t, limits, policy, current);
            v.Some? ==>
              && v.value.severity.Rank() <= current.Rank()
              && (v.value.state == Downgrades <==> v.value.severity.Rank() < current.Rank())
              && (v.value.state == Downgrades ==> policy.downgrade && policy.floor.Rank() <= v.value.severity.Rank())
              && (v.value.state == Dismisses ==>
                policy.downgrade && (policy.floor == NO_SEVERITY || AllMisfire(e, t, limits)))
              && (!policy.downgrade ==> v.value.state == Confirms)
              && 3 <= v.value.confidence <= 4
  {
    hide First, Combos, Weakest, Worst, Groups;
    WorstFacts(Combos(Groups(e)), t, limits, policy.downgrade);
  }

  /** What becomes of a finding of severity `current`: nothing, or its state and severity. */
  ghost predicate Becomes(v: Option<Verdict>, state: State, severity: Severity) {
    v.Some? && v.value.state == state && v.value.severity == severity
  }

  /** A severity to lower to: one of two, no milder than either, and only if it is milder than `current`. */
  ghost predicate LowersTo(v: Option<Verdict>, a: Severity, b: Severity, current: Severity) {
    && (v.Some? <==> a.Rank() < current.Rank() && b.Rank() < current.Rank())
    && (v.Some? ==>
          && v.value.state == Downgrades && v.value.severity in {a, b}
          && a.Rank() <= v.value.severity.Rank() && b.Rank() <= v.value.severity.Rank())
  }

  /** The verdict follows the worst outcome: only a floor keeps a dismissal from dismissing, a lowering goes to
      the level of the matching row or to the floor, and the confidence is higher when every term is strong. */
  lemma {:induction false} VerdictFollows(e: Evidence, t: Table, limits: Limits, policy: Policy, current: Severity)
    requires policy.Valid() && current.Rank() > 0
    ensures var v := JudgedWorst(e, t, limits, policy, current);
            var o := Worst(Combos(Groups(e)), t, limits, policy.downgrade);
            && (o.result == Kept ==> v.None?)
            && (o.result == Confirmed ==> Becomes(v, Confirms, current))
            && (o.result == Misfired ==> Becomes(v, Dismisses, current))
            && (o.result == Dismissed && policy.floor == NO_SEVERITY ==> Becomes(v, Dismisses, current))
            && (o.result == Dismissed && policy.floor != NO_SEVERITY ==>
              LowersTo(v, policy.floor, policy.floor, current))
            && (o.result == Lowered ==> LowersTo(v, o.severity, policy.floor, current))
            && (v.Some? ==> v.value.confidence == if forall q :: q in o.matched ==>
              o.matched[q].mass >= 0.95 then 4 else 3)
  {
    hide Combos, Worst, Groups, Decide;
    var o := Worst(Combos(Groups(e)), t, limits, policy.downgrade);
    assert IsWeakest(o.matched, Weakest(o.matched));
  }

  /** Outcomes by how mild they are: a misfire is the mildest, then a dismissal, the lowerings by their level, keeping
      and confirming. */
  ghost predicate Milder(a: Outcome, b: Outcome) {
    match a.result
    case Misfired => b.result != Misfired
    case Dismissed => b.result in {Lowered, Kept, Confirmed}
    case Lowered => b.result in {Kept, Confirmed} || (b.result == Lowered && a.severity.Rank() < b.severity.Rank())
    case Kept => b.result == Confirmed
    case Confirmed => false
  }

  lemma {:induction false} RankOrders(c: Combination, d: Combination, t: Table, limits: Limits, lowering: bool)
    ensures var a, b := Decide(c, t, limits, lowering), Decide(d, t, limits, lowering);
            a.Rank() < b.Rank() <==> Milder(a, b)
  {
    hide Decide;
    DecideShape(c, t, limits, lowering);
    DecideShape(d, t, limits, lowering);
  }

  /** One combination that confirms is enough, and nothing else confirms. */
  lemma {:induction false} ConfirmedIff(e: Evidence, t: Table, limits: Limits, policy: Policy, current: Severity)
    ensures var all := Combos(Groups(e)); var v := JudgedWorst(e, t, limits, policy, current);
            (v.Some? && v.value.state == Confirms) <==>
            exists i :: 0 <= i < |all| && Confirming(all[i], t, limits, policy.downgrade)
  {
    hide Decide, First, Combos, Weakest, Worst, Groups, Confirming;
    NoneKept(t, limits, policy.downgrade);
    var all := Combos(Groups(e));
    if all != [] {
      WorstIsMaximum(all, t, limits, policy.downgrade);
      forall i | 0 <= i < |all|
        ensures var o := Decide(all[i], t, limits, policy.downgrade);
                (o.result == Confirmed <==> Confirming(all[i], t, limits, policy.downgrade))
                  && (o.result == Confirmed <==> o.Rank() == 8)
      {
        DecideFacts(all[i], t, limits, policy.downgrade);
      }
    }
  }

  ghost predicate Confirming(c: Combination, t: Table, limits: Limits, lowering: bool) {
    && (exists i :: 0 <= i < |t.confirm| && Matches(c, t.confirm[i], limits.confirm))
    && !(lowering && exists i :: 0 <= i < |t.misfire| && Matches(c, t.misfire[i], limits.dismiss))
  }
}
