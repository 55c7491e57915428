/** Severities (pkg/finding/severity.go). */
module Severities {
  /** `Other("")` is the empty severity, used where no floor is set. */
  datatype Severity = Low | Medium | High | Critical | Other(name: string) {
    function Rank(): nat {
      match this
      case Low => 1
      case Medium => 2
      case High => 3
      case Critical => 4
      case Other(_) => 0
    }
  }

  const NO_SEVERITY := Other("")

  /** Whether a rule may be downgraded, and how far (`JudgePolicy` in pkg/rules/rule.go). */
  datatype Policy = Policy(downgrade: bool, floor: Severity) {
    /** What the rule check accepts: no floor, or a known severity. */
    predicate Valid() { floor == NO_SEVERITY || floor.Rank() > 0 }
  }
}

/** Outcome tables, their static check (pkg/rules/decision.go) and how a row matches the
    replies of a model (`mass` and `match` in pkg/internal/layers/decision/engine.go). */
module DecisionTable {
  import opened Options
  import opened Severities

  type Row = map<string, seq<string>>

  datatype Kind = Confirm | Severe | Dismiss | Misfire

  datatype Table = Table(confirm: seq<Row>, severity: map<Severity, seq<Row>>, dismiss: seq<Row>, misfire: seq<Row>)

  datatype Kinded = Kinded(kind: Kind, row: Row)

  // ----- Replies and masses

  type Probabilities = map<string, real>

  function Of(p: Probabilities, option: string): real {
    if option in p then p[option] else 0.0
  }

  /** The mass of a list of options; an option named twice counts twice. */
  function Mass(p: Probabilities, options: seq<string>): real {
    if options == [] then 0.0 else Mass(p, options[..|options| - 1]) + Of(p, options[|options| - 1])
  }

  method SumMass(p: Probabilities, options: seq<string>) returns (total: real)
    ensures total == Mass(p, options)
  {
    total := 0.0;
    for i := 0 to |options|
      invariant total == Mass(p, options[..i])
    {
      assert options[..i + 1][..i] == options[..i];
      total := total + Of(p, options[i]);
    }
    assert options[..|options|] == options;
  }

  // ----- Arithmetic on masses

  lemma {:induction false} TimesLe(a: real, b: real, c: real)
    requires a <= b && c >= 0.0
    ensures a * c <= b * c && c * a <= c * b
  {}

  lemma {:induction false} TimesSum(n: real, p: real, q: real)
    ensures n * (p + q) == n * p + n * q && (p + q) * n == p * n + q * n
  {}

  lemma {:induction false} Times3(a: real, b: real, c: real)
    ensures a * b * c == a * (b * c) == b * (a * c) == (a * c) * b
  {}

  /** A product by name, so that a longer argument can use the laws below one at a time. */
  ghost function Product(a: real, b: real): real { a * b }

  lemma {:induction false} ProductLe(a: real, b: real, c: real)
    requires a <= b && c >= 0.0
    ensures Product(a, c) <= Product(b, c)
  {
    TimesLe(a, b, c);
  }

  lemma {:induction false} ProductSum(n: real, p: real, q: real)
    ensures Product(n, p) + Product(n, q) == Product(n, p + q)
  {
    TimesSum(n, p, q);
  }

  lemma {:induction false} ProductSwap(a: real, b: real)
    ensures Product(a, b) == Product(b, a)
  {
  }

  lemma {:induction false} ProductMove(a: real, b: real, c: real)
    ensures Product(Product(a, b), c) == Product(Product(a, c), b)
  {
  }

  lemma {:induction false} ProductOne(a: real)
    ensures Product(1.0, a) == a
  {
  }

  lemma {:induction false} ProductNat(m: nat, n: nat)
    ensures Product(m as real, n as real) >= 0.0
  {
    TimesLe(0.0, m as real, n as real);
  }

  lemma {:induction false} RepeatProduct(n: nat, q: real)
    ensures Repeat(n, q) == Product(n as real, q)
  {
    RepeatIsProduct(n, q);
  }

  lemma {:induction false} FitsProduct(m: nat, n: nat, alpha: real, beta: real)
    ensures Fits(m, n, alpha, beta)
       <==> Product(alpha, n as real) + Product(beta, m as real) <= Product(m as real, n as real)
  {
  }

  /** `n` times `q`, by addition. */
  ghost function Repeat(n: nat, q: real): real {
    if n == 0 then 0.0 else Repeat(n - 1, q) + q
  }

  lemma {:induction false} RepeatIsProduct(n: nat, q: real)
    ensures Repeat(n, q) == n as real * q
  {
    if n > 0 {
      RepeatIsProduct(n - 1, q);
      TimesSum(q, (n - 1) as real, 1.0);
    }
  }

  lemma {:induction false} RepeatSum(n: nat, p: real, q: real)
    ensures Repeat(n, p + q) == Repeat(n, p) + Repeat(n, q)
  {
    if n > 0 {
      RepeatSum(n - 1, p, q);
    }
  }

  lemma {:induction false} RepeatMonotone(n: nat, m: nat, q: real)
    requires n <= m && q >= 0.0
    ensures 0.0 <= Repeat(n, q) <= Repeat(m, q)
    decreases m
  {
    if n < m {
      RepeatMonotone(n, m - 1, q);
    } else if n > 0 {
      RepeatMonotone(n - 1, n - 1, q);
    }
  }

  ghost predicate Distinct(options: seq<string>) {
    forall i, j :: 0 <= i < j < |options| ==> options[i] != options[j]
  }

  /** No probability is negative, and different options have at most one unit of mass together. */
  ghost predicate Distribution(p: Probabilities) {
    && (forall o :: o in p ==> p[o] >= 0.0)
    && forall options :: Distinct(options) ==> Mass(p, options) <= 1.0
  }

  lemma {:induction false} MassAppend(p: Probabilities, x: seq<string>, y: seq<string>)
    ensures Mass(p, x + y) == Mass(p, x) + Mass(p, y)
    decreases |y|
  {
    if y == [] {
      assert x + y == x;
    } else {
      assert (x + y)[..|x + y| - 1] == x + y[..|y| - 1];
      MassAppend(p, x, y[..|y| - 1]);
    }
  }

  function Count(options: seq<string>, o: string): nat {
    if options == [] then 0 else Count(options[..|options| - 1], o) + if options[|options| - 1] == o then 1 else 0
  }

  /** How often the most repeated option is named. */
  function Most(options: seq<string>): nat {
    if options == [] then 0
    else
      var rest, last := Most(options[..|options| - 1]), Count(options, options[|options| - 1]);
      if rest < last then last else rest
  }

  lemma {:induction false} MostIsMost(options: seq<string>)
    ensures forall o :: Count(options, o) <= Most(options)
    ensures options != [] ==> exists o :: o in options && Count(options, o) == Most(options)
  {
    if options != [] {
      var init, last := options[..|options| - 1], options[|options| - 1];
      MostIsMost(init);
      forall o ensures Count(options, o) <= Most(options) {
        if o != last {
          assert Count(options, o) == Count(init, o);
        }
      }
      assert Count(options, last) > 0;
      if Most(options) == Most(init) && init != [] && Count(options, last) < Most(options) {
        var o :| o in init && Count(init, o) == Most(init);
        assert o in options && Count(options, o) == Most(options);
      } else {
        assert last in options && Count(options, last) == Most(options);
      }
    }
  }

  lemma {:induction false} DistinctCount(options: seq<string>, o: string)
    ensures o in options <==> Count(options, o) > 0
    ensures Distinct(options) ==> Count(options, o) <= 1
  {
    if options != [] {
      var init := options[..|options| - 1];
      assert options == init + [options[|options| - 1]];
      DistinctCount(init, o);
    }
  }

  ghost function Without(options: seq<string>, o: string): seq<string> {
    if options == [] then []
    else
      var init, last := Without(options[..|options| - 1], o), options[|options| - 1];
      if last == o then init else init + [last]
  }

  lemma {:induction false} WithoutCounts(options: seq<string>, o: string)
    ensures forall x :: Count(Without(options, o), x) == if x == o then 0 else Count(options, x)
    ensures |Without(options, o)| <= |options| && (o in options ==> |Without(options, o)| < |options|)
  {
    if options != [] {
      var init, last := options[..|options| - 1], options[|options| - 1];
      WithoutCounts(init, o);
      assert options == init + [last];
      assert (Without(init, o) + [last])[..|Without(init, o)|] == Without(init, o);
    }
  }

  lemma {:induction false} WithoutMass(p: Probabilities, options: seq<string>, o: string)
    ensures Mass(p, options) == Repeat(Count(options, o), Of(p, o)) + Mass(p, Without(options, o))
  {
    if options != [] {
      var w := Without(options[..|options| - 1], o);
      WithoutMass(p, options[..|options| - 1], o);
      assert (w + [options[|options| - 1]])[..|w|] == w;
    }
  }

  lemma {:induction false} DistinctAppend(u: seq<string>, v: seq<string>)
    requires Distinct(u) && Distinct(v) && forall o :: o in u ==> o !in v
    ensures Distinct(u + v)
  {
    var w := u + v;
    forall i, j | 0 <= i < j < |w| ensures w[i] != w[j] {
      if i < |u| <= j {
        assert u[i] in u && v[j - |u|] in v;
      }
    }
  }

  lemma {:induction false} NoneOf(o: string)
    ensures Count([], o) == 0 && Repeat(0, 0.0) == 0.0
  {
  }

  /** Naming options up to `most` times weighs at most `most` times their different options. */
  lemma {:induction false} MassBound(p: Probabilities, options: seq<string>, most: nat) returns (once: seq<string>)
    requires forall o :: o in p ==> p[o] >= 0.0
    requires forall o :: Count(options, o) <= most
    ensures Distinct(once) && (forall o :: o in once ==> o in options)
    ensures Mass(p, options) <= Repeat(most, Mass(p, once))
    decreases |options|
  {
    hide Repeat, Count, Without;
    if options == [] {
      once := [];
      RepeatMonotone(0, most, 0.0);
      NoneOf("");
    } else {
      hide Mass;
      var o := options[0];
      WithoutCounts(options, o);
      WithoutMass(p, options, o);
      var rest := MassBound(p, Without(options, o), most);
      forall x | x in rest ensures x in options && x != o {
        LeftIn(options, o, x);
      }
      DistinctAppend(rest, [o]);
      once := rest + [o];
      MassNext(p, rest, o);
      RepeatMonotone(Count(options, o), most, Of(p, o));
      RepeatSum(most, Mass(p, rest), Of(p, o));
    }
  }

  lemma {:induction false} LeftIn(options: seq<string>, o: string, x: string)
    requires x in Without(options, o)
    ensures x in options && x != o
  {
    WithoutCounts(options, o);
    DistinctCount(Without(options, o), x);
    DistinctCount(options, x);
  }

  lemma {:induction false} MassNext(p: Probabilities, options: seq<string>, o: string)
    ensures Mass(p, options + [o]) == Mass(p, options) + Of(p, o)
  {
    assert (options + [o])[..|options|] == options;
  }

  // ----- When two rows over the same questions can both match

  datatype Reply = Reply(choice: string, probabilities: Probabilities, skipped: string)

  /** The zero reply of a question that no instance answers. */
  const NO_REPLY := Reply("", map[], "")

  datatype Given = Given(reply: Reply, place: string)

  type Combination = map<string, Given>

  function ReplyTo(c: Combination, question: string): Reply {
    if question in c then c[question].reply else NO_REPLY
  }

  ghost predicate Distributed(c: Combination) {
    forall q :: q in c ==> Distribution(c[q].reply.probabilities)
  }

  predicate Matches(c: Combination, row: Row, bar: real) {
    forall q :: q in row ==> Mass(ReplyTo(c, q).probabilities, row[q]) >= bar
  }

  /** A row naming a question without probabilities never matches a positive threshold. */
  lemma {:induction false} UnansweredNeverMatches(c: Combination, row: Row, bar: real, q: string)
    requires q in row && bar > 0.0 && ReplyTo(c, q).probabilities == map[]
    ensures !Matches(c, row, bar)
  {
    NoMass(row[q]);
  }

  lemma {:induction false} NoMass(options: seq<string>)
    ensures Mass(map[], options) == 0.0
  {
    if options != [] {
      NoMass(options[..|options| - 1]);
    }
  }

  predicate Shares(x: seq<string>, y: seq<string>) {
    exists o :: o in x && o in y
  }

  /** Both lists can reach their thresholds within one unit of mass. */
  predicate Compatible(x: seq<string>, y: seq<string>, alpha: real, beta: real) {
    Shares(x, y) || Fits(Most(x), Most(y), alpha, beta)
  }

  /** `alpha / m + beta / n <= 1`, without the division. */
  predicate Fits(m: nat, n: nat, alpha: real, beta: real) {
    alpha * n as real + beta * m as real <= m as real * n as real
  }

  lemma {:induction false} Scale(alpha: real, beta: real, m: nat, n: nat, s: real, t: real)
    requires alpha <= Repeat(m, s) && beta <= Repeat(n, t) && s + t <= 1.0
    ensures Fits(m, n, alpha, beta)
  {
    hide Product, Fits, Repeat;
    var x, y := m as real, n as real;
    var room := Product(x, y);
    calc {
      Product(alpha, y) + Product(beta, x);
    <= { RepeatProduct(m, s); ProductLe(alpha, Product(x, s), y); }
      Product(Product(x, s), y) + Product(beta, x);
    <= { RepeatProduct(n, t); ProductLe(beta, Product(y, t), x); }
      Product(Product(x, s), y) + Product(Product(y, t), x);
    == { ProductMove(x, s, y); ProductMove(y, t, x); ProductSwap(x, y); }
      Product(room, s) + Product(room, t);
    == { ProductSum(room, s, t); }
      Product(room, s + t);
    <= { ProductNat(m, n); ProductLe(s + t, 1.0, room); ProductSwap(s + t, room); ProductOne(room); }
      room;
    }
    FitsProduct(m, n, alpha, beta);
  }

  lemma {:induction false} DisjointMasses(p: Probabilities, x: seq<string>, y: seq<string>, alpha: real, beta: real)
    requires Distribution(p) && Mass(p, x) >= alpha && Mass(p, y) >= beta
    ensures Compatible(x, y, alpha, beta)
  {
    hide Fits;
    if !Shares(x, y) {
      MostIsMost(x);
      MostIsMost(y);
      var u := MassBound(p, x, Most(x));
      var v := MassBound(p, y, Most(y));
      DistinctAppend(u, v);
      MassAppend(p, u, v);
      Scale(alpha, beta, Most(x), Most(y), Mass(p, u), Mass(p, v));
    }
  }

  lemma {:induction false} TwoPoints(x: string, y: string, alpha: real, beta: real, options: seq<string>)
    requires x != y
    ensures Mass(map[x := alpha, y := beta], options)
      == Repeat(Count(options, x), alpha) + Repeat(Count(options, y), beta)
  {
    if options != [] {
      TwoPoints(x, y, alpha, beta, options[..|options| - 1]);
    }
  }

  lemma {:induction false} TwoPointsMass(x: string, y: string, alpha: real, beta: real, options: seq<string>, m: nat,
      n: nat)
    requires x != y && alpha >= 0.0 && beta >= 0.0
    requires (m <= Count(options, x) || (m == 1 && x in options)) && n <= Count(options, y)
    ensures Mass(map[x := alpha, y := beta], options) >= Repeat(m, alpha) + Repeat(n, beta)
  {
    DistinctCount(options, x);
    TwoPoints(x, y, alpha, beta, options);
    RepeatMonotone(m, Count(options, x), alpha);
    RepeatMonotone(n, Count(options, y), beta);
  }

  lemma {:induction false} TwoPointsDistribution(x: string, y: string, alpha: real, beta: real)
    requires x != y && alpha >= 0.0 && beta >= 0.0 && alpha + beta <= 1.0
    ensures Distribution(map[x := alpha, y := beta])
  {
    forall options | Distinct(options) ensures Mass(map[x := alpha, y := beta], options) <= 1.0 {
      TwoPoints(x, y, alpha, beta, options);
      DistinctCount(options, x);
      DistinctCount(options, y);
      RepeatMonotone(Count(options, x), 1, alpha);
      RepeatMonotone(Count(options, y), 1, beta);
    }
  }

  /** Two shares that scale to the thresholds. */
  lemma {:induction false} Unscale(alpha: real, beta: real, m: nat, n: nat) returns (s: real, t: real)
    requires m >= 1 && n >= 1 && alpha > 0.0 && beta > 0.0 && Fits(m, n, alpha, beta)
    ensures s > 0.0 && t > 0.0 && Repeat(m, s) == alpha && Repeat(n, t) == beta && s + t <= 1.0
  {
    var x, y := m as real, n as real;
    s, t := alpha / x, beta / y;
    RepeatIsProduct(m, s);
    RepeatIsProduct(n, t);
    TimesLe(1.0, x, y);
    Times3(x, s, y);
    Times3(y, t, x);
    TimesSum(x * y, s, t);
    if s + t > 1.0 {
      TimesMore(s + t, x * y);
    }
  }

  lemma {:induction false} TimesMore(a: real, c: real)
    requires a > 1.0 && c > 0.0
    ensures c * a > c
  {}

  /** Probabilities under which both lists reach their thresholds. */
  lemma {:induction false} Witness(x: seq<string>, y: seq<string>, alpha: real, beta: real) returns (p: Probabilities)
    requires x != [] && y != [] && 0.0 < alpha <= 1.0 && 0.0 < beta <= 1.0 && Compatible(x, y, alpha, beta)
    ensures Distribution(p) && Mass(p, x) >= alpha && Mass(p, y) >= beta
  {
    hide Fits;
    if o :| o in x && o in y {
      p := map[o := 1.0, o + "'" := 0.0];
      TwoPointsDistribution(o, o + "'", 1.0, 0.0);
      TwoPointsMass(o, o + "'", 1.0, 0.0, x, 1, 0);
      TwoPointsMass(o, o + "'", 1.0, 0.0, y, 1, 0);
    } else {
      MostIsMost(x);
      MostIsMost(y);
      var u :| u in x && Count(x, u) == Most(x);
      var v :| v in y && Count(y, v) == Most(y);
      DistinctCount(x, u);
      DistinctCount(y, v);
      var s, t := Unscale(alpha, beta, Most(x), Most(y));
      p := map[u := s, v := t];
      TwoPointsDistribution(u, v, s, t);
      TwoPointsMass(u, v, s, t, x, Most(x), 0);
      TwoPointsMass(u, v, s, t, y, 0, Most(y));
    }
  }

  ghost predicate BothCanMatch(a: Row, b: Row, alpha: real, beta: real) {
    exists c: Combination :: Distributed(c) && Matches(c, a, alpha) && Matches(c, b, beta)
  }

  /** Two rows over the same questions can both match some replies exactly when each question
      is compatible on its own. */
  lemma {:induction false} BothCanMatchIff(a: Row, b: Row, alpha: real, beta: real)
    requires a.Keys == b.Keys && 0.0 < alpha <= 1.0 && 0.0 < beta <= 1.0
    requires forall q :: q in a ==> a[q] != [] && b[q] != []
    ensures BothCanMatch(a, b, alpha, beta) <==> forall q :: q in a ==> Compatible(a[q], b[q], alpha, beta)
  {
    if c: Combination :| Distributed(c) && Matches(c, a, alpha) && Matches(c, b, beta) {
      forall q | q in a ensures Compatible(a[q], b[q], alpha, beta) {
        if q !in c {
          NoMass(a[q]);
        } else {
          DisjointMasses(c[q].reply.probabilities, a[q], b[q], alpha, beta);
        }
      }
    }
    if forall q :: q in a ==> Compatible(a[q], b[q], alpha, beta) {
      forall q | q in a ensures exists p :: Reaches(p, a[q], b[q], alpha, beta) {
        var p := Witness(a[q], b[q], alpha, beta);
        assert Reaches(p, a[q], b[q], alpha, beta);
      }
      var c: Combination := map q | q in a :: Given(Reply("", Chosen(a[q], b[q], alpha, beta), ""), "");
      assert Distributed(c) && Matches(c, a, alpha) && Matches(c, b, beta);
    }
  }

  ghost predicate Reaches(p: Probabilities, x: seq<string>, y: seq<string>, alpha: real, beta: real) {
    Distribution(p) && Mass(p, x) >= alpha && Mass(p, y) >= beta
  }

  ghost function Chosen(x: seq<string>, y: seq<string>, alpha: real, beta: real): (p: Probabilities)
    requires exists p :: Reaches(p, x, y, alpha, beta)
    ensures Reaches(p, x, y, alpha, beta)
  {
    var p :| Reaches(p, x, y, alpha, beta);
    p
  }

  // ----- The static check

  datatype Question = Question(options: set<string>)

  predicate Conflicting(a: Kind, b: Kind) {
    if a == b then false
    else if a == Confirm || b == Confirm then true
    else a == Severe || b == Severe
  }

  /** `overlap`: as many questions, and each question of `a` is in `b` with a common option. */
  predicate Overlap(a: Row, b: Row) {
    |a| == |b| && forall q :: q in a ==> q in b && Shares(a[q], b[q])
  }

  lemma {:induction false} OverlapSameQuestions(a: Row, b: Row)
    ensures Overlap(a, b) <==> a.Keys == b.Keys && forall q :: q in a ==> Shares(a[q], b[q])
  {
    if Overlap(a, b) {
      assert a.Keys <= b.Keys;
      SubsetOfSameSize(a.Keys, b.Keys);
    }
    if a.Keys == b.Keys {
      assert |a.Keys| == |a| && |b.Keys| == |b|;
    }
  }

  lemma {:induction false} SubsetOfSameSize(s: set<string>, t: set<string>)
    requires s <= t && |s| == |t|
    ensures s == t
  {
    assert |t - s| == |t| - |s|;
  }

  /** `kinded.check`: a row names known questions with known options. */
  predicate WellNamed(row: Row, questions: map<string, Question>) {
    && row != map[]
    && forall q :: q in row ==> q in questions && row[q] != [] && forall o :: o in row[q] ==> o in questions[q].options
  }

  predicate GoodLevels(t: Table, rule: Severity) {
    forall level :: level in t.severity ==> 0 < level.Rank() < rule.Rank()
  }

  function Tagged(kind: Kind, rows: seq<Row>): seq<Kinded> {
    seq(|rows|, i requires 0 <= i < |rows| => Kinded(kind, rows[i]))
  }

  function LevelRows(t: Table, level: Severity): seq<Row> {
    if level in t.severity then t.severity[level] else []
  }

  function AllRows(t: Table): seq<Kinded> {
    Tagged(Confirm, t.confirm) + Tagged(Severe,
      LevelRows(t, Critical) + LevelRows(t, High) + LevelRows(t, Low) + LevelRows(t, Medium))
    + Tagged(Dismiss, t.dismiss) + Tagged(Misfire, t.misfire)
  }

  predicate Accepted(t: Table, questions: map<string, Question>, rule: Severity) {
    && GoodLevels(t, rule)
    && (forall i :: 0 <= i < |AllRows(t)| ==> WellNamed(AllRows(t)[i].row, questions))
    && forall i, j :: 0 <= i < j < |AllRows(t)| ==> !Clash(AllRows(t)[i], AllRows(t)[j])
  }

  predicate Clash(a: Kinded, b: Kinded) { Conflicting(a.kind, b.kind) && Overlap(a.row, b.row) }

  datatype Rejection = BadLevel | BadRow(kind: Kind) | SameAnswers(a: Kind, b: Kind)

  ghost predicate BadRowAt(all: seq<Kinded>, i: nat, questions: map<string, Question>, kind: Kind)
    requires i < |all|
  {
    all[i].kind == kind && !WellNamed(all[i].row, questions)
  }

  ghost predicate ClashAt(all: seq<Kinded>, i: nat, j: nat, a: Kind, b: Kind)
    requires i < j < |all|
  {
    all[i].kind == a && all[j].kind == b && Clash(all[i], all[j])
  }

  /** What a rejection says of the table. */
  ghost predicate Rejected(t: Table, questions: map<string, Question>, rule: Severity, r: Rejection) {
    match r
    case BadLevel => !GoodLevels(t, rule)
    case BadRow(kind) => exists i :: 0 <= i < |AllRows(t)| && BadRowAt(AllRows(t), i, questions, kind)
    case SameAnswers(a, b) => exists i, j :: 0 <= i < j < |AllRows(t)| && ClashAt(AllRows(t), i, j, a, b)
  }

  /** The nested loops of `Outcome.validate`. */
  method Validate(t: Table, questions: map<string, Question>, rule: Severity) returns (r: Option<Rejection>)
    ensures r.None? <==> Accepted(t, questions, rule)
    ensures r.Some? ==> Rejected(t, questions, rule, r.value)
  {
    hide GoodLevels, WellNamed, Overlap, AllRows, Conflicting;
    if !GoodLevels(t, rule) {
      return Some(BadLevel);
    }
    var all := AllRows(t);
    for i := 0 to |all|
      invariant forall k :: 0 <= k < i ==> WellNamed(all[k].row, questions)
      invariant forall k, l :: 0 <= k < i && k < l < |all| ==> !Clash(all[k], all[l])
    {
      if !WellNamed(all[i].row, questions) {
        assert BadRowAt(all, i, questions, all[i].kind);
        return Some(BadRow(all[i].kind));
      }
      for j := i + 1 to |all|
        invariant forall l :: i < l < j ==> !Clash(all[i], all[l])
      {
        if Conflicting(all[i].kind, all[j].kind) && Overlap(all[i].row, all[j].row) {
          assert ClashAt(all, i, j, all[i].kind, all[j].kind);
          return Some(SameAnswers(all[i].kind, all[j].kind));
        }
      }
    }
    return None;
  }

  // ----- What is accepted, from the table itself

  ghost predicate Listed(t: Table, kind: Kind, row: Row) {
    match kind
    case Confirm => row in t.confirm
    case Severe => exists level :: level in t.severity && row in t.severity[level]
    case Dismiss => row in t.dismiss
    case Misfire => row in t.misfire
  }

  /** What rows do to a finding: dismissing it as a misfire is dismissing it. */
  datatype Effect = Confirming | Lowering | Dismissing

  function EffectOf(kind: Kind): Effect {
    match kind
    case Confirm => Confirming
    case Severe => Lowering
    case Dismiss => Dismissing
    case Misfire => Dismissing
  }

  /** The rows ask the same questions, and have an answer to each in common. */
  ghost predicate ShareAnswers(a: Row, b: Row) {
    a.Keys == b.Keys && forall q :: q in a ==> exists o :: o in a[q] && o in b[q]
  }

  ghost predicate Understood(row: Row, questions: map<string, Question>) {
    && row.Keys != {} && row.Keys <= questions.Keys
    && forall q :: q in row ==> |row[q]| > 0 && forall i :: 0 <= i < |row[q]| ==> row[q][i] in questions[q].options
  }

  /** A table is accepted when its levels are below the rule's, its rows are understood, and rows with different
      effects share no answers. */
  lemma {:induction false} AcceptedIff(t: Table, questions: map<string, Question>, rule: Severity)
    ensures Accepted(t, questions, rule) <==>
      && (forall level :: level in t.severity ==> 0 < level.Rank() < rule.Rank())
      && (forall kind, row :: Listed(t, kind, row) ==> Understood(row, questions))
      && forall k, a, l, b :: Listed(t, k, a) && Listed(t, l, b) && EffectOf(k) != EffectOf(l) ==> !ShareAnswers(a, b)
  {
    hide AllRows, WellNamed, Understood, Overlap, ShareAnswers, Listed, Accepted;
    assert Accepted(t, questions, rule) ==> GoodLevels(t, rule) by { LevelsFirst(t, questions, rule); }
    if GoodLevels(t, rule) {
      ListedIff(t, rule);
      forall row: Row ensures WellNamed(row, questions) <==> Understood(row, questions) {
        UnderstoodIff(row, questions);
      }
      forall a: Row, b: Row ensures Overlap(a, b) <==> ShareAnswers(a, b) {
        OverlapShares(a, b);
      }
      AcceptedPairs(t, questions, rule);
      if Accepted(t, questions, rule) {
        forall kind, row | Listed(t, kind, row) ensures Understood(row, questions) {
          assert Kinded(kind, row) in AllRows(t);
        }
        forall k, a, l, b | Listed(t, k, a) && Listed(t, l, b) && EffectOf(k) != EffectOf(l)
          ensures !ShareAnswers(a, b) {
          assert Kinded(k, a) in AllRows(t) && Kinded(l, b) in AllRows(t);
        }
      }
    }
  }

  lemma {:induction false} LevelsFirst(t: Table, questions: map<string, Question>, rule: Severity)
    ensures Accepted(t, questions, rule) ==> GoodLevels(t, rule)
  {
  }

  lemma {:induction false} UnderstoodIff(row: Row, questions: map<string, Question>)
    ensures WellNamed(row, questions) <==> Understood(row, questions)
  {
  }

  lemma {:induction false} OverlapShares(a: Row, b: Row)
    ensures Overlap(a, b) <==> ShareAnswers(a, b)
    ensures Overlap(a, b) <==> Overlap(b, a)
  {
    OverlapSameQuestions(a, b);
    OverlapSameQuestions(b, a);
  }

  lemma {:induction false} ListedIff(t: Table, rule: Severity)
    requires GoodLevels(t, rule)
    ensures forall k: Kinded :: k in AllRows(t) <==> Listed(t, k.kind, k.row)
  {
    forall k: Kinded ensures k in AllRows(t) <==> Listed(t, k.kind, k.row) {
      TaggedIn(Confirm, t.confirm, k);
      TaggedIn(Dismiss, t.dismiss, k);
      TaggedIn(Misfire, t.misfire, k);
      var levels := LevelRows(t, Critical) + LevelRows(t, High) + LevelRows(t, Low) + LevelRows(t, Medium);
      TaggedIn(Severe, levels, k);
      assert k.row in levels <==> exists level :: level in t.severity && k.row in t.severity[level];
    }
  }

  lemma {:induction false} TaggedIn(kind: Kind, rows: seq<Row>, k: Kinded)
    ensures k in Tagged(kind, rows) <==> k.kind == kind && k.row in rows
  {
    if k.kind == kind && k.row in rows {
      var i :| 0 <= i < |rows| && rows[i] == k.row;
      assert Tagged(kind, rows)[i] == k;
    }
  }

  /** The check of ordered pairs of rows is one of all pairs. */
  lemma {:induction false} AcceptedPairs(t: Table, questions: map<string, Question>, rule: Severity)
    ensures Accepted(t, questions, rule) <==>
      && GoodLevels(t, rule)
      && (forall k: Kinded :: k in AllRows(t) ==> WellNamed(k.row, questions))
      && forall k: Kinded, l: Kinded :: k in AllRows(t) && l in AllRows(t) && EffectOf(k.kind) != EffectOf(l.kind) ==>
           !Overlap(k.row, l.row)
  {
    hide AllRows, WellNamed, Overlap;
    var all := AllRows(t);
    if Accepted(t, questions, rule) {
      forall k: Kinded, l: Kinded | k in all && l in all && EffectOf(k.kind) != EffectOf(l.kind)
        ensures !Overlap(k.row, l.row) {
        var i :| 0 <= i < |all| && all[i] == k;
        var j :| 0 <= j < |all| && all[j] == l;
        OverlapShares(k.row, l.row);
        assert !Clash(all[if i < j then i else j], all[if i < j then j else i]);
      }
    }
  }

  // ----- What the static check buys at run time

  datatype Limits = Limits(confirm: real, dismiss: real) {
    /** What the configuration accepts. */
    predicate Valid() { 0.0 < confirm <= dismiss <= 1.0 }

    function Bar(kind: Kind): real { if kind == Confirm then confirm else dismiss }
  }

  ghost predicate Simple(row: Row) {
    forall q :: q in row ==> row[q] != [] && Distinct(row[q])
  }

  /** For two conflicting rows over the same questions the check is exact: it calls them
      overlapping if and only if some replies match both. */
  lemma {:induction false} OverlapIsExact(a: Kinded, b: Kinded, limits: Limits)
    requires limits.Valid() && limits.confirm + limits.dismiss > 1.0
    requires Conflicting(a.kind, b.kind) && a.row.Keys == b.row.Keys && Simple(a.row) && Simple(b.row)
    ensures BothCanMatch(a.row, b.row, limits.Bar(a.kind), limits.Bar(b.kind)) <==> Overlap(a.row, b.row)
  {
    hide Most, BothCanMatch, Overlap, Distinct, Shares;
    var alpha, beta := limits.Bar(a.kind), limits.Bar(b.kind);
    BothCanMatchIff(a.row, b.row, alpha, beta);
    OverlapSameQuestions(a.row, b.row);
    forall q | q in a.row ensures Compatible(a.row[q], b.row[q], alpha, beta) <==> Shares(a.row[q], b.row[q]) {
      MostOfDistinct(a.row[q]);
      MostOfDistinct(b.row[q]);
    }
  }

  lemma {:induction false} MostOfDistinct(options: seq<string>)
    requires options != [] && Distinct(options)
    ensures Most(options) == 1
  {
    MostIsMost(options);
    var o :| o in options && Count(options, o) == Most(options);
    DistinctCount(options, o);
  }

  /** In an accepted table, conflicting rows over the same questions never both match, so the
      order in which they are tried does not matter. */
  lemma {:induction false} AcceptedRowsExclude(t: Table, questions: map<string, Question>, rule: Severity,
      limits: Limits, c: Combination, i: nat, j: nat)
    requires Accepted(t, questions, rule) && limits.Valid() && limits.confirm + limits.dismiss > 1.0
    requires i < |AllRows(t)| && j < |AllRows(t)| && Conflicting(AllRows(t)[i].kind, AllRows(t)[j].kind)
    requires var a, b := AllRows(t)[i].row, AllRows(t)[j].row; a.Keys == b.Keys && Simple(a) && Simple(b)
    requires Distributed(c)
    ensures !(Matches(c, AllRows(t)[i].row, limits.Bar(AllRows(t)[i].kind))
      && Matches(c, AllRows(t)[j].row, limits.Bar(AllRows(t)[j].kind)))
  {
    var a, b := AllRows(t)[i], AllRows(t)[j];
    if i < j {
      assert !Clash(a, b);
      OverlapIsExact(a, b, limits);
    } else {
      assert !Clash(b, a);
      OverlapIsExact(b, a, limits);
    }
  }

  ghost predicate Separating(limits: Limits) {
    forall a: Kinded, b: Kinded :: Separated(a, b, limits)
  }

  ghost predicate Separated(a: Kinded, b: Kinded, limits: Limits) {
    Conflicting(a.kind, b.kind) && a.row.Keys == b.row.Keys && Simple(a.row) && Simple(b.row) && !Overlap(a.row, b.row)
    ==> !BothCanMatch(a.row, b.row, limits.Bar(a.kind), limits.Bar(b.kind))
  }

  lemma {:induction false} NotSeparated(limits: Limits)
    requires limits.Valid() && limits.confirm + limits.dismiss <= 1.0
    ensures !Separating(limits)
  {
    hide Most, BothCanMatch;
    var a, b := Kinded(Confirm, map["q" := ["x"]]), Kinded(Dismiss, map["q" := ["y"]]);
    BothCanMatchIff(a.row, b.row, limits.confirm, limits.dismiss);
    MostOfDistinct(["x"]);
    MostOfDistinct(["y"]);
    assert "q" in a.row && !Shares(a.row["q"], b.row["q"]);
    assert !Separated(a, b, limits);
  }

  /** Rows that do not overlap exclude each other at run time for exactly those accepted
      thresholds that sum to more than one; the configuration does not ask for that. */
  lemma {:induction false} SeparatingIff(limits: Limits)
    requires limits.Valid()
    ensures Separating(limits) <==> limits.confirm + limits.dismiss > 1.0
  {
    if limits.confirm + limits.dismiss > 1.0 {
      forall a: Kinded, b: Kinded ensures Separated(a, b, limits) {
        if Conflicting(a.kind, b.kind) && a.row.Keys == b.row.Keys && Simple(a.row) && Simple(b.row) {
          OverlapIsExact(a, b, limits);
        }
      }
    } else {
      NotSeparated(limits);
    }
  }

  /** The check accepts a whole table with a repeated option, and then a confirm row and a dismiss
      row of it can both match the same replies. */
  lemma {:induction false} RepeatedOptionDefeatsCheck()
    ensures var a, b: Row := map["q" := ["x", "x", "x"]], map["q" := ["y"]];
            var limits := Limits(0.5, 0.8);
            && Accepted(Table([a], map[], [b], []), map["q" := Question({"x", "y"})], High)
            && limits.Valid() && limits.confirm + limits.dismiss > 1.0
            && BothCanMatch(a, b, limits.Bar(Confirm), limits.Bar(Dismiss))
  {
    var a: Row, b: Row := map["q" := ["x", "x", "x"]], map["q" := ["y"]];
    assert !Shares(a["q"], b["q"]) && "q" in a;
    RepeatedTableAccepted(a, b);
    MostOfDistinct(["y"]);
    assert ["x", "x", "x"][..2] == ["x", "x"] && ["x", "x"][..1] == ["x"];
    assert Count(["x"], "x") == 1 && Count(["x", "x"], "x") == 2 && Count(["x", "x", "x"], "x") == 3;
    assert Most(["x"]) == 1 && Most(["x", "x"]) == 2 && Most(["x", "x", "x"]) == 3;
    BothCanMatchIff(a, b, 0.5, 0.8);
  }

  lemma {:induction false} RepeatedTableAccepted(a: Row, b: Row)
    requires a == map["q" := ["x", "x", "x"]] && b == map["q" := ["y"]]
    ensures Accepted(Table([a], map[], [b], []), map["q" := Question({"x", "y"})], High)
  {
    var t, questions := Table([a], map[], [b], []), map["q" := Question({"x", "y"})];
    assert "q" in a && "q" in b && !Shares(a["q"], b["q"]);
    assert AllRows(t) == [Kinded(Confirm, a), Kinded(Dismiss, b)];
    assert WellNamed(a, questions) && WellNamed(b, questions);
  }
}
