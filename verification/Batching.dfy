/** Asking a decision model about many places in few requests
    (`askAll` and `askPlaces` in pkg/internal/layers/decision/places.go, `ask` in
    pkg/internal/layers/decision/ask.go).  A text is a byte string: one `char` is one byte. */
module Batching {
  // ----- Texts

  function TrimNewlines(s: string): string {
    if s != "" && s[|s| - 1] == '\n' then TrimNewlines(s[..|s| - 1]) else s
  }

  function Join(texts: seq<string>): string {
    if texts == [] then ""
    else if |texts| == 1 then texts[0]
    else Join(texts[..|texts| - 1]) + "\n\n" + texts[|texts| - 1]
  }

  /** A byte that starts a rune. */
  predicate RuneStart(b: char) { !(0x80 <= b as int % 0x100 < 0xC0) }

  /** `textutil.Cut`: at most `limit` bytes, cut back to the start of a rune. */
  method Cut(s: string, limit: nat) returns (r: string)
    ensures |r| <= limit && r <= s && (|s| <= limit ==> r == s)
    ensures |s| > limit ==>
      (|r| > 0 ==> RuneStart(s[|r|])) && forall k :: |r| < k <= limit ==> !RuneStart(s[k])
  {
    if |s| <= limit {
      return s;
    }
    var cut: nat := limit;
    while cut > 0 && !RuneStart(s[cut])
      invariant cut <= limit && forall k :: cut < k <= limit ==> !RuneStart(s[k])
    {
      cut := cut - 1;
    }
    r := s[..cut];
  }

  /** A state template puts the places between a fixed head and a fixed tail. */
  datatype Template = Template(head: string, tail: string) {
    function Render(places: string): string { head + places + tail }
    function Fixed(): nat { |head| + |tail| }
  }

  // ----- Questions

  /** A question with the length of its own instructions and options. */
  datatype Question = Question(id: string, chars: nat)

  datatype Query = Query(id: string, chars: nat)

  /** The question as it is asked about one place, which it names in its instructions. */
  function Ask(q: Question, place: string): Query {
    Query(place + "." + q.id, q.chars + |"place"| + |"place " + place|)
  }

  function Queries(questions: seq<Question>, place: string): seq<Query> {
    seq(|questions|, i requires 0 <= i < |questions| => Ask(questions[i], place))
  }

  function Chars(qs: seq<Query>): nat {
    if qs == [] then 0 else Chars(qs[..|qs| - 1]) + qs[|qs| - 1].chars
  }

  function Dots(s: string): nat {
    if s == "" then 0 else (if s[0] == '.' then 1 else 0) + Dots(s[1..])
  }

  lemma {:induction false} DotsAppend(a: string, b: string)
    ensures Dots(a + b) == Dots(a) + Dots(b)
  {
    if a == "" {
      assert a + b == b;
    } else {
      assert (a + b)[1..] == a[1..] + b;
      DotsAppend(a[1..], b);
    }
  }

  /** Reply keys of places whose identifiers have equally many dots (`P1`, `P2`, or `R1.1`,
      `R1.2`) never collide, so no place gets the reply of another. */
  lemma {:induction false} KeysDistinct(p: string, q: string, r: string, s: string)
    requires Dots(p) == Dots(r) && p + "." + q == r + "." + s
    ensures p == r && q == s
  {
    var key := p + "." + q;
    if |p| < |r| {
      assert r == key[..|r|] == p + "." + r[|p| + 1..];
      DotsAppend(p + ".", r[|p| + 1..]);
      DotsAppend(p, ".");
    } else if |r| < |p| {
      assert p == key[..|p|] == r + "." + p[|r| + 1..];
      DotsAppend(r + ".", p[|r| + 1..]);
      DotsAppend(r, ".");
    } else {
      assert p == key[..|p|] == r;
      assert q == key[|p| + 1..] == s;
    }
  }

  /** Queries about places with equally many dots have one key only when they are one question about one place. */
  lemma {:induction false} AskInjective(q: Question, p: string, r: Question, s: string)
    requires Dots(p) == Dots(s) && Ask(q, p).id == Ask(r, s).id
    ensures p == s && q.id == r.id
  {
    KeysDistinct(p, q.id, s, r.id);
  }

  ghost predicate NamesDiffer(questions: seq<Question>) {
    forall i, j :: 0 <= i < j < |questions| ==> questions[i].id != questions[j].id
  }

  ghost predicate KeysDiffer(qs: seq<Query>) {
    forall i, j :: 0 <= i < j < |qs| ==> qs[i].id != qs[j].id
  }

  /** Different places, named with equally many dots. */
  ghost predicate IdsDiffer(places: seq<Place>) {
    forall i, j :: 0 <= i < j < |places| ==> places[i].id != places[j].id && Dots(places[i].id) == Dots(places[j].id)
  }

  /** Every query of a batch is a question about one of its places. */
  lemma {:induction false} QueryOf(questions: seq<Question>, batch: seq<Place>, i: nat) returns (k: nat, b: nat)
    requires i < |BatchQueries(questions, batch)|
    ensures k < |batch| && b < |questions| && BatchQueries(questions, batch)[i] == Ask(questions[b], batch[k].id)
  {
    var n := |batch| - 1;
    var front := BatchQueries(questions, batch[..n]);
    if i < |front| {
      k, b := QueryOf(questions, batch[..n], i);
    } else {
      k, b := n, i - |front|;
    }
  }

  /** No two queries of a batch have one key, so no two places share a reply. */
  lemma {:induction false} BatchKeysDiffer(questions: seq<Question>, batch: seq<Place>)
    requires NamesDiffer(questions) && IdsDiffer(batch)
    ensures KeysDiffer(BatchQueries(questions, batch))
  {
    hide Dots, Ask;
    if batch != [] {
      var n := |batch| - 1;
      var front, last := BatchQueries(questions, batch[..n]), Queries(questions, batch[n].id);
      BatchKeysDiffer(questions, batch[..n]);
      var all := front + last;
      forall i, j | 0 <= i < j < |all| ensures all[i].id != all[j].id {
        if |front| <= j {
          if i < |front| {
            var k, b := QueryOf(questions, batch[..n], i);
            if all[i].id == all[j].id {
              AskInjective(questions[b], batch[k].id, questions[j - |front|], batch[n].id);
            }
          } else if all[i].id == all[j].id {
            AskInjective(questions[i - |front|], batch[n].id, questions[j - |front|], batch[n].id);
          }
        }
      }
    }
  }

  /** The texts in a joined text stand one after the other, two newlines apart. */
  ghost function TextAt(texts: seq<string>, k: nat): nat
    requires k < |texts|
  {
    if k == 0 then 0 else TextAt(texts, k - 1) + |texts[k - 1]| + 2
  }

  lemma {:induction false} JoinHolds(texts: seq<string>, k: nat)
    requires k < |texts|
    ensures TextAt(texts, k) + |texts[k]| <= |Join(texts)|
    ensures Join(texts)[TextAt(texts, k)..TextAt(texts, k) + |texts[k]|] == texts[k]
    ensures k > 0 ==> TextAt(texts, k) >= 2 && Join(texts)[TextAt(texts, k) - 2..TextAt(texts, k)] == "\n\n"
    ensures k == |texts| - 1 ==> TextAt(texts, k) + |texts[k]| == |Join(texts)|
  {
    var n := |texts| - 1;
    if n > 0 {
      var front := texts[..n];
      JoinHolds(front, if k < n then k else n - 1);
      FrontAt(texts, if k < n then k else n - 1);
      assert Join(texts) == Join(front) + "\n\n" + texts[n];
      if k < n {
        assert Join(texts)[..|Join(front)|] == Join(front);
      }
    }
  }

  lemma {:induction false} FrontAt(texts: seq<string>, k: nat)
    requires k < |texts| - 1
    ensures TextAt(texts[..|texts| - 1], k) == TextAt(texts, k)
  {
    if k > 0 {
      FrontAt(texts, k - 1);
    }
  }

  /** Only newlines are trimmed, and all at the end. */
  lemma {:induction false} TrimsNewlines(s: string)
    ensures TrimNewlines(s) <= s && (forall i :: |TrimNewlines(s)| <= i < |s| ==> s[i] == '\n')
    ensures TrimNewlines(s) != "" ==> TrimNewlines(s)[|TrimNewlines(s)| - 1] != '\n'
  {
    if s != "" && s[|s| - 1] == '\n' {
      TrimsNewlines(s[..|s| - 1]);
    }
  }

  // ----- Places and the sizes of a batch

  datatype Reply = Answer(choice: string) | Skipped(reason: string)

  const OVERSIZED := "the state or the request is over the configured size"
  const FAILED := "an earlier request to the decision model failed"
  const UNANSWERED := "the model gave no answer"
  const REFUSED := "the request failed"

  class Place {
    const id: string
    const text: string
    var replies: map<string, Reply>

    constructor (id: string, text: string)
      ensures this.id == id && this.text == text
    {
      this.id, this.text := id, text;
    }
  }

  function Texts(batch: seq<Place>): seq<string> {
    seq(|batch|, i requires 0 <= i < |batch| => TrimNewlines(batch[i].text))
  }

  function BatchQueries(questions: seq<Question>, batch: seq<Place>): seq<Query> {
    if batch == [] then []
    else BatchQueries(questions, batch[..|batch| - 1]) + Queries(questions, batch[|batch| - 1].id)
  }

  ghost function TextSum(batch: seq<Place>): nat {
    if batch == [] then 0 else TextSum(batch[..|batch| - 1]) + |batch[|batch| - 1].text| + 1
  }

  ghost predicate EndInNewline(places: seq<Place>) {
    forall i :: 0 <= i < |places| ==> places[i].text != "" && places[i].text[|places[i].text| - 1] == '\n'
  }

  lemma {:induction false} TrimIsShorter(s: string)
    ensures |TrimNewlines(s)| <= |s|
  {
    if s != "" && s[|s| - 1] == '\n' {
      TrimIsShorter(s[..|s| - 1]);
    }
  }

  /** The newline each text loses pays for one of the two newlines put before it. */
  lemma {:induction false} JoinedFits(batch: seq<Place>)
    requires batch != [] && EndInNewline(batch)
    ensures |Join(Texts(batch))| + 2 <= TextSum(batch)
  {
    var n := |batch| - 1;
    var last := batch[n].text;
    TrimIsShorter(last[..|last| - 1]);
    assert Texts(batch)[..n] == Texts(batch[..n]);
    if n > 0 {
      assert EndInNewline(batch[..n]);
      JoinedFits(batch[..n]);
    }
  }

  lemma {:induction false} CharsAppend(x: seq<Query>, y: seq<Query>)
    ensures Chars(x + y) == Chars(x) + Chars(y)
    decreases |y|
  {
    if y == [] {
      assert x + y == x;
    } else {
      assert (x + y)[..|x + y| - 1] == x + y[..|y| - 1];
      CharsAppend(x, y[..|y| - 1]);
    }
  }

  // ----- The run

  /** One call of `ask`: what it was given, whether a request went out and came back, and with what. */
  datatype Asked = Asked(state: string, queries: seq<Query>, sent: bool, ok: bool, answers: map<string, string>)

  /** The reply to a query: the model's answer, or why there is none. */
  function ReplyOf(a: Asked, fits: bool, id: string): Reply {
    if !fits then Skipped(OVERSIZED)
    else if !a.sent then Skipped(FAILED)
    else if !a.ok then Skipped(REFUSED)
    else if id in a.answers then Answer(a.answers[id])
    else Skipped(UNANSWERED)
  }

  class Run {
    const maxState: nat
    const maxRequest: nat
    var failed: bool
    var requests: nat
    ghost var asks: seq<Asked>

    /** The latch is set exactly when the last request that went out failed; none went out after it. */
    ghost predicate Valid()
      reads this
    {
      && (forall i :: 0 <= i < |asks| && asks[i].sent && !asks[i].ok ==> failed)
      && forall i, j :: 0 <= i < j < |asks| && asks[i].sent && !asks[i].ok ==> !asks[j].sent
    }

    constructor (maxState: nat, maxRequest: nat)
      ensures Valid() && !failed && asks == [] && this.maxState == maxState && this.maxRequest == maxRequest
    {
      this.maxState, this.maxRequest := maxState, maxRequest;
      failed, requests, asks := false, 0, [];
    }

    /** Neither cut nor refused for its size. */
    predicate Fits(state: string, qs: seq<Query>) {
      |state| <= maxState && |state| + Chars(qs) <= maxRequest
    }

    /** The model is free to fail, and to leave questions out of its answers. */
    method AskModel(state: string, qs: seq<Query>) returns (replies: map<string, Reply>)
      requires Valid()
      modifies this
      ensures Valid() && forall i :: 0 <= i < |qs| ==> qs[i].id in replies
      ensures |asks| == |old(asks)| + 1 && asks[..|old(asks)|] == old(asks)
      ensures var a := asks[|old(asks)|];
              && a.queries == qs && a.state <= state
              && (a.sent ==> !old(failed))
              && (Fits(state, qs) ==> a.state == state && a.sent == !old(failed))
              && requests == old(requests) + (if a.sent then 1 else 0)
              && failed == (old(failed) || (a.sent && !a.ok))
              && replies.Keys == Ids(qs)
              && forall id :: id in replies ==> replies[id] == ReplyOf(a, |a.state| + Chars(qs) <= maxRequest, id)
    {
      var shown := Cut(state, maxState);
      var size := |shown| + Chars(qs);
      if size > maxRequest {
        asks := asks + [Asked(shown, qs, false, false, map[])];
        return SkipAll(qs, OVERSIZED);
      }
      if failed {
        asks := asks + [Asked(shown, qs, false, false, map[])];
        return SkipAll(qs, FAILED);
      }
      var ok: bool := *;
      var answers: map<string, string> := *;
      requests := requests + 1;
      asks := asks + [Asked(shown, qs, true, ok, answers)];
      if !ok {
        failed := true;
        return SkipAll(qs, REFUSED);
      }
      replies := map[];
      ghost var a := asks[|asks| - 1];
      assert qs[..0] == [];
      for i := 0 to |qs|
        invariant replies.Keys == Ids(qs[..i])
        invariant forall id :: id in replies ==> replies[id] == ReplyOf(a, true, id)
        modifies {}
      {
        IdsNext(qs, i);
        var reply := if qs[i].id in answers then Answer(answers[qs[i].id]) else Skipped(UNANSWERED);
        replies := replies[qs[i].id := reply];
      }
      assert qs[..|qs|] == qs;
    }

    function SkipAll(qs: seq<Query>, reason: string): (replies: map<string, Reply>)
      ensures replies.Keys == Ids(qs) && forall id :: id in replies ==> replies[id] == Skipped(reason)
      ensures forall i :: 0 <= i < |qs| ==> qs[i].id in replies
    {
      map id | id in Ids(qs) :: Skipped(reason)
    }

    function Ids(qs: seq<Query>): (ids: set<string>)
      ensures forall i :: 0 <= i < |qs| ==> qs[i].id in ids
    {
      set i | 0 <= i < |qs| :: qs[i].id
    }

    lemma {:induction false} IdsNext(qs: seq<Query>, i: nat)
      requires i < |qs|
      ensures Ids(qs[..i + 1]) == Ids(qs[..i]) + {qs[i].id} && Ids(qs[..0]) == {}
    {
      forall id ensures id in Ids(qs[..i + 1]) <==> id in Ids(qs[..i]) + {qs[i].id} {
        if k :| 0 <= k < i && qs[k].id == id {
          assert qs[..i][k].id == id && qs[..i + 1][k].id == id;
        }
        assert qs[..i + 1][i] == qs[i];
        if id in Ids(qs[..i + 1]) {
          var k :| 0 <= k < i + 1 && qs[..i + 1][k].id == id;
          assert qs[k].id == id;
        }
      }
    }

    /** What one batch puts into one request. */
    ghost function Request(t: Template, questions: seq<Question>, batch: seq<Place>): (string, seq<Query>) {
      (t.Render(Join(Texts(batch))), BatchQueries(questions, batch))
    }

    /** The place holds, for every question, the reply given under its own key. */
    ghost predicate Answered(questions: seq<Question>, p: Place, replies: map<string, Reply>)
      reads p
    {
      forall q :: q in questions ==> && Ask(q, p.id).id in replies && q.id in p.replies
                                     && p.replies[q.id] == replies[Ask(q, p.id).id]
    }

    method AskPlaces(t: Template, questions: seq<Question>, batch: seq<Place>) returns (replies: map<string, Reply>)
      requires Valid()
      modifies this, batch
      ensures Valid() && |asks| == |old(asks)| + 1 && asks[..|old(asks)|] == old(asks)
      ensures var (state, qs) := Request(t, questions, batch);
              var a := asks[|old(asks)|];
              && a.queries == qs && a.state <= state && (a.sent ==> !old(failed))
              && (Fits(state, qs) ==> a.state == state && a.sent == !old(failed))
              && requests == old(requests) + (if a.sent then 1 else 0)
              && failed == (old(failed) || (a.sent && !a.ok))
      ensures forall p :: p in batch ==> Answered(questions, p, replies) && Own(questions, p, asks[|old(asks)|])
    {
      hide BatchQueries, Texts, Answered, Queries;
      var texts, qs := Gather(questions, batch);
      replies := AskModel(t.Render(Join(texts)), qs);
      Spread(questions, batch, replies);
      forall p | p in batch ensures Own(questions, p, asks[|old(asks)|]) {
        AnsweredOwn(questions, p, replies, asks[|old(asks)|]);
      }
    }

    /** What the place holds for every question is the reply of this request to its own key. */
    ghost predicate Own(questions: seq<Question>, p: Place, a: Asked)
      reads p
    {
      forall q :: q in questions ==>
        q.id in p.replies && p.replies[q.id] == ReplyOf(a, |a.state| + Chars(a.queries) <= maxRequest, Ask(q, p.id).id)
    }

    lemma {:induction false} AnsweredOwn(questions: seq<Question>, p: Place, replies: map<string, Reply>, a: Asked)
      requires Answered(questions, p, replies)
      requires forall id :: id in replies ==> replies[id] == ReplyOf(a, |a.state| + Chars(a.queries) <= maxRequest, id)
      ensures Own(questions, p, a)
    {
      hide ReplyOf, Chars;
    }

    method Gather(questions: seq<Question>, batch: seq<Place>) returns (texts: seq<string>, qs: seq<Query>)
      ensures texts == Texts(batch) && qs == BatchQueries(questions, batch)
    {
      texts, qs := [], [];
      for i := 0 to |batch|
        invariant texts == Texts(batch[..i]) && qs == BatchQueries(questions, batch[..i])
      {
        assert batch[..i + 1][..i] == batch[..i];
        texts := texts + [TrimNewlines(batch[i].text)];
        qs := qs + Queries(questions, batch[i].id);
      }
      assert batch[..|batch|] == batch;
    }

    method Spread(questions: seq<Question>, batch: seq<Place>, replies: map<string, Reply>)
      requires forall i :: 0 <= i < |BatchQueries(questions, batch)| ==> BatchQueries(questions, batch)[i].id in replies
      modifies batch
      ensures forall p :: p in batch ==> Answered(questions, p, replies)
    {
      for i := 0 to |batch|
        modifies batch
        invariant forall k :: 0 <= k < i ==> Answered(questions, batch[k], replies)
      {
        QueriesOf(questions, batch, i);
        var own := Pick(questions, batch[i].id, replies);
        batch[i].replies := own;
      }
    }

    method Pick(questions: seq<Question>, place: string, replies: map<string, Reply>) returns (own: map<string, Reply>)
      requires forall q :: q in questions ==> Ask(q, place).id in replies
      ensures forall q :: q in questions ==> q.id in own && own[q.id] == replies[Ask(q, place).id]
    {
      own := map[];
      for i := 0 to |questions|
        invariant forall k :: 0 <= k < i ==>
          questions[k].id in own && own[questions[k].id] == replies[Ask(questions[k], place).id]
      {
        own := own[questions[i].id := replies[Ask(questions[i], place).id]];
      }
    }

    lemma {:induction false} QueriesOf(questions: seq<Question>, batch: seq<Place>, i: nat)
      requires i < |batch|
      ensures forall q :: q in questions ==> Ask(q, batch[i].id) in BatchQueries(questions, batch)
    {
      var n := |batch| - 1;
      if i < n {
        QueriesOf(questions, batch[..n], i);
      } else {
        forall q | q in questions ensures Ask(q, batch[i].id) in Queries(questions, batch[n].id) {
          var k :| 0 <= k < |questions| && questions[k] == q;
          assert Queries(questions, batch[n].id)[k] == Ask(q, batch[i].id);
        }
      }
    }

    ghost function Concat(batches: seq<seq<Place>>): seq<Place> {
      if batches == [] then [] else Concat(batches[..|batches| - 1]) + batches[|batches| - 1]
    }

    /** What a batch in the making may hold: one place of any size, or several within the limits. */
    ghost predicate Room(t: Template, questions: seq<Question>, batch: seq<Place>) {
      |batch| >= 2 ==>
        && t.Fixed() + TextSum(batch) <= maxState + 1
        && t.Fixed() + TextSum(batch) + Chars(BatchQueries(questions, batch)) <= maxRequest + 1
    }

    lemma {:induction false} RoomFits(t: Template, questions: seq<Question>, batch: seq<Place>)
      requires Room(t, questions, batch) && |batch| >= 2 && EndInNewline(batch)
      ensures var (state, qs) := Request(t, questions, batch); Fits(state, qs)
    {
      JoinedFits(batch);
    }

    /** The log entry of a batch: its own questions, in one call, whole when it has two or more places. */
    ghost predicate AskedAs(t: Template, questions: seq<Question>, batch: seq<Place>, a: Asked) {
      var (state, qs) := Request(t, questions, batch);
      && batch != [] && a.queries == qs && a.state <= state
      && (|batch| >= 2 ==> Fits(state, qs) && a.state == state)
    }

    ghost predicate AllAskedAs(t: Template, questions: seq<Question>, batches: seq<seq<Place>>, log: seq<Asked>) {
      |batches| == |log| && forall i :: 0 <= i < |batches| ==> AskedAs(t, questions, batches[i], log[i])
    }

    ghost predicate LargeSent(batches: seq<seq<Place>>, log: seq<Asked>) {
      |batches| == |log| && forall i :: 0 <= i < |batches| && |batches[i]| >= 2 ==> log[i].sent
    }

    /** The place has a reply, or a reason for having none, to every question. */
    ghost predicate Complete(questions: seq<Question>, places: seq<Place>)
      reads places
    {
      forall p, q :: p in places && q in questions ==> q.id in p.replies
    }

    ghost predicate Distinct(places: seq<Place>) {
      forall i, j :: 0 <= i < j < |places| ==> places[i] != places[j]
    }

    /** The places of each batch hold the replies of its own request. */
    ghost predicate AllOwn(questions: seq<Question>, batches: seq<seq<Place>>, log: seq<Asked>)
      reads set i, p | 0 <= i < |batches| && p in batches[i] :: p
    {
      |batches| == |log| && forall i, p :: 0 <= i < |batches| && p in batches[i] ==> Own(questions, p, log[i])
    }

    /** One batch after the ones asked before. */
    method AskBatch(t: Template, questions: seq<Question>, batch: seq<Place>, ghost before: seq<Place>,
                    ghost batches: seq<seq<Place>>, ghost log: seq<Asked>) returns (ghost a: Asked)
      requires Valid() && batch != [] && Room(t, questions, batch) && EndInNewline(batch)
      requires Complete(questions, before) && before == Concat(batches)
      modifies this, batch
      ensures Valid() && asks == old(asks) + [a] && AskedAs(t, questions, batch, a)
      ensures |batch| >= 2 ==> a.sent == !old(failed)
      ensures old(failed) ==> failed && requests == old(requests)
      ensures Complete(questions, before + batch)
      ensures old(AllOwn(questions, batches, log)) && Distinct(before + batch) ==>
                AllOwn(questions, batches + [batch], log + [a])
    {
      hide Own, Distinct, ReplyOf, Concat, BatchQueries, Texts, Chars, Fits, Answered;
      if |batch| >= 2 {
        RoomFits(t, questions, batch);
      }
      var replies := AskPlaces(t, questions, batch);
      a := asks[|asks| - 1];
      forall p, q | p in before + batch && q in questions ensures q.id in p.replies {
        if p in batch {
          OwnReplies(questions, p, a, q);
        }
      }
      if old(AllOwn(questions, batches, log)) && Distinct(before + batch) {
        assert |batches| == |log|;
        forall i, p | 0 <= i < |batches| && p in batches[i] ensures Own(questions, p, log[i]) {
          Apart(batches, batch, i, p);
          assert old(Own(questions, p, log[i]));
        }
        AddOwn(questions, batches, log, batch, a);
      }
    }

    lemma {:induction false} Grow(t: Template, questions: seq<Question>, batch: seq<Place>, p: Place)
      requires Room(t, questions, batch) && EndInNewline(batch) && EndInNewline([p])
      requires batch == [] || MayJoin(t, questions, batch, p)
      ensures Room(t, questions, batch + [p]) && EndInNewline(batch + [p])
    {
      GrowSums(questions, batch, p);
    }

    /** What the loop tests before it adds a place to a batch. */
    ghost predicate MayJoin(t: Template, questions: seq<Question>, batch: seq<Place>, p: Place) {
      && t.Fixed() + TextSum(batch) + |p.text| <= maxState
      && t.Fixed() + TextSum(batch) + Chars(BatchQueries(questions, batch)) + |p.text| + Chars(Queries(questions, p.id))
        <= maxRequest
    }

    /** A batch in the making, with the sizes the loop keeps of it. */
    ghost predicate Making(t: Template, questions: seq<Question>, batch: seq<Place>, text: int, total: int) {
      && Room(t, questions, batch) && EndInNewline(batch)
      && text == t.Fixed() + TextSum(batch) && total == text + Chars(BatchQueries(questions, batch))
    }

    lemma {:induction false} MakingFacts(t: Template, questions: seq<Question>, batch: seq<Place>, text: int,
        total: int)
      requires Making(t, questions, batch, text, total)
      ensures Room(t, questions, batch) && EndInNewline(batch)
    {
    }

    lemma {:induction false} MakingNext(t: Template, questions: seq<Question>, batch: seq<Place>, text: int, total: int,
        p: Place)
      requires Making(t, questions, batch, text, total) && EndInNewline([p])
      requires var cost := Chars(Queries(questions, p.id));
               batch == [] || (text + |p.text| <= maxState && total + |p.text| + cost <= maxRequest)
      ensures Making(t, questions, batch + [p], text + |p.text| + 1,
        total + |p.text| + 1 + Chars(Queries(questions, p.id)))
    {
      hide Room, EndInNewline, TextSum, Chars, BatchQueries, Queries;
      Grow(t, questions, batch, p);
      GrowSums(questions, batch, p);
    }

    lemma {:induction false} GrowSums(questions: seq<Question>, batch: seq<Place>, p: Place)
      ensures TextSum(batch + [p]) == TextSum(batch) + |p.text| + 1
      ensures Chars(BatchQueries(questions, batch + [p]))
        == Chars(BatchQueries(questions, batch)) + Chars(Queries(questions, p.id))
    {
      assert (batch + [p])[..|batch|] == batch;
      CharsAppend(BatchQueries(questions, batch), Queries(questions, p.id));
    }

    /** The places are asked in consecutive batches, each place in exactly one of them; a batch of
        two or more is neither cut nor refused for its size, whatever the sizes of the places. */
    method AskAll(t: Template, questions: seq<Question>, places: seq<Place>)
      returns (ghost batches: seq<seq<Place>>, ghost log: seq<Asked>)
      requires Valid() && EndInNewline(places)
      modifies this, places
      ensures Valid() && Concat(batches) == places
      ensures asks == old(asks) + log && AllAskedAs(t, questions, batches, log)
      ensures !failed ==> LargeSent(batches, log)
      ensures old(failed) ==> requests == old(requests)
      ensures Complete(questions, places)
      ensures Distinct(places) ==> AllOwn(questions, batches, log)
      ensures NamesDiffer(questions) && IdsDiffer(places) ==>
        forall i :: 0 <= i < |log| ==> KeysDiffer(log[i].queries)
    {
      hide AskedAs, AllAskedAs, Concat, EndInNewline, Complete, Queries, TextSum, Chars, BatchQueries, Room, Valid;
      hide Distinct, AllOwn, Own, NamesDiffer, IdsDiffer, KeysDiffer, Making;
      batches, log := [], [];
      var fixed := t.Fixed();
      var batch: seq<Place> := [];
      var text, total := fixed, fixed;
      NothingYet(t, questions);
      for k := 0 to |places|
        invariant Valid() && Concat(batches) + batch == places[..k] && (k > 0 ==> batch != [])
        invariant asks == old(asks) + log && AllAskedAs(t, questions, batches, log)
        invariant Making(t, questions, batch, text, total)
        invariant !failed ==> LargeSent(batches, log)
        invariant old(failed) ==> failed && requests == old(requests)
        invariant Complete(questions, Concat(batches))
        invariant Distinct(places) ==> AllOwn(questions, batches, log)
      {
        var p := places[k];
        var cost := Chars(Queries(questions, p.id));
        var over := text + |p.text| > maxState || total + |p.text| + cost > maxRequest;
        if over && |batch| > 0 {
          MakingFacts(t, questions, batch, text, total);
          Within(Concat(batches), batch, places);
          DistinctPart(places, k, Concat(batches) + batch);
          ghost var a := AskBatch(t, questions, batch, Concat(batches), batches, log);
          Flushed(t, questions, batches, log, batch, a, old(asks));
          batches, log := batches + [batch], log + [a];
          batch, text, total := [], fixed, fixed;
          NothingYet(t, questions);
        }
        EndsAt(places, k);
        MakingNext(t, questions, batch, text, total, p);
        batch := batch + [p];
        text := text + |p.text| + 1;
        total := total + |p.text| + 1 + cost;
      }
      if |batch| > 0 {
        MakingFacts(t, questions, batch, text, total);
        Within(Concat(batches), batch, places);
        DistinctPart(places, |places|, Concat(batches) + batch);
        ghost var a := AskBatch(t, questions, batch, Concat(batches), batches, log);
        Flushed(t, questions, batches, log, batch, a, old(asks));
        batches, log := batches + [batch], log + [a];
      }
      assert Concat(batches) == places;
      if NamesDiffer(questions) && IdsDiffer(places) {
        LogKeysDiffer(t, questions, batches, log);
      }
    }

    lemma {:induction false} OwnReplies(questions: seq<Question>, p: Place, a: Asked, q: Question)
      requires Own(questions, p, a) && q in questions
      ensures q.id in p.replies
    {
    }

    lemma {:induction false} AddOwn(questions: seq<Question>, batches: seq<seq<Place>>, log: seq<Asked>,
        batch: seq<Place>, a: Asked)
      requires |batches| == |log| && forall i, p :: 0 <= i < |batches| && p in batches[i] ==> Own(questions, p, log[i])
      requires forall p :: p in batch ==> Own(questions, p, a)
      ensures AllOwn(questions, batches + [batch], log + [a])
    {
      hide Own;
      var all, whole := batches + [batch], log + [a];
      forall i, p | 0 <= i < |all| && p in all[i] ensures Own(questions, p, whole[i]) {
      }
    }

    lemma {:induction false} DistinctPart(places: seq<Place>, k: nat, part: seq<Place>)
      requires k <= |places| && part == places[..k]
      ensures Distinct(places) ==> Distinct(part)
    {
    }

    lemma {:induction false} Apart(batches: seq<seq<Place>>, batch: seq<Place>, i: nat, p: Place)
      requires Distinct(Concat(batches) + batch) && i < |batches| && p in batches[i]
      ensures p !in batch
    {
      InConcat(batches, i, p);
      var all := Concat(batches) + batch;
      var k :| 0 <= k < |Concat(batches)| && Concat(batches)[k] == p;
      forall j | 0 <= j < |batch| ensures batch[j] != p {
        assert all[k] != all[|Concat(batches)| + j];
      }
    }

    lemma {:induction false} InConcat(batches: seq<seq<Place>>, i: nat, p: Place)
      requires i < |batches| && p in batches[i]
      ensures p in Concat(batches)
    {
      if i < |batches| - 1 {
        InConcat(batches[..|batches| - 1], i, p);
      }
    }

    lemma {:induction false} LogKeysDiffer(t: Template, questions: seq<Question>, batches: seq<seq<Place>>,
        log: seq<Asked>)
      requires NamesDiffer(questions) && IdsDiffer(Concat(batches)) && AllAskedAs(t, questions, batches, log)
      ensures forall i :: 0 <= i < |log| ==> KeysDiffer(log[i].queries)
    {
      hide NamesDiffer, IdsDiffer, KeysDiffer, Concat, BatchQueries;
      forall i | 0 <= i < |log| ensures KeysDiffer(log[i].queries) {
        BatchIdsDiffer(batches, i);
        BatchKeysDiffer(questions, batches[i]);
        assert AskedAs(t, questions, batches[i], log[i]);
      }
    }

    lemma {:induction false} BatchIdsDiffer(batches: seq<seq<Place>>, i: nat)
      requires i < |batches| && IdsDiffer(Concat(batches))
      ensures IdsDiffer(batches[i])
    {
      hide Dots;
      var n := |batches| - 1;
      var front := Concat(batches[..n]);
      assert Concat(batches) == front + batches[n];
      if i < n {
        assert IdsDiffer(front) by { PartDiffers(front, batches[n]); }
        BatchIdsDiffer(batches[..n], i);
      } else {
        PartDiffers(front, batches[n]);
      }
    }

    lemma {:induction false} PartDiffers(a: seq<Place>, b: seq<Place>)
      requires IdsDiffer(a + b)
      ensures IdsDiffer(a) && IdsDiffer(b)
    {
      hide Dots;
      var all := a + b;
      assert forall i :: 0 <= i < |a| ==> a[i] == all[i];
      assert forall i :: 0 <= i < |b| ==> b[i] == all[|a| + i];
    }

    lemma {:induction false} EndsAt(places: seq<Place>, k: nat)
      requires EndInNewline(places) && k < |places|
      ensures EndInNewline([places[k]])
    {}

    lemma {:induction false} Within(before: seq<Place>, batch: seq<Place>, places: seq<Place>)
      requires before + batch <= places
      ensures forall i :: 0 <= i < |batch| ==> batch[i] in places
    {
      assert forall i :: 0 <= i < |batch| ==> places[|before| + i] == batch[i];
    }

    lemma {:induction false} Flushed(t: Template, questions: seq<Question>, batches: seq<seq<Place>>, log: seq<Asked>,
        batch: seq<Place>, a: Asked, before: seq<Asked>)
      requires AllAskedAs(t, questions, batches, log) && AskedAs(t, questions, batch, a)
      ensures AllAskedAs(t, questions, batches + [batch], log + [a])
        && Concat(batches + [batch]) == Concat(batches) + batch
      ensures before + log + [a] == before + (log + [a])
    {
      assert (batches + [batch])[..|batches|] == batches;
    }

    lemma {:induction false} NothingYet(t: Template, questions: seq<Question>)
      ensures AllAskedAs(t, questions, [], []) && Concat([]) == [] && EndInNewline([])
      ensures Room(t, questions, []) && TextSum([]) == 0 && Chars(BatchQueries(questions, [])) == 0
        && Complete(questions, [])
      ensures AllOwn(questions, [], []) && Making(t, questions, [], t.Fixed(), t.Fixed())
    {}
  }
}
