/** What a paced request returns and when it tries again (`RoundTrip` in pkg/internal/refcheck/pace.go),
    read from the log of everything that happened. */
module Outcomes {
  import opened Options
  import opened Pacer

  // ----- What the log says of one request

  /** The ends of its attempts. */
  function Tries(log: seq<Event>, id: nat): nat {
    if log == [] then 0
    else
      var e := log[|log| - 1];
      Tries(log[..|log| - 1], id) + if e.Tried? && e.id == id then 1 else 0
  }

  /** The attempts that were given up before a request went out. */
  function GivenUp(log: seq<Event>, id: nat): nat {
    if log == [] then 0
    else
      var e := log[|log| - 1];
      GivenUp(log[..|log| - 1], id) + if e.Tried? && e.id == id && e.result.None? then 1 else 0
  }

  function LastTry(log: seq<Event>, id: nat): (r: Option<Event>)
    ensures r.Some? ==> r.value.Tried? && r.value.id == id
  {
    if log == [] then None
    else
      var e := log[|log| - 1];
      if e.Tried? && e.id == id then Some(e) else LastTry(log[..|log| - 1], id)
  }

  /** An answer that asks for fewer requests. */
  predicate AsksForLess(r: Response) {
    || r.status == 429
    || (r.status == 403 && "X-RateLimit-Remaining" in r.header && r.header["X-RateLimit-Remaining"] == "0")
    || (r.status == 403 && "Retry-After" in r.header && r.header["Retry-After"] != "")
  }

  /** An attempt that is worth another one. */
  predicate Bad(result: Option<Result>) {
    match result
    case None => true
    case Some(NetworkError) => true
    case Some(Got(r)) => AsksForLess(r) || r.status >= 500
  }

  /** The last attempt was bad, and the delay before the next one is over. */
  ghost predicate MayRetry(cfg: Config, log: seq<Event>, id: nat, at: int) {
    var n := Tries(log, id);
    n > 0 ==>
      && n <= |cfg.retries| && LastTry(log, id).Some?
      && Bad(LastTry(log, id).value.result) && LastTry(log, id).value.at + cfg.retries[n - 1] <= at
  }

  ghost predicate LastSaid(log: seq<Event>, id: nat, url: string, result: Option<Result>) {
    LastTry(log, id).Some? && LastTry(log, id).value.url == url && LastTry(log, id).value.result == result
  }

  /** What a request may return. */
  ghost predicate Justified(cfg: Config, log: seq<Event>, id: nat, r: Req, outcome: Outcome) {
    match outcome
    case Replay(response) =>
      // an answer kept for the URL, without any attempt
      Kept(r.url, response) in log && Tries(log, id) == 0
    case Fresh(response) =>
      // the last answer, which is good, or a server error after all tries; a small good one is kept
      && LastSaid(log, id, r.url, Some(Got(response))) && !AsksForLess(response)
      && (response.status >= 500 ==> Tries(log, id) == |cfg.retries| + 1)
      && ((response.status == 404 || response.status / 100 == 2) && |response.body| <= cfg.maxBody ==>
            Kept(r.url, response) in log)
    case Limited =>
      // the host is closed: it was before any attempt, or all tries were used up and the last one closed it
      && Closed(cfg.hostOf(r.url)) in log
      && (Tries(log, id) > 0 ==>
            && Tries(log, id) == |cfg.retries| + 1
            && exists response :: LastSaid(log, id, r.url, Some(Got(response))) && AsksForLess(response))
    case Failure =>
      || Unread(id) in log || r.cancelled
      || (Tries(log, id) == |cfg.retries| + 1 && LastSaid(log, id, r.url, Some(NetworkError)))
  }

  // ----- The invariant

  /** Where a request is, told by the log. */
  ghost predicate Told(cfg: Config, s: State, id: nat)
    requires id < |s.reqs|
  {
    var r := s.reqs[id];
    && Starts(s.log, id) + GivenUp(s.log, id) == Tries(s.log, id) + (if r.pc.InSlot? then 1 else 0)
    && (GivenUp(s.log, id) > 0 ==> r.cancelled)
    && (Unread(id) in s.log <==> (r.pc.Backoff? && !r.pc.discarded) || (r.pc.Done? && Unread(id) in s.log))
    && (Unread(id) in s.log && r.pc.Done? ==> r.pc.outcome == Failure)
    && ToldBy(cfg, s, id, r, r.pc)
  }

  ghost predicate ToldBy(cfg: Config, s: State, id: nat, r: Req, pc: PC) {
    match pc
    case Start => Tries(s.log, id) == 0
    case WantHost => Tries(s.log, id) == 0
    case Second => Tries(s.log, id) == 0
    case Ready(a) => Tries(s.log, id) == a && MayRetry(cfg, s.log, id, s.now)
    case Sleep(a, _) => Tries(s.log, id) == a && MayRetry(cfg, s.log, id, s.now)
    case WantSlot(a) => Tries(s.log, id) == a && MayRetry(cfg, s.log, id, s.now)
    case InSlot(a) => Tries(s.log, id) == a
    case Decided(a, result) =>
      && Tries(s.log, id) == a + 1 && a <= |cfg.retries|
      && (LastSaid(s.log, id, r.url, Some(result))
          || (LastSaid(s.log, id, r.url, None) && result == NetworkError && r.cancelled))
      && LastTry(s.log, id).value.at <= s.now
    case Backoff(a, wake, _) =>
      && Tries(s.log, id) == a + 1 && a < |cfg.retries| && LastTry(s.log, id).Some?
      && Bad(LastTry(s.log, id).value.result) && LastTry(s.log, id).value.at + cfg.retries[a] <= wake
    case Done(outcome) => Justified(cfg, s.log, id, r, outcome)
  }

  ghost predicate AllTold(cfg: Config, s: State) {
    forall id :: 0 <= id < |s.reqs| ==> Told(cfg, s, id)
  }

  /** One more event. */
  lemma {:induction false} TellSay(log: seq<Event>, e: Event, id: nat)
    ensures Tries(log + [e], id) == Tries(log, id) + (if e.Tried? && e.id == id then 1 else 0)
    ensures GivenUp(log + [e], id) == GivenUp(log, id) + (if e.Tried? && e.id == id && e.result.None? then 1 else 0)
    ensures LastTry(log + [e], id) == if e.Tried? && e.id == id then Some(e) else LastTry(log, id)
    ensures Starts(log + [e], id) == Starts(log, id) + (if e.Started? && e.id == id then 1 else 0)
    ensures forall f :: f in log + [e] <==> f in log || f == e
  {
    assert (log + [e])[..|log|] == log;
  }

  // ----- A step of one request leaves what is told of the others

  lemma {:induction false} OtherSaid(cfg: Config, log: seq<Event>, said: seq<Event>, id: nat, url: string, j: nat)
    requires j != id && forall e :: e in said ==> About(cfg, e, id, url)
    ensures Tries(log + said, j) == Tries(log, j) && GivenUp(log + said, j) == GivenUp(log, j)
    ensures LastTry(log + said, j) == LastTry(log, j) && Starts(log + said, j) == Starts(log, j)
    ensures Unread(j) in log + said <==> Unread(j) in log
    decreases |said|
  {
    hide Tries, GivenUp, LastTry, Starts;
    if said == [] {
      assert log + said == log;
    } else {
      var n := |said| - 1;
      var e := said[n];
      assert e in said && About(cfg, e, id, url);
      OtherSaid(cfg, log, said[..n], id, url, j);
      assert log + said == (log + said[..n]) + [e];
      TellSay(log + said[..n], e, j);
    }
  }

  lemma {:induction false} OtherTold(cfg: Config, s: State, t: State, id: nat, said: seq<Event>, j: nat)
    requires id < |s.reqs| && j < |s.reqs| == |t.reqs| && j != id && t.reqs[j] == s.reqs[j]
    requires t.log == s.log + said && s.now <= t.now && forall e :: e in said ==> About(cfg, e, id, s.reqs[id].url)
    requires Told(cfg, s, j)
    ensures Told(cfg, t, j)
  {
    hide Tries, GivenUp, LastTry, Starts, Bad, AsksForLess;
    OtherSaid(cfg, s.log, said, id, s.reqs[id].url, j);
  }

  /** From `s` to `t` request `id` moved and said something; the other requests and the clock did not. */
  ghost predicate Says(cfg: Config, s: State, t: State, id: nat, said: seq<Event>) {
    && id < |s.reqs| && t.now == s.now && t.log == s.log + said && |t.reqs| == |s.reqs|
      && t.reqs == s.reqs[id := t.reqs[id]]
    && forall e :: e in said ==> About(cfg, e, id, s.reqs[id].url)
  }

  lemma {:induction false} Quietly(cfg: Config, s: State, t: State, id: nat)
    requires id < |s.reqs| && t.now == s.now && t.log == s.log && |t.reqs| == |s.reqs|
      && t.reqs == s.reqs[id := t.reqs[id]]
    ensures Says(cfg, s, t, id, [])
  {
  }

  lemma {:induction false} SaysMore(cfg: Config, s: State, t: State, id: nat, said: seq<Event>, e: Event)
    requires Says(cfg, s, t, id, said) && About(cfg, e, id, s.reqs[id].url)
    ensures Says(cfg, s, t.Say(e), id, said + [e])
  {
    hide About;
  }

  lemma {:induction false} SaysOne(cfg: Config, s: State, t: State, id: nat, e: Event)
    requires id < |s.reqs| && t.now == s.now && t.log == s.log && |t.reqs| == |s.reqs|
      && t.reqs == s.reqs[id := t.reqs[id]]
    requires About(cfg, e, id, s.reqs[id].url)
    ensures Says(cfg, s, t.Say(e), id, [e])
  {
    Quietly(cfg, s, t, id);
    SaysMore(cfg, s, t, id, [], e);
    assert [] + [e] == [e];
  }

  ghost predicate NoStart(said: seq<Event>) { forall e :: e in said ==> !e.Started? }

  lemma {:induction false} EndSays(cfg: Config, s: State, id: nat, attempt: nat, result: Result)
    returns (said: seq<Event>)
    requires id < |s.reqs| && s.used > 0
    ensures Says(cfg, s, EndStep(cfg, s, id, attempt, result), id, said)
    ensures NoStart(said)
  {
    var url := s.reqs[id].url;
    said := if result.Got? then [Ended(id, url, s.now), Received(url, result.response)] else [Ended(id, url, s.now)];
  }

  lemma {:induction false} KeepSays(cfg: Config, s: State, id: nat, response: Response, read: Read)
    returns (said: seq<Event>)
    requires id < |s.reqs|
    ensures Says(cfg, s, KeepStep(cfg, s, id, response, read), id, said) && NoStart(said)
  {
    hide Says, Return;
    var url := s.reqs[id].url;
    ReturnQuiet(cfg, s, id, Fresh(response));
    ReturnQuiet(cfg, s, id, Failure);
    ReturnQuiet(cfg, s.(answers := s.answers[url := response]), id, Fresh(response));
    var t := KeepStep(cfg, s, id, response, read);
    said := t.log[|s.log|..];
    if said == [] {
      Quietly(cfg, s, t, id);
    } else {
      assert said == [Unread(id)] || said == [Kept(url, response)];
      SaysOne(cfg, s, t.(log := s.log), id, said[0]);
    }
  }

  lemma {:induction false} ReturnQuiet(cfg: Config, s: State, id: nat, outcome: Outcome)
    requires id < |s.reqs|
    ensures var t := Return(cfg, s, id, outcome);
            t.log == s.log && t.now == s.now && |t.reqs| == |s.reqs| && t.reqs == s.reqs[id := t.reqs[id]]
  {
  }

  lemma {:induction false} DecideSays(cfg: Config, s: State, id: nat, attempt: nat, result: Result, read: Read)
    returns (said: seq<Event>)
    requires id < |s.reqs| && attempt <= |cfg.retries|
    ensures Says(cfg, s, DecideStep(cfg, s, id, attempt, result, read), id, said) && NoStart(said)
  {
    hide KeepStep, RateLimited;
    if result.Got? && !RateLimited(result.response) && result.response.status < 500 {
      said := KeepSays(cfg, s, id, result.response, read);
    } else {
      said := DecideStep(cfg, s, id, attempt, result, read).log[|s.log|..];
    }
  }

  /** What an action of a request says. */
  lemma {:induction false} ActionSays(cfg: Config, s: State, a: Action) returns (said: seq<Event>)
    requires Apply(cfg, s, a).Some? && !a.Tick?
    ensures Says(cfg, s, Apply(cfg, s, a).value, a.id, said)
    ensures if a.TakeSlot? then said == [Started(a.id, s.reqs[a.id].url, s.now)] else NoStart(said)
  {
    hide DecideStep, EndStep, Says;
    var t := Apply(cfg, s, a).value;
    if a.Decide? {
      said := DecideSays(cfg, s, a.id, s.reqs[a.id].pc.attempt, s.reqs[a.id].pc.result, a.read);
    } else if a.Reply? {
      var attempt := s.reqs[a.id].pc.attempt;
      var ended := EndSays(cfg, s, a.id, attempt, a.result);
      var e := Tried(a.id, s.reqs[a.id].url, Some(a.result), s.now);
      SaysMore(cfg, s, EndStep(cfg, s, a.id, attempt, a.result), a.id, ended, e);
      said := ended + [e];
    } else {
      said := OtherSays(cfg, s, a);
    }
  }

  lemma {:induction false} OtherSays(cfg: Config, s: State, a: Action) returns (said: seq<Event>)
    requires Apply(cfg, s, a).Some? && !a.Tick? && !a.Decide? && !a.Reply?
    ensures Says(cfg, s, Apply(cfg, s, a).value, a.id, said)
    ensures if a.TakeSlot? then said == [Started(a.id, s.reqs[a.id].url, s.now)] else NoStart(said)
  {
    hide DecideStep, ReplyStep, LookStep, LookAgainStep, WaitStep, StartStep, GiveUpStep, Says;
    var id := a.id;
    if a.Look? || a.LookAgain? {
      said := LookSays(cfg, s, a);
    } else if a.BeginWait? {
      said := WaitSays(cfg, s, id, s.reqs[id].pc.attempt);
    } else if a.TakeSlot? {
      said := StartSays(cfg, s, id, s.reqs[id].pc.attempt);
    } else if a.GiveUp? && !s.reqs[id].pc.Backoff? {
      said := GiveUpSays(cfg, s, id, s.reqs[id].pc.attempt);
    } else {
      said := [];
      Quietly(cfg, s, Apply(cfg, s, a).value, id);
    }
  }

  lemma {:induction false} LookSays(cfg: Config, s: State, a: Action) returns (said: seq<Event>)
    requires Apply(cfg, s, a).Some? && (a.Look? || a.LookAgain?)
    ensures Says(cfg, s, Apply(cfg, s, a).value, a.id, said) && NoStart(said)
  {
    hide Says;
    var id, url := a.id, s.reqs[a.id].url;
    var t := Apply(cfg, s, a).value;
    if url in s.answers {
      said := [Replayed(url, s.answers[url])];
      SaysOne(cfg, s, t.(log := s.log), id, said[0]);
    } else {
      said := [];
      Quietly(cfg, s, t, id);
    }
  }

  lemma {:induction false} WaitSays(cfg: Config, s: State, id: nat, attempt: nat) returns (said: seq<Event>)
    requires id < |s.reqs|
    ensures Says(cfg, s, WaitStep(cfg, s, id, attempt), id, said) && NoStart(said)
  {
    hide Says, GiveUpStep;
    if WaitStep(cfg, s, id, attempt) == GiveUpStep(s, id, attempt) {
      said := GiveUpSays(cfg, s, id, attempt);
    } else {
      said := [];
      Quietly(cfg, s, WaitStep(cfg, s, id, attempt), id);
    }
  }

  lemma {:induction false} GiveUpSays(cfg: Config, s: State, id: nat, attempt: nat) returns (said: seq<Event>)
    requires id < |s.reqs|
    ensures Says(cfg, s, GiveUpStep(s, id, attempt), id, said) && NoStart(said)
  {
    hide Says;
    said := [Tried(id, s.reqs[id].url, None, s.now)];
    SaysOne(cfg, s, s.Goto(id, Decided(attempt, NetworkError)), id, said[0]);
  }

  lemma {:induction false} StartSays(cfg: Config, s: State, id: nat, attempt: nat) returns (said: seq<Event>)
    requires id < |s.reqs|
    ensures Says(cfg, s, StartStep(cfg, s, id, attempt), id, said) && said == [Started(id, s.reqs[id].url, s.now)]
  {
    hide Says;
    said := [Started(id, s.reqs[id].url, s.now)];
    SaysOne(cfg, s, StartStep(cfg, s, id, attempt).(log := s.log), id, said[0]);
  }

  // ----- A step tells where its request is now

  /** A step that says nothing. */
  lemma {:induction false} SilentTold(cfg: Config, s: State, t: State, id: nat)
    requires id < |s.reqs| == |t.reqs| && t.log == s.log && t.now == s.now && Told(cfg, s, id)
    requires t.reqs[id].url == s.reqs[id].url && (s.reqs[id].cancelled ==> t.reqs[id].cancelled)
    requires !s.reqs[id].pc.InSlot? && !t.reqs[id].pc.InSlot?
      && (t.reqs[id].pc.Backoff? ==> t.reqs[id].pc == s.reqs[id].pc)
    requires Unread(id) in s.log ==> t.reqs[id].pc == s.reqs[id].pc || t.reqs[id].pc == Done(Failure)
    requires ToldBy(cfg, t, id, t.reqs[id], t.reqs[id].pc)
    ensures Told(cfg, t, id)
  {
    hide Tries, GivenUp, LastTry, Starts, MayRetry, LastSaid, Justified, Bad;
  }

  lemma {:induction false} CancelTold(cfg: Config, s: State, id: nat)
    requires id < |s.reqs| && Told(cfg, s, id)
    ensures Told(cfg, s.(reqs := s.reqs[id := s.reqs[id].(cancelled := true)]), id)
  {
    hide Tries, GivenUp, LastTry, Starts, MayRetry, LastSaid, Bad;
  }

  lemma {:induction false} LookTold(cfg: Config, s: State, id: nat)
    requires Inv(cfg, s) && id < |s.reqs| && Told(cfg, s, id) && s.reqs[id].pc.Start?
    ensures Told(cfg, LookStep(cfg, s, id), id)
  {
    hide Tries, GivenUp, LastTry, Starts, MayRetry, LastSaid, Bad, Sound, Tidy, Lawful, InSlots, Inflight;
    if s.reqs[id].url in s.answers {
      TellSay(s.log, Replayed(s.reqs[id].url, s.answers[s.reqs[id].url]), id);
    }
  }

  lemma {:induction false} LookAgainTold(cfg: Config, s: State, id: nat)
    requires Inv(cfg, s) && id < |s.reqs| && Told(cfg, s, id) && s.reqs[id].pc.Second?
    ensures Told(cfg, LookAgainStep(cfg, s, id), id)
  {
    hide Tries, GivenUp, LastTry, Starts, LastSaid, Bad, Sound, Lawful, InSlots, Inflight, Active;
    assert Tidy(cfg, s, cfg.hostOf(s.reqs[id].url));
    if s.reqs[id].url in s.answers {
      TellSay(s.log, Replayed(s.reqs[id].url, s.answers[s.reqs[id].url]), id);
    }
  }

  lemma {:induction false} GiveUpTold(cfg: Config, s: State, id: nat, a: nat)
    requires id < |s.reqs| && Told(cfg, s, id) && s.reqs[id].cancelled && a <= |cfg.retries|
    requires s.reqs[id].pc in {Ready(a), WantSlot(a)} || (s.reqs[id].pc.Sleep? && s.reqs[id].pc.attempt == a)
    ensures Told(cfg, GiveUpStep(s, id, a), id)
  {
    hide Tries, GivenUp, LastTry, Starts, MayRetry, Bad;
    TellSay(s.log, Tried(id, s.reqs[id].url, None, s.now), id);
  }

  lemma {:induction false} WaitTold(cfg: Config, s: State, id: nat)
    requires Inv(cfg, s) && id < |s.reqs| && Told(cfg, s, id) && s.reqs[id].pc.Ready?
    ensures Told(cfg, WaitStep(cfg, s, id, s.reqs[id].pc.attempt), id)
  {
    hide Tries, GivenUp, LastTry, Starts, MayRetry, LastSaid, Bad, Tidy, Lawful, InSlots, Inflight, Justified;
    assert Sound(cfg, s, id);
    var a := s.reqs[id].pc.attempt;
    if WaitStep(cfg, s, id, a) == GiveUpStep(s, id, a) {
      GiveUpTold(cfg, s, id, a);
    }
  }

  lemma {:induction false} StartTold(cfg: Config, s: State, id: nat)
    requires id < |s.reqs| && Told(cfg, s, id) && s.reqs[id].pc.WantSlot?
    ensures Told(cfg, StartStep(cfg, s, id, s.reqs[id].pc.attempt), id)
  {
    hide Tries, GivenUp, LastTry, Starts, MayRetry, LastSaid, Bad, Justified;
    TellSay(s.log, Started(id, s.reqs[id].url, s.now), id);
  }

  lemma {:induction false} EndTold(cfg: Config, s: State, id: nat, result: Result)
    requires Inv(cfg, s) && id < |s.reqs| && Told(cfg, s, id) && s.reqs[id].pc.InSlot? && s.used > 0
    ensures Told(cfg, ReplyStep(cfg, s, id, s.reqs[id].pc.attempt, result), id)
  {
    hide Tries, GivenUp, LastTry, Starts, MayRetry, Bad, Tidy, Lawful, InSlots, Inflight, EndStep, Justified;
    assert Sound(cfg, s, id);
    var a := s.reqs[id].pc.attempt;
    EndKeeps(cfg, s, id, a, result);
    var ended := EndStep(cfg, s, id, a, result);
    TellSay(ended.log, Tried(id, s.reqs[id].url, Some(result), s.now), id);
  }

  /** Freeing the slot is no try. */
  lemma {:induction false} EndKeeps(cfg: Config, s: State, id: nat, a: nat, result: Result)
    requires id < |s.reqs| && s.used > 0
    ensures var t := EndStep(cfg, s, id, a, result);
            && Tries(t.log, id) == Tries(s.log, id) && GivenUp(t.log, id) == GivenUp(s.log, id)
            && Starts(t.log, id) == Starts(s.log, id) && (Unread(id) in t.log <==> Unread(id) in s.log)
            && t.now == s.now && |t.reqs| == |s.reqs| && t.reqs[id] == s.reqs[id].(pc := Decided(a, result))
  {
    hide Tries, GivenUp, LastTry, Starts;
    var url := s.reqs[id].url;
    TellSay(s.log, Ended(id, url, s.now), id);
    if result.Got? {
      TellSay(s.log + [Ended(id, url, s.now)], Received(url, result.response), id);
    }
  }

  lemma {:induction false} AsksForLessIff(r: Response)
    ensures RateLimited(r) <==> AsksForLess(r)
  {
  }

  /** A good answer ends the request, kept or not, unless its body cannot be read. */
  lemma {:induction false} KeepTold(cfg: Config, s: State, id: nat, response: Response, read: Read)
    requires id < |s.reqs| && Told(cfg, s, id) && s.reqs[id].pc.Decided? && s.reqs[id].pc.result == Got(response)
    requires !AsksForLess(response) && response.status < 500
    ensures Told(cfg, KeepStep(cfg, s, id, response, read), id)
  {
    hide Tries, GivenUp, LastTry, Starts, MayRetry, Bad, AsksForLess;
    TellSay(s.log, Unread(id), id);
    TellSay(s.log, Kept(s.reqs[id].url, response), id);
  }

  lemma {:induction false} DecideTold(cfg: Config, s: State, id: nat, read: Read)
    requires id < |s.reqs| && Told(cfg, s, id) && s.reqs[id].pc.Decided?
    requires s.reqs[id].pc.attempt <= |cfg.retries|
    ensures Told(cfg, DecideStep(cfg, s, id, s.reqs[id].pc.attempt, s.reqs[id].pc.result, read), id)
  {
    hide KeepStep, Tries, GivenUp, LastTry, Starts, MayRetry, AsksForLess, RateLimited, Told;
    var a, result := s.reqs[id].pc.attempt, s.reqs[id].pc.result;
    if result.Got? {
      AsksForLessIff(result.response);
    }
    if result.Got? && !RateLimited(result.response) && result.response.status < 500 {
      KeepTold(cfg, s, id, result.response, read);
    } else if a < |cfg.retries| {
      AgainTold(cfg, s, id, read);
    } else {
      LastTold(cfg, s, id, read);
    }
  }

  /** With tries left, a bad attempt is followed by another one after its delay. */
  lemma {:induction false} AgainTold(cfg: Config, s: State, id: nat, read: Read)
    requires id < |s.reqs| && Told(cfg, s, id) && s.reqs[id].pc.Decided? && s.reqs[id].pc.attempt < |cfg.retries|
    requires Bad(Some(s.reqs[id].pc.result))
    ensures Told(cfg, DecideStep(cfg, s, id, s.reqs[id].pc.attempt, s.reqs[id].pc.result, read), id)
  {
    hide KeepStep, Tries, GivenUp, LastTry, Starts, MayRetry, AsksForLess, RateLimited, Justified;
    if s.reqs[id].pc.result.Got? {
      AsksForLessIff(s.reqs[id].pc.result.response);
    }
    TellSay(s.log, Unread(id), id);
  }

  lemma {:induction false} LastTold(cfg: Config, s: State, id: nat, read: Read)
    requires id < |s.reqs| && Told(cfg, s, id) && s.reqs[id].pc.Decided? && s.reqs[id].pc.attempt == |cfg.retries|
    requires Bad(Some(s.reqs[id].pc.result))
    ensures Told(cfg, DecideStep(cfg, s, id, s.reqs[id].pc.attempt, s.reqs[id].pc.result, read), id)
  {
    hide KeepStep, Tries, GivenUp, LastTry, Starts, MayRetry, AsksForLess, RateLimited;
    if s.reqs[id].pc.result.Got? {
      AsksForLessIff(s.reqs[id].pc.result.response);
    }
    TellSay(s.log, Closed(cfg.hostOf(s.reqs[id].url)), id);
  }

  lemma {:induction false} RetryTold(cfg: Config, s: State, a: Action)
    requires Inv(cfg, s) && Apply(cfg, s, a).Some? && (a.Retry? || a.GiveUp?) && s.reqs[a.id].pc.Backoff?
    requires Told(cfg, s, a.id)
    ensures Told(cfg, Apply(cfg, s, a).value, a.id)
  {
    hide Tries, GivenUp, LastTry, Starts, Bad, LastSaid, Sound, Tidy, Lawful, InSlots, Inflight;
    SilentTold(cfg, s, Apply(cfg, s, a).value, a.id);
  }

  lemma {:induction false} OwnTold(cfg: Config, s: State, a: Action)
    requires Inv(cfg, s) && Apply(cfg, s, a).Some? && !a.Tick? && Told(cfg, s, a.id)
    ensures Told(cfg, Apply(cfg, s, a).value, a.id)
  {
    hide Told, Tidy, LookStep, LookAgainStep, WaitStep, StartStep, ReplyStep, DecideStep, GiveUpStep, Return;
    assert Sound(cfg, s, a.id);
    match a
    case Cancel(id) => CancelTold(cfg, s, id);
    case Look(id) => LookTold(cfg, s, id);
    case Lock(id) => MoveTold(cfg, s, a);
    case LookAgain(id) => LookAgainTold(cfg, s, id);
    case BeginWait(id) => WaitTold(cfg, s, id);
    case Wake(id) => MoveTold(cfg, s, a);
    case TakeSlot(id) => StartTold(cfg, s, id);
    case GiveUp(id) =>
      if s.reqs[id].pc.Backoff? {
        RetryTold(cfg, s, a);
      } else {
        GiveUpTold(cfg, s, id, s.reqs[id].pc.attempt);
      }
    case Reply(id, result) => EndTold(cfg, s, id, result);
    case Decide(id, read) => DecideTold(cfg, s, id, read);
    case Retry(id) => RetryTold(cfg, s, a);
  }

  lemma {:induction false} MoveTold(cfg: Config, s: State, a: Action)
    requires Apply(cfg, s, a).Some? && (a.Lock? || a.Wake?) && Told(cfg, s, a.id)
    ensures Told(cfg, Apply(cfg, s, a).value, a.id)
  {
    hide Tries, GivenUp, LastTry, Starts, MayRetry, LastSaid, Justified, Bad;
  }

  lemma {:induction false} ActionTold(cfg: Config, s: State, a: Action)
    requires Inv(cfg, s) && AllTold(cfg, s) && Apply(cfg, s, a).Some?
    ensures AllTold(cfg, Apply(cfg, s, a).value)
  {
    hide Inv, Told;
    var t := Apply(cfg, s, a).value;
    if a.Tick? {
      forall id | 0 <= id < |t.reqs| ensures Told(cfg, t, id) {
        LaterTold(cfg, s, t, id);
      }
    } else {
      hide Apply;
      var said := ActionSays(cfg, s, a);
      OwnTold(cfg, s, a);
      forall j | 0 <= j < |t.reqs| ensures Told(cfg, t, j) {
        if j != a.id {
          OtherTold(cfg, s, t, a.id, said, j);
        }
      }
    }
  }

  lemma {:induction false} LaterTold(cfg: Config, s: State, t: State, id: nat)
    requires id < |s.reqs| && t.reqs == s.reqs && t.log == s.log && s.now <= t.now && Told(cfg, s, id)
    ensures Told(cfg, t, id)
  {
    hide Tries, GivenUp, LastTry, Starts, Bad;
  }

  // ----- Every run

  /** A request is started for the first time, or again after a bad attempt and its delay while tries are left. */
  ghost predicate Orderly(cfg: Config, log: seq<Event>) {
    forall k :: 0 <= k < |log| && log[k].Started? ==> MayStart(cfg, log[..k], log[k])
  }

  ghost predicate MayStart(cfg: Config, log: seq<Event>, e: Event)
    requires e.Started?
  {
    MayRetry(cfg, log, e.id, e.at) && Tries(log, e.id) <= |cfg.retries| && Unread(e.id) !in log
  }

  lemma {:induction false} OrderlySays(cfg: Config, log: seq<Event>, said: seq<Event>)
    requires Orderly(cfg, log)
    requires (forall e :: e in said ==> !e.Started?) || (|said| == 1 && said[0].Started? && MayStart(cfg, log, said[0]))
    ensures Orderly(cfg, log + said)
  {
    hide MayStart;
    var all := log + said;
    forall k | 0 <= k < |all| && all[k].Started? ensures MayStart(cfg, all[..k], all[k]) {
      if k < |log| {
        assert all[..k] == log[..k];
      } else {
        assert all[k] == said[k - |log|] && all[k] in said;
        assert all[..k] == log;
      }
    }
  }

  lemma {:induction false} ActionOrderly(cfg: Config, s: State, a: Action)
    requires Inv(cfg, s) && AllTold(cfg, s) && Apply(cfg, s, a).Some? && Orderly(cfg, s.log)
    ensures Orderly(cfg, Apply(cfg, s, a).value.log)
  {
    hide Inv, Orderly, Told;
    if !a.Tick? {
      var said := ActionSays(cfg, s, a);
      if a.TakeSlot? {
        SlotMayStart(cfg, s, a.id);
      }
      OrderlySays(cfg, s.log, said);
    }
  }

  lemma {:induction false} SlotMayStart(cfg: Config, s: State, id: nat)
    requires Inv(cfg, s) && id < |s.reqs| && s.reqs[id].pc.WantSlot? && Told(cfg, s, id)
    ensures MayStart(cfg, s.log, Started(id, s.reqs[id].url, s.now))
  {
    hide Tries, GivenUp, LastTry, Starts, MayRetry, Tidy, Lawful, InSlots, Inflight;
    assert Sound(cfg, s, id);
  }

  lemma {:induction false} StartTolds(cfg: Config, s: State)
    requires Initial(s)
    ensures AllTold(cfg, s) && Orderly(cfg, s.log)
  {
  }

  lemma {:induction false} RunTells(cfg: Config, s: State, actions: seq<Action>)
    requires Initial(s) && Run(cfg, s, actions).Some?
    ensures AllTold(cfg, Run(cfg, s, actions).value) && Orderly(cfg, Run(cfg, s, actions).value.log)
    decreases |actions|
  {
    hide Inv, AllTold, Orderly, Apply;
    if actions == [] {
      StartTolds(cfg, s);
    } else {
      var n := |actions| - 1;
      RunTells(cfg, s, actions[..n]);
      RunInv(cfg, s, actions[..n]);
      ActionTold(cfg, Run(cfg, s, actions[..n]).value, actions[n]);
      ActionOrderly(cfg, Run(cfg, s, actions[..n]).value, actions[n]);
    }
  }

  /** Whatever the interleaving, what a finished request returns is justified by what happened. */
  lemma {:induction false} RunReturns(cfg: Config, s: State, actions: seq<Action>, id: nat)
    requires Initial(s) && Run(cfg, s, actions).Some?
    requires id < |Run(cfg, s, actions).value.reqs| && Run(cfg, s, actions).value.reqs[id].pc.Done?
    ensures var t := Run(cfg, s, actions).value; Justified(cfg, t.log, id, t.reqs[id], t.reqs[id].pc.outcome)
  {
    hide Inv, Run, Justified;
    RunTells(cfg, s, actions);
    assert Told(cfg, Run(cfg, s, actions).value, id);
  }

  /** Every attempt is the first, or comes after a bad one and its delay, while tries are left and
      everything was read. */
  lemma {:induction false} RunRetriesInOrder(cfg: Config, s: State, actions: seq<Action>)
    requires Initial(s) && Run(cfg, s, actions).Some?
    ensures Orderly(cfg, Run(cfg, s, actions).value.log)
  {
    RunTells(cfg, s, actions);
  }

  /** After a limited, failed or server-error attempt a request goes on: when it has returned, all
      tries were made, unless it was cancelled or an answer could not be read. */
  lemma {:induction false} BadMeansAllTries(cfg: Config, s: State, actions: seq<Action>, id: nat)
    requires Initial(s) && Run(cfg, s, actions).Some?
    requires id < |Run(cfg, s, actions).value.reqs| && Run(cfg, s, actions).value.reqs[id].pc.Done?
    requires var t := Run(cfg, s, actions).value;
             && !t.reqs[id].cancelled && Unread(id) !in t.log
             && LastTry(t.log, id).Some? && Bad(LastTry(t.log, id).value.result)
    ensures Starts(Run(cfg, s, actions).value.log, id) == |cfg.retries| + 1
  {
    hide Inv, Run, Starts, Tries, GivenUp, LastTry;
    RunTells(cfg, s, actions);
    var t := Run(cfg, s, actions).value;
    assert Told(cfg, t, id);
    TriedSome(t.log, id);
  }

  lemma {:induction false} TriedSome(log: seq<Event>, id: nat)
    ensures LastTry(log, id).Some? <==> Tries(log, id) > 0
  {
    if log != [] {
      TriedSome(log[..|log| - 1], id);
    }
  }
}
