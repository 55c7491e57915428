/** Paced requests (pkg/internal/refcheck/pace.go) and the replay of kept answers
    (pkg/internal/refcheck/replay.go), as a protocol over all interleavings.

    A request is a program counter; one action is one step of one request, the passing of time
    or a cancellation.  Network results, read errors and scheduling are left to the actions. */
module Pacer {
  import opened Options
  import opened Texts

  // ----- Requests, hosts and responses

  datatype Response = Response(status: nat, header: map<string, string>, body: seq<Byte>)

  function Field(r: Response, name: string): string { if name in r.header then r.header[name] else "" }

  predicate RateLimited(r: Response) {
    r.status == 429 || (r.status == 403 && (Field(r, "X-RateLimit-Remaining") == "0" || Field(r, "Retry-After") != ""))
  }

  /** `hostOf` reads the host of a URL; `None` is the zero time of a host that was never asked. */
  datatype Config = Config(delay: nat, retries: seq<nat>, slots: nat, maxBody: nat, hostOf: string -> string) {
    predicate Valid() { slots >= 1 }
  }

  datatype Host = Host(holder: Option<nat>, ready: Option<int>, closed: bool)

  datatype Result = Got(response: Response) | NetworkError

  datatype Outcome = Replay(response: Response) | Fresh(response: Response) | Limited | Failure

  datatype PC =
    | Start
    | WantHost
    | Second
    | Ready(attempt: nat)
    | Sleep(attempt: nat, until: int)
    | WantSlot(attempt: nat)
    | InSlot(attempt: nat)
    | Decided(attempt: nat, result: Result)
    | Backoff(attempt: nat, wake: int, discarded: bool)
    | Done(outcome: Outcome)
  {
    /** Between locking the host and returning. */
    predicate Holds() { !Start? && !WantHost? && !Done? }

    /** Past the second look at the kept answers and at the closed mark. */
    predicate Attempting() { Holds() && !Second? }
  }

  datatype Req = Req(url: string, pc: PC, cancelled: bool, starts: nat)

  datatype Event =
    | Started(id: nat, url: string, at: int)
    | Ended(id: nat, url: string, at: int)
    | Received(url: string, response: Response)
    | Kept(url: string, response: Response)
    | Replayed(url: string, response: Response)
    | Closed(host: string)
    /** The end of one attempt of a request: what the network said, or nothing when it was given up before. */
    | Tried(id: nat, url: string, result: Option<Result>, at: int)
    /** The body of a response could not be read or closed. */
    | Unread(id: nat)

  datatype State = State(now: int, reqs: seq<Req>, hosts: map<string, Host>, used: nat, answers: map<string, Response>,
    log: seq<Event>) {
    function At(host: string): Host { if host in hosts then hosts[host] else Host(None, None, false) }

    function Goto(id: nat, pc: PC): State
      requires id < |reqs|
    {
      this.(reqs := reqs[id := reqs[id].(pc := pc)])
    }

    function Put(host: string, h: Host): State { this.(hosts := hosts[host := h]) }

    function Say(e: Event): State { this.(log := log + [e]) }
  }

  // ----- Steps

  datatype Read = ReadOk | ReadFails | CloseFails

  datatype Action =
    | Tick(to: int)
    | Cancel(id: nat)
    | Look(id: nat)
    | Lock(id: nat)
    | LookAgain(id: nat)
    | BeginWait(id: nat)
    | Wake(id: nat)
    | TakeSlot(id: nat)
    | GiveUp(id: nat)
    | Reply(id: nat, result: Result)
    | Decide(id: nat, read: Read)
    | Retry(id: nat)

  /** The host lock is released when the request returns. */
  function Return(cfg: Config, s: State, id: nat, outcome: Outcome): State
    requires id < |s.reqs|
  {
    var host := cfg.hostOf(s.reqs[id].url);
    s.Put(host, s.At(host).(holder := None)).Goto(id, Done(outcome))
  }

  function LookStep(cfg: Config, s: State, id: nat): State
    requires id < |s.reqs|
  {
    var url := s.reqs[id].url;
    if url in s.answers then s.Goto(id, Done(Replay(s.answers[url]))).Say(Replayed(url, s.answers[url]))
      else s.Goto(id, WantHost)
  }

  function LookAgainStep(cfg: Config, s: State, id: nat): State
    requires id < |s.reqs|
  {
    var url := s.reqs[id].url;
    if url in s.answers then Return(cfg, s, id, Replay(s.answers[url])).Say(Replayed(url, s.answers[url]))
    else if s.At(cfg.hostOf(url)).closed then Return(cfg, s, id, Limited)
    else s.Goto(id, Ready(0))
  }

  /** An attempt that ends before it has a slot. */
  function GiveUpStep(s: State, id: nat, attempt: nat): State
    requires id < |s.reqs|
  {
    s.Goto(id, Decided(attempt, NetworkError)).Say(Tried(id, s.reqs[id].url, None, s.now))
  }

  /** `wait`: a past deadline only looks at the context, a future one sleeps. */
  function WaitStep(cfg: Config, s: State, id: nat, attempt: nat): State
    requires id < |s.reqs|
  {
    var ready := s.At(cfg.hostOf(s.reqs[id].url)).ready;
    if ready.Some? && ready.value > s.now then s.Goto(id, Sleep(attempt, ready.value))
    else if s.reqs[id].cancelled then GiveUpStep(s, id, attempt)
    else s.Goto(id, WantSlot(attempt))
  }

  function StartStep(cfg: Config, s: State, id: nat, attempt: nat): State
    requires id < |s.reqs|
  {
    var r := s.reqs[id];
    s.(used := s.used + 1,
      reqs := s.reqs[id := r.(pc := InSlot(attempt), starts := r.starts + 1)]).Say(Started(id, r.url, s.now))
  }

  /** The deferred steps of an attempt: the host is ready again after the delay, the slot is free. */
  function EndStep(cfg: Config, s: State, id: nat, attempt: nat, result: Result): State
    requires id < |s.reqs| && s.used > 0
  {
    var url := s.reqs[id].url;
    var host := cfg.hostOf(url);
    var ended := s.(used := s.used - 1).Put(host, s.At(host).(ready := Some(s.now + cfg.delay)))
      .Goto(id, Decided(attempt, result)).Say(Ended(id, url, s.now));
    if result.Got? then ended.Say(Received(url, result.response)) else ended
  }

  function ReplyStep(cfg: Config, s: State, id: nat, attempt: nat, result: Result): State
    requires id < |s.reqs| && s.used > 0
  {
    EndStep(cfg, s, id, attempt, result).Say(Tried(id, s.reqs[id].url, Some(result), s.now))
  }

  /** A request whose answer could not be read returns without it. */
  function FailStep(cfg: Config, s: State, id: nat): State
    requires id < |s.reqs|
  {
    Return(cfg, s, id, Failure).Say(Unread(id))
  }

  function KeepStep(cfg: Config, s: State, id: nat, response: Response, read: Read): State
    requires id < |s.reqs|
  {
    var url := s.reqs[id].url;
    if response.status / 100 != 2 && response.status != 404 then Return(cfg, s, id, Fresh(response))
    else if read == ReadFails then FailStep(cfg, s, id)
    else if |response.body| > cfg.maxBody then Return(cfg, s, id, Fresh(response))
    else if read == CloseFails then FailStep(cfg, s, id)
    else Return(cfg, s.(answers := s.answers[url := response]), id, Fresh(response)).Say(Kept(url, response))
  }

  function DecideStep(cfg: Config, s: State, id: nat, attempt: nat, result: Result, read: Read): State
    requires id < |s.reqs| && attempt <= |cfg.retries|
  {
    var host := cfg.hostOf(s.reqs[id].url);
    var limited := result.Got? && RateLimited(result.response);
    if result.Got? && !limited && result.response.status < 500 then KeepStep(cfg, s, id, result.response, read)
    else if attempt == |cfg.retries| then
      if limited then Return(cfg, s.Put(host, s.At(host).(closed := true)), id, Limited).Say(Closed(host))
      else if result.Got? then Return(cfg, s, id, Fresh(result.response))
      else Return(cfg, s, id, Failure)
    else
      var waits := s.Goto(id, Backoff(attempt, s.now + cfg.retries[attempt], result.NetworkError? || read == ReadOk));
      if result.NetworkError? || read == ReadOk then waits else waits.Say(Unread(id))
  }

  /** Whether `wait` may come back without an error: an empty wait looks at the context instead of a timer. */
  predicate WaitPasses(cfg: Config, s: State, id: nat, pc: PC)
    requires id < |s.reqs| && pc.Backoff?
  {
    s.now >= pc.wake && pc.attempt < |cfg.retries| && (cfg.retries[pc.attempt] > 0 || !s.reqs[id].cancelled)
  }

  /** One action, or nothing when it is not enabled. */
  function Apply(cfg: Config, s: State, a: Action): Option<State> {
    if a.Tick? then if a.to >= s.now then Some(s.(now := a.to)) else None
    else if a.id >= |s.reqs| then None
    else
      var r := s.reqs[a.id];
      var host := cfg.hostOf(r.url);
      match a
      case Cancel(id) => Some(s.(reqs := s.reqs[id := r.(cancelled := true)]))
      case Look(id) => if r.pc.Start? then Some(LookStep(cfg, s, id)) else None
      case Lock(id) =>
        if r.pc.WantHost? && s.At(host).holder.None?
          then Some(s.Put(host, s.At(host).(holder := Some(id))).Goto(id, Second)) else None
      case LookAgain(id) => if r.pc.Second? then Some(LookAgainStep(cfg, s, id)) else None
      case BeginWait(id) => if r.pc.Ready? then Some(WaitStep(cfg, s, id, r.pc.attempt)) else None
      case Wake(id) => if r.pc.Sleep? && s.now >= r.pc.until then Some(s.Goto(id, WantSlot(r.pc.attempt))) else None
      case TakeSlot(id) => if r.pc.WantSlot? && s.used < cfg.slots then Some(StartStep(cfg, s, id, r.pc.attempt))
        else None
      case GiveUp(id) =>
        if !r.cancelled then None
        else if r.pc.WantSlot? || r.pc.Sleep? then Some(GiveUpStep(s, id, r.pc.attempt))
        else if r.pc.Backoff? then Some(Return(cfg, s, id, Failure))
        else None
      case Reply(id, result) => if r.pc.InSlot? && s.used > 0 then Some(ReplyStep(cfg, s, id, r.pc.attempt, result))
        else None
      case Decide(id, read) =>
        if r.pc.Decided? && r.pc.attempt <= |cfg.retries|
          then Some(DecideStep(cfg, s, id, r.pc.attempt, r.pc.result, read)) else None
      case Retry(id) =>
        if r.pc.Backoff? && WaitPasses(cfg, s, id, r.pc) then
          Some(if r.pc.discarded then s.Goto(id, Ready(r.pc.attempt + 1)) else Return(cfg, s, id, Failure))
        else None
  }

  function Run(cfg: Config, s: State, actions: seq<Action>): Option<State> {
    if actions == [] then Some(s)
    else
      var before := Run(cfg, s, actions[..|actions| - 1]);
      if before.None? then None else Apply(cfg, before.value, actions[|actions| - 1])
  }

  predicate Initial(s: State) {
    && s.hosts == map[] && s.used == 0 && s.answers == map[] && s.log == []
    && forall i :: 0 <= i < |s.reqs| ==> s.reqs[i].pc == Start && s.reqs[i].starts == 0
  }

  // ----- What a log may say

  /** Attempts in flight. */
  function Inflight(log: seq<Event>): int {
    if log == [] then 0
    else
      var e := log[|log| - 1];
      Inflight(log[..|log| - 1]) + if e.Started? then 1 else if e.Ended? then -1 else 0
  }

  /** Attempts in flight on one host. */
  function Active(cfg: Config, log: seq<Event>, host: string): int {
    if log == [] then 0
    else
      var e := log[|log| - 1];
      Active(cfg, log[..|log| - 1], host)
      + if e.Started? && cfg.hostOf(e.url) == host then 1 else if e.Ended? && cfg.hostOf(e.url) == host then -1 else 0
  }

  function Starts(log: seq<Event>, id: nat): nat {
    if log == [] then 0
    else
      var e := log[|log| - 1];
      Starts(log[..|log| - 1], id) + if e.Started? && e.id == id then 1 else 0
  }

  ghost predicate NeverKept(log: seq<Event>, url: string) {
    forall r :: Kept(url, r) !in log
  }

  ghost predicate Rested(cfg: Config, log: seq<Event>, host: string, at: int) {
    forall e :: e in log && e.Ended? && cfg.hostOf(e.url) == host ==> e.at + cfg.delay <= at
  }

  /** Whether an event may follow the events of `log`. */
  ghost predicate Admissible(cfg: Config, log: seq<Event>, e: Event) {
    match e
    case Started(id, url, at) =>
      // a slot is free, the host is idle, rested and open, nothing is kept, and tries are left
      && Inflight(log) < cfg.slots && Active(cfg, log, cfg.hostOf(url)) == 0
      && Rested(cfg, log, cfg.hostOf(url), at) && Closed(cfg.hostOf(url)) !in log
      && NeverKept(log, url) && Starts(log, id) <= |cfg.retries|
    case Ended(_, url, _) => Active(cfg, log, cfg.hostOf(url)) == 1
    case Received(_, _) => true
    case Kept(url, r) =>
      && Received(url, r) in log && NeverKept(log, url)
      && (r.status / 100 == 2 || r.status == 404) && |r.body| <= cfg.maxBody
    case Replayed(url, r) => Kept(url, r) in log
    case Closed(host) => Closed(host) !in log
    case Tried(_, url, result, _) => result.Some? && result.value.Got? ==> Received(url, result.value.response) in log
    case Unread(_) => true
  }

  /** Every event was admissible when it happened. */
  ghost predicate Lawful(cfg: Config, log: seq<Event>) {
    forall k :: 0 <= k < |log| ==> Admissible(cfg, log[..k], log[k])
  }

  lemma {:induction false} LawfulSay(cfg: Config, log: seq<Event>, e: Event)
    requires Lawful(cfg, log) && Admissible(cfg, log, e)
    ensures Lawful(cfg, log + [e])
  {
    hide Admissible;
    forall k | 0 <= k < |log| + 1 ensures Admissible(cfg, (log + [e])[..k], (log + [e])[k]) {
      assert (log + [e])[..k] == log[..k];
      if k == |log| {
        assert log[..k] == log;
      }
    }
  }

  // ----- The invariant

  function InSlots(reqs: seq<Req>): nat {
    if reqs == [] then 0 else InSlots(reqs[..|reqs| - 1]) + if reqs[|reqs| - 1].pc.InSlot? then 1 else 0
  }

  /** What holds for one request. */
  ghost predicate Sound(cfg: Config, s: State, id: nat)
    requires id < |s.reqs|
  {
    var r := s.reqs[id];
    var h := s.At(cfg.hostOf(r.url));
    && (r.pc.Holds() <==> h.holder == Some(id))
    && (r.pc.Attempting() ==> !h.closed && r.url !in s.answers && r.pc.attempt <= |cfg.retries|)
    && (r.pc.Sleep? ==> h.ready == Some(r.pc.until))
    && (r.pc.WantSlot? ==> h.ready.None? || h.ready.value <= s.now)
    && (r.pc.Decided? && r.pc.result.Got? ==> Received(r.url, r.pc.result.response) in s.log)
    && r.starts == Starts(s.log, id)
    && r.starts <= (match r.pc
                    case Start => 0
                    case WantHost => 0
                    case Second => 0
                    case Ready(a) => a
                    case Sleep(a, _) => a
                    case WantSlot(a) => a
                    case InSlot(a) => a + 1
                    case Decided(a, _) => a + 1
                    case Backoff(a, _, _) => a + 1
                    case Done(_) => |cfg.retries| + 1)
    && (r.pc.Backoff? ==> r.pc.attempt < |cfg.retries|)
  }

  /** What holds for one host. */
  ghost predicate Tidy(cfg: Config, s: State, host: string) {
    var h := s.At(host);
    && (h.holder.Some? ==> h.holder.value < |s.reqs| && cfg.hostOf(s.reqs[h.holder.value].url) == host)
    && (h.closed <==> Closed(host) in s.log)
    && Active(cfg, s.log, host)
      == (if h.holder.Some? && h.holder.value < |s.reqs| && s.reqs[h.holder.value].pc.InSlot? then 1 else 0)
    && (forall e :: e in s.log && e.Ended? && cfg.hostOf(e.url) == host ==>
      h.ready.Some? && e.at + cfg.delay <= h.ready.value)
  }

  ghost predicate Past(s: State) {
    forall e :: e in s.log && e.Ended? ==> e.at <= s.now
  }

  ghost predicate Remembered(s: State) {
    forall url, r :: Kept(url, r) in s.log <==> url in s.answers && s.answers[url] == r
  }

  ghost predicate Inv(cfg: Config, s: State) {
    && (forall id :: 0 <= id < |s.reqs| ==> Sound(cfg, s, id))
    && (forall host :: Tidy(cfg, s, host))
    && Past(s) && Remembered(s)
    && s.used == InSlots(s.reqs) == Inflight(s.log) && s.used <= cfg.slots
    && Lawful(cfg, s.log)
  }

  lemma {:induction false} InSlotsUpdate(reqs: seq<Req>, id: nat, r: Req)
    requires id < |reqs|
    ensures InSlots(reqs[id := r])
      == InSlots(reqs) + (if r.pc.InSlot? then 1 else 0) - (if reqs[id].pc.InSlot? then 1 else 0)
  {
    var n := |reqs| - 1;
    if id < n {
      assert reqs[id := r][..n] == reqs[..n][id := r];
      InSlotsUpdate(reqs[..n], id, r);
    } else {
      assert reqs[id := r][..n] == reqs[..n];
    }
  }

  lemma {:induction false} InitialInv(cfg: Config, s: State)
    requires Initial(s)
    ensures Inv(cfg, s)
  {
    NoneInSlots(s.reqs);
  }

  lemma {:induction false} NoneInSlots(reqs: seq<Req>)
    requires forall i :: 0 <= i < |reqs| ==> !reqs[i].pc.InSlot?
    ensures InSlots(reqs) == 0
  {
    if reqs != [] {
      NoneInSlots(reqs[..|reqs| - 1]);
    }
  }

  // ----- One step touches one request and its host

  /** What an action of request `id` may say. */
  ghost predicate About(cfg: Config, e: Event, id: nat, url: string) {
    match e
    case Started(i, u, _) => i == id && u == url
    case Ended(i, u, _) => i == id && u == url
    case Received(u, _) => u == url
    case Kept(u, _) => u == url
    case Replayed(u, _) => u == url
    case Closed(h) => h == cfg.hostOf(url)
    case Tried(i, u, _, _) => i == id && u == url
    case Unread(i) => i == id
  }

  lemma {:induction false} QuietLog(cfg: Config, log: seq<Event>, said: seq<Event>, id: nat, url: string, j: nat,
      host: string)
    requires forall e :: e in said ==> About(cfg, e, id, url)
    ensures j != id ==> Starts(log + said, j) == Starts(log, j)
    ensures host != cfg.hostOf(url) ==> Active(cfg, log + said, host) == Active(cfg, log, host)
    decreases |said|
  {
    if said == [] {
      assert log + said == log;
    } else {
      var n := |said| - 1;
      assert said[n] in said && About(cfg, said[n], id, url);
      assert (log + said)[..|log + said| - 1] == log + said[..n];
      QuietLog(cfg, log, said[..n], id, url, j, host);
    }
  }

  ghost predicate OwnHost(s: State, t: State, host: string, id: nat) {
    || t.At(host) == s.At(host)
    || (s.At(host).holder in {None, Some(id)} && t.At(host).holder in {None, Some(id)})
  }

  /** From `s` to `t` only request `id`, its host and the answer for its URL changed. */
  ghost predicate Local(cfg: Config, s: State, t: State, id: nat, said: seq<Event>) {
    && id < |s.reqs| == |t.reqs| && t.reqs[id].url == s.reqs[id].url
    && (forall j :: 0 <= j < |s.reqs| && j != id ==> t.reqs[j] == s.reqs[j])
    && t.now == s.now && t.log == s.log + said
    && (forall e :: e in said ==> About(cfg, e, id, s.reqs[id].url))
    && (forall host :: host != cfg.hostOf(s.reqs[id].url) ==> t.At(host) == s.At(host))
    && OwnHost(s, t, cfg.hostOf(s.reqs[id].url), id)
    && (forall url :: url != s.reqs[id].url ==> (url in t.answers <==> url in s.answers))
    && (cfg.hostOf(s.reqs[id].url) !in s.hosts || s.At(cfg.hostOf(s.reqs[id].url)).holder != Some(id) ==>
      t.answers == s.answers)
  }

  lemma {:induction false} OtherSound(cfg: Config, s: State, t: State, id: nat, said: seq<Event>, j: nat)
    requires Local(cfg, s, t, id, said) && j < |s.reqs| && j != id && Sound(cfg, s, j)
    ensures Sound(cfg, t, j)
  {
    hide Active, About;
    var url := s.reqs[j].url;
    QuietLog(cfg, s.log, said, id, s.reqs[id].url, j, cfg.hostOf(url));
  }

  lemma {:induction false} OtherTidy(cfg: Config, s: State, t: State, id: nat, said: seq<Event>, host: string)
    requires Local(cfg, s, t, id, said) && host != cfg.hostOf(s.reqs[id].url) && Tidy(cfg, s, host)
    ensures Tidy(cfg, t, host)
  {
    hide Active, Starts;
    QuietLog(cfg, s.log, said, id, s.reqs[id].url, id, host);
    assert Closed(host) !in said;
    assert forall e :: e in said && e.Ended? ==> e.url == s.reqs[id].url;
  }

  /** What is left to prove of the state after a step of request `id`. */
  ghost predicate Own(cfg: Config, t: State, id: nat)
    requires id < |t.reqs|
  {
    && Sound(cfg, t, id) && Tidy(cfg, t, cfg.hostOf(t.reqs[id].url))
    && Past(t) && Remembered(t)
    && t.used == InSlots(t.reqs) == Inflight(t.log) && t.used <= cfg.slots
    && Lawful(cfg, t.log)
  }

  lemma {:induction false} StepInv(cfg: Config, s: State, t: State, id: nat, said: seq<Event>)
    requires Inv(cfg, s) && Local(cfg, s, t, id, said) && Own(cfg, t, id)
    ensures Inv(cfg, t)
  {
    forall j | 0 <= j < |t.reqs| ensures Sound(cfg, t, j) {
      if j != id {
        OtherSound(cfg, s, t, id, said, j);
      }
    }
    forall host ensures Tidy(cfg, t, host) {
      if host != cfg.hostOf(s.reqs[id].url) {
        OtherTidy(cfg, s, t, id, said, host);
      }
    }
  }

  /** A step that says nothing and leaves the slots, the ready time and the closed mark alone. */
  ghost predicate Silent(cfg: Config, s: State, t: State, id: nat) {
    && Local(cfg, s, t, id, [])
    && t.used == s.used && t.answers == s.answers && t.log == s.log
    && t.reqs == s.reqs[id := t.reqs[id]]
    && !s.reqs[id].pc.InSlot? && !t.reqs[id].pc.InSlot?
    && var host := cfg.hostOf(s.reqs[id].url);
       t.At(host).ready == s.At(host).ready && t.At(host).closed == s.At(host).closed
  }

  lemma {:induction false} SilentInv(cfg: Config, s: State, t: State, id: nat)
    requires Inv(cfg, s) && Silent(cfg, s, t, id) && Sound(cfg, t, id)
    ensures Inv(cfg, t)
  {
    hide Active, Starts, Inflight, Lawful, About, InSlots;
    InSlotsUpdate(s.reqs, id, t.reqs[id]);
    assert Tidy(cfg, s, cfg.hostOf(s.reqs[id].url)) && Sound(cfg, s, id);
    StepInv(cfg, s, t, id, []);
  }

  lemma {:induction false} GotoSilent(cfg: Config, s: State, id: nat, pc: PC)
    requires id < |s.reqs| && !s.reqs[id].pc.InSlot? && !pc.InSlot?
    ensures Silent(cfg, s, s.Goto(id, pc), id)
  {
  }

  lemma {:induction false} ReturnSilent(cfg: Config, s: State, id: nat, outcome: Outcome)
    requires id < |s.reqs| && s.reqs[id].pc.Holds() && !s.reqs[id].pc.InSlot? && Sound(cfg, s, id)
    ensures Silent(cfg, s, Return(cfg, s, id, outcome), id) && Sound(cfg, Return(cfg, s, id, outcome), id)
  {
  }

  lemma {:induction false} ReturnInv(cfg: Config, s: State, id: nat, outcome: Outcome)
    requires Inv(cfg, s) && id < |s.reqs| && s.reqs[id].pc.Holds() && !s.reqs[id].pc.InSlot?
    ensures Inv(cfg, Return(cfg, s, id, outcome))
  {
    hide Silent, Return, Lawful, Tidy;
    ReturnSilent(cfg, s, id, outcome);
    SilentInv(cfg, s, Return(cfg, s, id, outcome), id);
  }

  lemma {:induction false} GotoInv(cfg: Config, s: State, id: nat, pc: PC)
    requires Inv(cfg, s) && id < |s.reqs| && !s.reqs[id].pc.InSlot? && !pc.InSlot? && Sound(cfg, s.Goto(id, pc), id)
    ensures Inv(cfg, s.Goto(id, pc))
  {
    hide Silent, Lawful, Tidy, State.Goto;
    GotoSilent(cfg, s, id, pc);
    SilentInv(cfg, s, s.Goto(id, pc), id);
  }

  lemma {:induction false} LockInv(cfg: Config, s: State, id: nat)
    requires Inv(cfg, s) && Apply(cfg, s, Lock(id)).Some?
    ensures Inv(cfg, Apply(cfg, s, Lock(id)).value)
  {
    hide Starts, Lawful, Inflight, Active;
    assert Sound(cfg, s, id);
    SilentInv(cfg, s, Apply(cfg, s, Lock(id)).value, id);
  }

  /** Waiting, giving up and trying again say nothing. */
  lemma {:induction false} QuietInv(cfg: Config, s: State, a: Action)
    requires Inv(cfg, s) && Apply(cfg, s, a).Some? && (a.BeginWait? || a.Wake? || a.GiveUp? || a.Retry?)
    ensures Inv(cfg, Apply(cfg, s, a).value)
  {
    hide Starts, Lawful, Inflight, Active, Tidy, Return;
    var pc := s.reqs[a.id].pc;
    assert Sound(cfg, s, a.id);
    if (a.GiveUp? && !pc.Backoff?)
      || (a.BeginWait? && WaitStep(cfg, s, a.id, pc.attempt) == GiveUpStep(s, a.id, pc.attempt)) {
      GotoInv(cfg, s, a.id, Decided(pc.attempt, NetworkError));
      SayInv(cfg, s.Goto(a.id, Decided(pc.attempt, NetworkError)), Tried(a.id, s.reqs[a.id].url, None, s.now));
    } else if a.GiveUp? || (a.Retry? && !pc.discarded) {
      ReturnInv(cfg, s, a.id, Failure);
    } else if a.Retry? {
      GotoInv(cfg, s, a.id, Ready(pc.attempt + 1));
    } else {
      GotoInv(cfg, s, a.id, Apply(cfg, s, a).value.reqs[a.id].pc);
    }
  }

  lemma {:induction false} LookInv(cfg: Config, s: State, id: nat)
    requires Inv(cfg, s) && id < |s.reqs| && s.reqs[id].pc.Start?
    ensures Inv(cfg, LookStep(cfg, s, id))
  {
    hide Active, Starts, Inflight, Lawful, InSlots;
    var t, url := LookStep(cfg, s, id), s.reqs[id].url;
    assert Sound(cfg, s, id);
    if url !in s.answers {
      SilentInv(cfg, s, t, id);
    } else {
      ReplayInv(cfg, s, t, id);
    }
  }

  /** Returning a kept answer, with or without the host lock. */
  lemma {:induction false} ReplayInv(cfg: Config, s: State, t: State, id: nat)
    requires Inv(cfg, s) && id < |s.reqs| && s.reqs[id].url in s.answers
    requires var said := [Replayed(s.reqs[id].url, s.answers[s.reqs[id].url])];
             t.log == s.log + said && Silent(cfg, s, t.(log := s.log), id)
    requires Sound(cfg, t.(log := s.log), id)
    ensures Inv(cfg, t)
  {
    hide Inflight, Lawful, InSlots, Local;
    var url := s.reqs[id].url;
    var e := Replayed(url, s.answers[url]);
    SilentInv(cfg, s, t.(log := s.log), id);
    SayInv(cfg, t.(log := s.log), e);
  }

  /** An event that no counter looks at. */
  ghost predicate Neutral(cfg: Config, s: State, e: Event) {
    (e.Replayed? || e.Tried? || e.Unread?) && Admissible(cfg, s.log, e)
  }

  lemma {:induction false} SayInv(cfg: Config, s: State, e: Event)
    requires Inv(cfg, s) && Neutral(cfg, s, e)
    ensures Inv(cfg, s.Say(e))
  {
    hide Lawful, InSlots, Sound, Tidy;
    var t := s.Say(e);
    assert t.log[..|t.log| - 1] == s.log;
    LawfulSay(cfg, s.log, e);
    forall id | 0 <= id < |t.reqs| ensures Sound(cfg, t, id) {
      SaySound(cfg, s, e, id);
    }
    forall host ensures Tidy(cfg, t, host) {
      SayTidy(cfg, s, e, host);
    }
  }

  lemma {:induction false} SaySound(cfg: Config, s: State, e: Event, id: nat)
    requires id < |s.reqs| && Sound(cfg, s, id) && !e.Started?
    ensures Sound(cfg, s.Say(e), id)
  {
    hide Starts, Active;
    CountSay(cfg, s.log, e, id, "");
  }

  lemma {:induction false} SayTidy(cfg: Config, s: State, e: Event, host: string)
    requires Tidy(cfg, s, host) && !e.Started? && !e.Ended? && !e.Closed?
    ensures Tidy(cfg, s.Say(e), host)
  {
    hide Starts, Active;
    CountSay(cfg, s.log, e, 0, host);
    var log := s.log + [e];
    assert forall f :: f in log <==> f in s.log || f == e;
  }

  lemma {:induction false} LookAgainInv(cfg: Config, s: State, id: nat)
    requires Inv(cfg, s) && id < |s.reqs| && s.reqs[id].pc.Second?
    ensures Inv(cfg, LookAgainStep(cfg, s, id))
  {
    hide Active, Starts, Inflight, Lawful, InSlots, Tidy;
    var url := s.reqs[id].url;
    assert Sound(cfg, s, id);
    if url in s.answers {
      ReturnSilent(cfg, s, id, Replay(s.answers[url]));
      assert Return(cfg, s, id, Replay(s.answers[url])).log == s.log;
      ReplayInv(cfg, s, LookAgainStep(cfg, s, id), id);
    } else if s.At(cfg.hostOf(url)).closed {
      ReturnInv(cfg, s, id, Limited);
    } else {
      GotoInv(cfg, s, id, Ready(0));
    }
  }

  lemma {:induction false} TickInv(cfg: Config, s: State, to: int)
    requires Inv(cfg, s) && to >= s.now
    ensures Inv(cfg, s.(now := to))
  {
    hide Active, Starts, Inflight, Lawful, InSlots;
    var t := s.(now := to);
    forall id | 0 <= id < |t.reqs| ensures Sound(cfg, t, id) {
      assert Sound(cfg, s, id);
    }
    forall host ensures Tidy(cfg, t, host) {
      assert Tidy(cfg, s, host);
    }
  }

  lemma {:induction false} CancelInv(cfg: Config, s: State, id: nat)
    requires Inv(cfg, s) && id < |s.reqs|
    ensures Inv(cfg, s.(reqs := s.reqs[id := s.reqs[id].(cancelled := true)]))
  {
    hide Active, Starts, Inflight, Lawful, InSlots;
    var t := s.(reqs := s.reqs[id := s.reqs[id].(cancelled := true)]);
    InSlotsUpdate(s.reqs, id, t.reqs[id]);
    forall j | 0 <= j < |t.reqs| ensures Sound(cfg, t, j) {
      assert Sound(cfg, s, j);
    }
    forall host ensures Tidy(cfg, t, host) {
      assert Tidy(cfg, s, host);
    }
  }

  // ----- Steps that are heard of

  lemma {:induction false} TakeSlotInv(cfg: Config, s: State, id: nat)
    requires Inv(cfg, s) && Apply(cfg, s, TakeSlot(id)).Some?
    ensures Inv(cfg, Apply(cfg, s, TakeSlot(id)).value)
  {
    hide Active, Starts, Inflight, Lawful, InSlots, Sound, Tidy;
    var r := s.reqs[id];
    var t := StartStep(cfg, s, id, r.pc.attempt);
    var e := Started(id, r.url, s.now);
    assert t.log[..|s.log|] == s.log;
    assert Sound(cfg, s, id) && Tidy(cfg, s, cfg.hostOf(r.url));
    StartAdmissible(cfg, s, id);
    LawfulSay(cfg, s.log, e);
    InSlotsUpdate(s.reqs, id, t.reqs[id]);
    InflightSay(s.log, e);
    StartOwn(cfg, s, id);
    StepInv(cfg, s, t, id, [e]);
  }

  lemma {:induction false} InflightSay(log: seq<Event>, e: Event)
    ensures Inflight(log + [e]) == Inflight(log) + (if e.Started? then 1 else if e.Ended? then -1 else 0)
  {
    assert (log + [e])[..|log|] == log;
  }

  lemma {:induction false} StartAdmissible(cfg: Config, s: State, id: nat)
    requires Inv(cfg, s) && id < |s.reqs| && s.reqs[id].pc.WantSlot? && s.used < cfg.slots
    ensures Admissible(cfg, s.log, Started(id, s.reqs[id].url, s.now))
  {
    hide Active, Starts, Inflight, Lawful, InSlots;
    assert Sound(cfg, s, id) && Tidy(cfg, s, cfg.hostOf(s.reqs[id].url));
  }

  lemma {:induction false} StartOwn(cfg: Config, s: State, id: nat)
    requires id < |s.reqs| && s.reqs[id].pc.WantSlot? && Sound(cfg, s, id) && Tidy(cfg, s, cfg.hostOf(s.reqs[id].url))
    ensures Sound(cfg, StartStep(cfg, s, id, s.reqs[id].pc.attempt), id)
    ensures Tidy(cfg, StartStep(cfg, s, id, s.reqs[id].pc.attempt), cfg.hostOf(s.reqs[id].url))
  {
    var t := StartStep(cfg, s, id, s.reqs[id].pc.attempt);
    assert t.log[..|s.log|] == s.log;
    assert t.log[|s.log|] == Started(id, s.reqs[id].url, s.now);
  }

  lemma {:induction false} ReplyInv(cfg: Config, s: State, id: nat, result: Result)
    requires Inv(cfg, s) && Apply(cfg, s, Reply(id, result)).Some?
    ensures Inv(cfg, Apply(cfg, s, Reply(id, result)).value)
  {
    hide Inv;
    EndInv(cfg, s, id, result);
    SayInv(cfg, EndStep(cfg, s, id, s.reqs[id].pc.attempt, result), Tried(id, s.reqs[id].url, Some(result), s.now));
  }

  lemma {:induction false} EndInv(cfg: Config, s: State, id: nat, result: Result)
    requires Inv(cfg, s) && Apply(cfg, s, Reply(id, result)).Some?
    ensures Inv(cfg, EndStep(cfg, s, id, s.reqs[id].pc.attempt, result))
  {
    hide Active, Starts, Inflight, Lawful, InSlots, Sound, Tidy, Past;
    var r := s.reqs[id];
    var t := EndStep(cfg, s, id, r.pc.attempt, result);
    var said := ReplySays(s, id, result);
    assert t.log == s.log + said;
    assert Sound(cfg, s, id) && Tidy(cfg, s, cfg.hostOf(r.url));
    ReplyLawful(cfg, s, id, result);
    InSlotsUpdate(s.reqs, id, t.reqs[id]);
    ReplySound(cfg, s, id, result);
    ReplyTidy(cfg, s, id, result);
    ReplyPast(cfg, s, id, result);
    StepInv(cfg, s, t, id, said);
  }

  function ReplySays(s: State, id: nat, result: Result): seq<Event>
    requires id < |s.reqs|
  {
    var url := s.reqs[id].url;
    if result.Got? then [Ended(id, url, s.now), Received(url, result.response)] else [Ended(id, url, s.now)]
  }

  lemma {:induction false} ReplyPast(cfg: Config, s: State, id: nat, result: Result)
    requires id < |s.reqs| && s.reqs[id].pc.InSlot? && s.used > 0 && Past(s)
    ensures Past(EndStep(cfg, s, id, s.reqs[id].pc.attempt, result))
  {
  }

  lemma {:induction false} ReplyLawful(cfg: Config, s: State, id: nat, result: Result)
    requires Inv(cfg, s) && id < |s.reqs| && s.reqs[id].pc.InSlot?
    ensures Lawful(cfg, s.log + ReplySays(s, id, result))
    ensures Inflight(s.log + ReplySays(s, id, result)) == Inflight(s.log) - 1
  {
    hide Starts, Inflight, Lawful, InSlots, Active;
    var url := s.reqs[id].url;
    var e := Ended(id, url, s.now);
    assert Sound(cfg, s, id) && Tidy(cfg, s, cfg.hostOf(url));
    LawfulSay(cfg, s.log, e);
    InflightSay(s.log, e);
    if result.Got? {
      var f := Received(url, result.response);
      LawfulSay(cfg, s.log + [e], f);
      InflightSay(s.log + [e], f);
      assert s.log + [e] + [f] == s.log + ReplySays(s, id, result);
    }
  }

  lemma {:induction false} CountSay(cfg: Config, log: seq<Event>, e: Event, id: nat, host: string)
    ensures Starts(log + [e], id) == Starts(log, id) + (if e.Started? && e.id == id then 1 else 0)
    ensures Active(cfg, log + [e], host) == Active(cfg, log, host)
      + (if e.Started? && cfg.hostOf(e.url) == host then 1 else if e.Ended? && cfg.hostOf(e.url) == host then -1 else 0)
  {
    assert (log + [e])[..|log|] == log;
  }

  lemma {:induction false} ReplySound(cfg: Config, s: State, id: nat, result: Result)
    requires id < |s.reqs| && s.reqs[id].pc.InSlot? && s.used > 0 && Sound(cfg, s, id)
    ensures Sound(cfg, EndStep(cfg, s, id, s.reqs[id].pc.attempt, result), id)
    ensures s.At(cfg.hostOf(s.reqs[id].url)).holder == Some(id)
  {
    hide Active, Inflight, Starts;
    var url := s.reqs[id].url;
    var e := Ended(id, url, s.now);
    CountSay(cfg, s.log, e, id, cfg.hostOf(url));
    if result.Got? {
      CountSay(cfg, s.log + [e], Received(url, result.response), id, cfg.hostOf(url));
    }
  }

  lemma {:induction false} ReplyTidy(cfg: Config, s: State, id: nat, result: Result)
    requires id < |s.reqs| && s.reqs[id].pc.InSlot? && s.used > 0
    requires Sound(cfg, s, id) && Tidy(cfg, s, cfg.hostOf(s.reqs[id].url)) && Past(s)
    ensures Tidy(cfg, EndStep(cfg, s, id, s.reqs[id].pc.attempt, result), cfg.hostOf(s.reqs[id].url))
  {
    hide Starts, Inflight, Active;
    var url := s.reqs[id].url;
    var e := Ended(id, url, s.now);
    CountSay(cfg, s.log, e, id, cfg.hostOf(url));
    if result.Got? {
      CountSay(cfg, s.log + [e], Received(url, result.response), id, cfg.hostOf(url));
    }
  }

  /** Keeping an answer: the only write to the answers, and the lock of its host is still held. */
  lemma {:induction false} KeepInv(cfg: Config, s: State, id: nat, response: Response)
    requires Inv(cfg, s) && id < |s.reqs| && s.reqs[id].pc.Decided? && s.reqs[id].pc.result == Got(response)
    requires (response.status / 100 == 2 || response.status == 404) && |response.body| <= cfg.maxBody
    ensures Inv(cfg,
      Return(cfg, s.(answers := s.answers[s.reqs[id].url := response]), id,
      Fresh(response)).Say(Kept(s.reqs[id].url, response)))
  {
    hide Active, Starts, Inflight, Lawful, InSlots, Sound, Tidy;
    var url := s.reqs[id].url;
    var t := Return(cfg, s.(answers := s.answers[url := response]), id, Fresh(response)).Say(Kept(url, response));
    var e := Kept(url, response);
    assert Sound(cfg, s, id) && Tidy(cfg, s, cfg.hostOf(url));
    KeepAdmissible(cfg, s, id, response);
    LawfulSay(cfg, s.log, e);
    InflightSay(s.log, e);
    InSlotsUpdate(s.reqs, id, t.reqs[id]);
    KeepOwn(cfg, s, id, response);
    StepInv(cfg, s, t, id, [e]);
  }

  lemma {:induction false} KeepAdmissible(cfg: Config, s: State, id: nat, response: Response)
    requires Inv(cfg, s) && id < |s.reqs| && s.reqs[id].pc.Decided? && s.reqs[id].pc.result == Got(response)
    requires (response.status / 100 == 2 || response.status == 404) && |response.body| <= cfg.maxBody
    ensures s.reqs[id].url !in s.answers && Admissible(cfg, s.log, Kept(s.reqs[id].url, response))
    ensures s.At(cfg.hostOf(s.reqs[id].url)).holder == Some(id)
  {
    hide Active, Starts, Inflight, Lawful, InSlots;
    assert Sound(cfg, s, id);
  }

  lemma {:induction false} KeepOwn(cfg: Config, s: State, id: nat, response: Response)
    requires id < |s.reqs| && s.reqs[id].pc.Decided? && Sound(cfg, s, id) && Tidy(cfg, s, cfg.hostOf(s.reqs[id].url))
    ensures var t := Return(cfg, s.(answers := s.answers[s.reqs[id].url := response]), id,
            Fresh(response)).Say(Kept(s.reqs[id].url, response));
            Sound(cfg, t, id) && Tidy(cfg, t, cfg.hostOf(s.reqs[id].url))
  {
    hide Inflight;
    var t := Return(cfg, s.(answers := s.answers[s.reqs[id].url := response]), id,
      Fresh(response)).Say(Kept(s.reqs[id].url, response));
    assert t.log[..|s.log|] == s.log;
  }

  /** Closing a host after the last try was still refused. */
  lemma {:induction false} CloseInv(cfg: Config, s: State, id: nat)
    requires Inv(cfg, s) && id < |s.reqs| && s.reqs[id].pc.Decided?
    ensures var host := cfg.hostOf(s.reqs[id].url);
            Inv(cfg, Return(cfg, s.Put(host, s.At(host).(closed := true)), id, Limited).Say(Closed(host)))
  {
    hide Active, Starts, Inflight, Lawful, InSlots, Sound, Tidy;
    var host := cfg.hostOf(s.reqs[id].url);
    var t := Return(cfg, s.Put(host, s.At(host).(closed := true)), id, Limited).Say(Closed(host));
    assert Sound(cfg, s, id) && Tidy(cfg, s, host);
    CloseOwn(cfg, s, id);
    LawfulSay(cfg, s.log, Closed(host));
    InflightSay(s.log, Closed(host));
    InSlotsUpdate(s.reqs, id, t.reqs[id]);
    StepInv(cfg, s, t, id, [Closed(host)]);
  }

  lemma {:induction false} CloseOwn(cfg: Config, s: State, id: nat)
    requires id < |s.reqs| && s.reqs[id].pc.Decided? && Sound(cfg, s, id) && Tidy(cfg, s, cfg.hostOf(s.reqs[id].url))
    ensures var host := cfg.hostOf(s.reqs[id].url);
            var t := Return(cfg, s.Put(host, s.At(host).(closed := true)), id, Limited).Say(Closed(host));
            Sound(cfg, t, id) && Tidy(cfg, t, host) && Admissible(cfg, s.log, Closed(host))
              && s.At(host).holder == Some(id)
  {
    hide Inflight;
    var host := cfg.hostOf(s.reqs[id].url);
    var t := Return(cfg, s.Put(host, s.At(host).(closed := true)), id, Limited).Say(Closed(host));
    assert t.log[..|s.log|] == s.log;
  }

  lemma {:induction false} DecideInv(cfg: Config, s: State, id: nat, read: Read)
    requires Inv(cfg, s) && Apply(cfg, s, Decide(id, read)).Some?
    ensures Inv(cfg, Apply(cfg, s, Decide(id, read)).value)
  {
    hide Inv, Return;
    var attempt, result := s.reqs[id].pc.attempt, s.reqs[id].pc.result;
    if result.NetworkError? && attempt == |cfg.retries| {
      ReturnInv(cfg, s, id, Failure);
    } else if result.Got? && !RateLimited(result.response) && result.response.status < 500 {
      var response := result.response;
      if (response.status / 100 != 2 && response.status != 404)
        || (read != ReadFails && |response.body| > cfg.maxBody) {
        ReturnInv(cfg, s, id, Fresh(response));
      } else if read == ReadOk {
        KeepInv(cfg, s, id, response);
      } else {
        ReturnInv(cfg, s, id, Failure);
        SayInv(cfg, Return(cfg, s, id, Failure), Unread(id));
      }
    } else if attempt < |cfg.retries| {
      var pc := Backoff(attempt, s.now + cfg.retries[attempt], result.NetworkError? || read == ReadOk);
      BackoffInv(cfg, s, id, pc);
      SayInv(cfg, s.Goto(id, pc), Unread(id));
    } else if RateLimited(result.response) {
      CloseInv(cfg, s, id);
    } else {
      ReturnInv(cfg, s, id, Fresh(result.response));
    }
  }

  lemma {:induction false} BackoffInv(cfg: Config, s: State, id: nat, pc: PC)
    requires Inv(cfg, s) && id < |s.reqs| && s.reqs[id].pc.Decided? && pc.Backoff?
      && pc.attempt == s.reqs[id].pc.attempt < |cfg.retries|
    ensures Inv(cfg, s.Goto(id, pc))
  {
    hide Active, Starts, Inflight, Lawful, InSlots, Tidy;
    assert Sound(cfg, s, id);
    GotoInv(cfg, s, id, pc);
  }

  // ----- Every run

  /** Every action of every request, the clock and every cancellation keep the invariant. */
  lemma {:induction false} ActionInv(cfg: Config, s: State, a: Action)
    requires Inv(cfg, s) && Apply(cfg, s, a).Some?
    ensures Inv(cfg, Apply(cfg, s, a).value)
  {
    hide Inv;
    match a
    case Tick(to) => TickInv(cfg, s, to);
    case Cancel(id) => CancelInv(cfg, s, id);
    case Look(id) => LookInv(cfg, s, id);
    case Lock(id) => LockInv(cfg, s, id);
    case LookAgain(id) => LookAgainInv(cfg, s, id);
    case BeginWait(_) => QuietInv(cfg, s, a);
    case Wake(_) => QuietInv(cfg, s, a);
    case TakeSlot(id) => TakeSlotInv(cfg, s, id);
    case GiveUp(_) => QuietInv(cfg, s, a);
    case Reply(id, result) => ReplyInv(cfg, s, id, result);
    case Decide(id, read) => DecideInv(cfg, s, id, read);
    case Retry(_) => QuietInv(cfg, s, a);
  }

  lemma {:induction false} RunInv(cfg: Config, s: State, actions: seq<Action>)
    requires Initial(s) && Run(cfg, s, actions).Some?
    ensures Inv(cfg, Run(cfg, s, actions).value)
    decreases |actions|
  {
    hide Inv, Apply;
    if actions == [] {
      InitialInv(cfg, s);
    } else {
      var n := |actions| - 1;
      RunInv(cfg, s, actions[..n]);
      ActionInv(cfg, Run(cfg, s, actions[..n]).value, actions[n]);
    }
  }

  /** What the pacing and the replay promise of everything that happened. */
  ghost predicate Promises(cfg: Config, log: seq<Event>) {
    // at most `slots` attempts at once, at most one of them on a host
    && (forall k :: 0 <= k <= |log| ==> Inflight(log[..k]) <= cfg.slots)
    && (forall k, host :: 0 <= k <= |log| ==> 0 <= Active(cfg, log[..k], host) <= 1)
    // one request makes at most one attempt more than there are retries
    && (forall id: nat :: Starts(log, id) <= |cfg.retries| + 1)
    && (forall i, j :: 0 <= i < j < |log| ==> InOrder(cfg, log[i], log[j]))
    && (forall j :: 0 <= j < |log| ==> Backed(log[..j], log[j]))
  }

  /** What an event rules out for a later one. */
  ghost predicate InOrder(cfg: Config, earlier: Event, later: Event) {
    // an attempt starts at least `delay` after the last one on its host ended
    && (earlier.Ended? && later.Started? && cfg.hostOf(earlier.url) == cfg.hostOf(later.url) ==>
      earlier.at + cfg.delay <= later.at)
    // a closed host is never asked again
    && (earlier.Closed? && later.Started? ==> earlier.host != cfg.hostOf(later.url))
    // a kept answer is kept once, and ends the requests to the network for its URL
    && (earlier.Kept? && (later.Started? || later.Kept?) ==> earlier.url != later.url)
  }

  /** What is replayed was kept, and what was kept was received. */
  ghost predicate Backed(before: seq<Event>, e: Event) {
    && (e.Kept? ==> Received(e.url, e.response) in before)
    && (e.Replayed? ==> Kept(e.url, e.response) in before && Received(e.url, e.response) in before)
  }

  lemma {:induction false} LawfulCounts(cfg: Config, log: seq<Event>, id: nat, host: string)
    requires Lawful(cfg, log)
    ensures Inflight(log) <= cfg.slots && 0 <= Active(cfg, log, host) <= 1 && Starts(log, id) <= |cfg.retries| + 1
  {
    if log != [] {
      var n := |log| - 1;
      LawfulTake(cfg, log, n);
      LawfulCounts(cfg, log[..n], id, host);
      assert Admissible(cfg, log[..n], log[n]);
    }
  }

  lemma {:induction false} LawfulTake(cfg: Config, log: seq<Event>, n: nat)
    requires Lawful(cfg, log) && n <= |log|
    ensures Lawful(cfg, log[..n])
  {
    forall k | 0 <= k < n ensures Admissible(cfg, log[..n][..k], log[..n][k]) {
      assert log[..n][..k] == log[..k];
    }
  }

  lemma {:induction false} LawfulOrder(cfg: Config, log: seq<Event>, i: nat, j: nat)
    requires Lawful(cfg, log) && i < j < |log|
    ensures InOrder(cfg, log[i], log[j])
  {
    hide Active, Inflight, Starts;
    assert Admissible(cfg, log[..j], log[j]);
    assert log[..j][i] == log[i] && log[i] in log[..j];
  }

  lemma {:induction false} LawfulBacked(cfg: Config, log: seq<Event>, j: nat)
    requires Lawful(cfg, log) && j < |log|
    ensures Backed(log[..j], log[j])
  {
    hide Active, Inflight, Starts;
    assert Admissible(cfg, log[..j], log[j]);
    if log[j].Replayed? {
      var i :| 0 <= i < j && log[..j][i] == Kept(log[j].url, log[j].response);
      assert Admissible(cfg, log[..i], log[i]);
      assert log[..i] <= log[..j];
    }
  }

  /** Whatever the interleaving, the clock, the network and the cancellations do, the promises hold. */
  lemma {:induction false} RunKeepsPromises(cfg: Config, s: State, actions: seq<Action>)
    requires Initial(s) && Run(cfg, s, actions).Some?
    ensures Promises(cfg, Run(cfg, s, actions).value.log)
  {
    hide Admissible, InOrder, Backed, Inflight, Active, Starts, Run, Sound, Tidy, Lawful;
    RunInv(cfg, s, actions);
    var log := Run(cfg, s, actions).value.log;
    forall k | 0 <= k <= |log| ensures Inflight(log[..k]) <= cfg.slots {
      LawfulTake(cfg, log, k);
      LawfulCounts(cfg, log[..k], 0, "");
    }
    forall k, host | 0 <= k <= |log| ensures 0 <= Active(cfg, log[..k], host) <= 1 {
      LawfulTake(cfg, log, k);
      LawfulCounts(cfg, log[..k], 0, host);
    }
    forall id: nat ensures Starts(log, id) <= |cfg.retries| + 1 {
      LawfulCounts(cfg, log, id, "");
    }
    forall i, j | 0 <= i < j < |log| ensures InOrder(cfg, log[i], log[j]) {
      LawfulOrder(cfg, log, i, j);
    }
    forall j | 0 <= j < |log| ensures Backed(log[..j], log[j]) {
      LawfulBacked(cfg, log, j);
    }
  }

  /** In every reachable state the lock of a host has one owner, and the slots in use are the attempts in flight. */
  lemma {:induction false} OneHolder(cfg: Config, s: State, actions: seq<Action>, i: nat, j: nat)
    requires Initial(s) && Run(cfg, s, actions).Some?
    requires var t := Run(cfg, s, actions).value;
             i < |t.reqs| && j < |t.reqs| && t.reqs[i].pc.Holds() && t.reqs[j].pc.Holds()
    requires var t := Run(cfg, s, actions).value; cfg.hostOf(t.reqs[i].url) == cfg.hostOf(t.reqs[j].url)
    ensures i == j
  {
    hide Active, Starts, Inflight, Lawful, InSlots;
    RunInv(cfg, s, actions);
    var t := Run(cfg, s, actions).value;
    assert Sound(cfg, t, i) && Sound(cfg, t, j);
  }

  // ----- No deadlock, and every request can finish

  /** Actions a request takes itself. */
  predicate Acts(a: Action) { !a.Tick? && !a.Cancel? }

  /** Request `id` itself can act, now or once the clock has moved on. */
  ghost predicate OwnStep(cfg: Config, s: State, id: nat) {
    exists to, a :: Acts(a) && a.id == id && to >= s.now && Apply(cfg, s.(now := to), a).Some?
  }

  /** The attempt of request `id` can end now, whatever the network answers; no lock and no slot is waited for. */
  ghost predicate CanEnd(cfg: Config, s: State, id: nat) {
    id < |s.reqs| && s.reqs[id].pc.InSlot? && forall result: Result :: Apply(cfg, s, Reply(id, result)).Some?
  }

  lemma {:induction false} StepWith(cfg: Config, s: State, to: int, a: Action)
    requires Acts(a) && to >= s.now && Apply(cfg, s.(now := to), a).Some?
    ensures OwnStep(cfg, s, a.id)
  {
  }

  lemma {:induction false} SomeoneInSlot(reqs: seq<Req>) returns (id: nat)
    requires InSlots(reqs) > 0
    ensures id < |reqs| && reqs[id].pc.InSlot?
  {
    id := |reqs| - 1;
    if !reqs[id].pc.InSlot? {
      id := SomeoneInSlot(reqs[..id]);
    }
  }

  /** A request inside the slot region waits for no lock. */
  lemma {:induction false} SlotHolderEnds(cfg: Config, s: State, id: nat)
    requires Inv(cfg, s) && id < |s.reqs| && s.reqs[id].pc.InSlot?
    ensures CanEnd(cfg, s, id) && OwnStep(cfg, s, id)
  {
    hide Active, Starts, Inflight, Lawful, Sound, Tidy, ReplyStep;
    InSlotCounts(s.reqs, id);
    assert s.(now := s.now) == s;
    StepWith(cfg, s, s.now, Reply(id, NetworkError));
  }

  /** Whoever holds a host lock can act itself, or else waits for a slot, all of them are taken,
      and an attempt in one of them can end. */
  lemma {:induction false} HolderSteps(cfg: Config, s: State, id: nat) returns (j: nat)
    requires cfg.Valid() && Inv(cfg, s) && id < |s.reqs| && s.reqs[id].pc.Holds()
    ensures OwnStep(cfg, s, j) && (j == id || (s.reqs[id].pc.WantSlot? && s.used == cfg.slots && CanEnd(cfg, s, j)))
  {
    hide Active, Starts, Inflight, Lawful, InSlots, Tidy, OwnStep, CanEnd, DecideStep, ReplyStep, StartStep, WaitStep,
      LookAgainStep, Return;
    var pc := s.reqs[id].pc;
    assert Sound(cfg, s, id);
    j := id;
    match pc
    case Second => StepWith(cfg, s, s.now, LookAgain(id));
    case Ready(_) => StepWith(cfg, s, s.now, BeginWait(id));
    case Sleep(_, until) => StepWith(cfg, s, if until > s.now then until else s.now, Wake(id));
    case WantSlot(_) =>
      if s.used < cfg.slots {
        StepWith(cfg, s, s.now, TakeSlot(id));
      } else {
        j := SomeoneInSlot(s.reqs);
        SlotHolderEnds(cfg, s, j);
      }
    case InSlot(_) => SlotHolderEnds(cfg, s, id);
    case Decided(_, _) => StepWith(cfg, s, s.now, Decide(id, ReadOk));
    case Backoff(_, wake, _) =>
      if s.reqs[id].cancelled {
        StepWith(cfg, s, s.now, GiveUp(id));
      } else {
        StepWith(cfg, s, if wake > s.now then wake else s.now, Retry(id));
      }
  }

  lemma {:induction false} InSlotCounts(reqs: seq<Req>, id: nat)
    requires id < |reqs| && reqs[id].pc.InSlot?
    ensures InSlots(reqs) > 0
  {
    if id < |reqs| - 1 {
      InSlotCounts(reqs[..|reqs| - 1], id);
    }
  }

  /** Why request `id` may have to wait for `j`: it is itself, holds the lock of its host, or is in a slot. */
  ghost predicate WaitsFor(cfg: Config, s: State, id: nat, j: nat)
    requires id < |s.reqs|
  {
    j == id || s.At(cfg.hostOf(s.reqs[id].url)).holder == Some(j) || CanEnd(cfg, s, j)
  }

  /** While a request is unfinished, it can act itself, or the request it waits for can, at worst
      after waiting for the clock. */
  lemma {:induction false} NoDeadlock(cfg: Config, s: State, id: nat) returns (j: nat)
    requires cfg.Valid() && Inv(cfg, s) && id < |s.reqs| && !s.reqs[id].pc.Done?
    ensures OwnStep(cfg, s, j) && WaitsFor(cfg, s, id, j)
  {
    hide Active, Starts, Inflight, Lawful, InSlots, OwnStep, CanEnd;
    var r := s.reqs[id];
    j := id;
    if r.pc.Start? {
      StepWith(cfg, s, s.now, Look(id));
    } else if r.pc.WantHost? {
      var host := cfg.hostOf(r.url);
      assert Tidy(cfg, s, host);
      var h := s.At(host).holder;
      if h.None? {
        StepWith(cfg, s, s.now, Lock(id));
      } else {
        assert Sound(cfg, s, h.value);
        j := HolderSteps(cfg, s, h.value);
      }
    } else {
      j := HolderSteps(cfg, s, id);
    }
  }

  /** Steps a request has left. */
  function Left(retries: nat, pc: PC): int {
    match pc
    case Start => 6 * retries + 9
    case WantHost => 6 * retries + 8
    case Second => 6 * retries + 7
    case Ready(a) => 6 * (retries - a) + 6
    case Sleep(a, _) => 6 * (retries - a) + 5
    case WantSlot(a) => 6 * (retries - a) + 4
    case InSlot(a) => 6 * (retries - a) + 3
    case Decided(a, _) => 6 * (retries - a) + 2
    case Backoff(a, _, _) => 6 * (retries - a) + 1
    case Done(_) => 0
  }

  function Weight(retries: nat, reqs: seq<Req>): int {
    if reqs == [] then 0 else Weight(retries, reqs[..|reqs| - 1]) + Left(retries, reqs[|reqs| - 1].pc)
  }

  /** The product, by addition. */
  function Times(n: nat, k: nat): nat { if n == 0 then 0 else Times(n - 1, k) + k }

  lemma {:induction false} WeightUpdate(retries: nat, reqs: seq<Req>, id: nat, r: Req)
    requires id < |reqs|
    ensures Weight(retries, reqs[id := r]) == Weight(retries, reqs) + Left(retries, r.pc) - Left(retries, reqs[id].pc)
  {
    var n := |reqs| - 1;
    if id < n {
      assert reqs[id := r][..n] == reqs[..n][id := r];
      WeightUpdate(retries, reqs[..n], id, r);
    } else {
      assert reqs[id := r][..n] == reqs[..n];
    }
  }

  lemma {:induction false} WeightBounds(cfg: Config, s: State, n: nat)
    requires n <= |s.reqs| && forall i :: 0 <= i < n ==> Sound(cfg, s, i)
    ensures 0 <= Weight(|cfg.retries|, s.reqs[..n]) <= Times(n, 6 * |cfg.retries| + 9)
  {
    hide Starts, Active;
    if n > 0 {
      assert s.reqs[..n][..n - 1] == s.reqs[..n - 1];
      WeightBounds(cfg, s, n - 1);
      assert Sound(cfg, s, n - 1);
    }
  }

  ghost predicate Fewer(cfg: Config, s: State, t: State, id: nat) {
    && id < |s.reqs| == |t.reqs| && t.reqs == s.reqs[id := t.reqs[id]]
    && Left(|cfg.retries|, t.reqs[id].pc) < Left(|cfg.retries|, s.reqs[id].pc)
  }

  /** A step that only moves one request. */
  lemma {:induction false} MovedFewer(cfg: Config, s: State, t: State, id: nat, pc: PC)
    requires id < |s.reqs| && t.reqs == s.reqs[id := s.reqs[id].(pc := pc)]
      && Left(|cfg.retries|, pc) < Left(|cfg.retries|, s.reqs[id].pc)
    ensures Fewer(cfg, s, t, id)
  {
    hide Left;
  }

  lemma {:induction false} DecideFewer(cfg: Config, s: State, id: nat, read: Read)
    requires id < |s.reqs| && s.reqs[id].pc.Decided? && s.reqs[id].pc.attempt <= |cfg.retries|
    ensures Fewer(cfg, s, DecideStep(cfg, s, id, s.reqs[id].pc.attempt, s.reqs[id].pc.result, read), id)
  {
    hide Fewer, RateLimited;
    var t := DecideStep(cfg, s, id, s.reqs[id].pc.attempt, s.reqs[id].pc.result, read);
    var pc := t.reqs[id].pc;
    assert t.reqs == s.reqs[id := s.reqs[id].(pc := pc)]
      && (pc.Done? || (pc.Backoff? && pc.attempt == s.reqs[id].pc.attempt && pc.attempt < |cfg.retries|));
    MovedFewer(cfg, s, t, id, pc);
  }

  lemma {:induction false} ActionFewer(cfg: Config, s: State, a: Action)
    requires Inv(cfg, s) && Apply(cfg, s, a).Some? && Acts(a)
    ensures Fewer(cfg, s, Apply(cfg, s, a).value, a.id)
  {
    hide Active, Starts, Inflight, Lawful, InSlots, Tidy, DecideStep;
    assert Sound(cfg, s, a.id);
    if a.Decide? {
      DecideFewer(cfg, s, a.id, a.read);
    }
  }

  /** Every action of a request brings it closer to its end; the clock and a cancellation change nothing. */
  lemma {:induction false} ActionCounts(cfg: Config, s: State, a: Action)
    requires Inv(cfg, s) && Apply(cfg, s, a).Some?
    ensures var t := Apply(cfg, s, a).value;
            && |t.reqs| == |s.reqs|
            && Weight(|cfg.retries|, t.reqs) + (if Acts(a) then 1 else 0) <= Weight(|cfg.retries|, s.reqs)
  {
    hide Inv, Weight, LookStep, LookAgainStep, WaitStep, StartStep, ReplyStep, DecideStep, Return;
    var t := Apply(cfg, s, a).value;
    if Acts(a) {
      ActionFewer(cfg, s, a);
    }
    if !a.Tick? {
      WeightUpdate(|cfg.retries|, s.reqs, a.id, t.reqs[a.id]);
    }
  }

  function Steps(actions: seq<Action>): nat {
    if actions == [] then 0 else Steps(actions[..|actions| - 1]) + if Acts(actions[|actions| - 1]) then 1 else 0
  }

  /** No run takes more than six steps a try and nine more a request, however long the clock runs. */
  lemma {:induction false} RunsAreShort(cfg: Config, s: State, actions: seq<Action>)
    requires Initial(s) && Run(cfg, s, actions).Some?
    ensures Steps(actions) <= Times(|s.reqs|, 6 * |cfg.retries| + 9)
  {
    hide Inv, Run;
    RunWeight(cfg, s, actions);
    var t := Run(cfg, s, actions).value;
    RunInv(cfg, s, actions);
    InitialInv(cfg, s);
    InvWeight(cfg, s);
    InvWeight(cfg, t);
  }

  lemma {:induction false} InvWeight(cfg: Config, s: State)
    requires Inv(cfg, s)
    ensures 0 <= Weight(|cfg.retries|, s.reqs) <= Times(|s.reqs|, 6 * |cfg.retries| + 9)
  {
    hide Sound, Tidy;
    assert s.reqs[..|s.reqs|] == s.reqs;
    WeightBounds(cfg, s, |s.reqs|);
  }

  lemma {:induction false} RunWeight(cfg: Config, s: State, actions: seq<Action>)
    requires Initial(s) && Run(cfg, s, actions).Some?
    ensures Steps(actions) + Weight(|cfg.retries|, Run(cfg, s, actions).value.reqs) <= Weight(|cfg.retries|, s.reqs)
    decreases |actions|
  {
    hide Inv, Apply, Weight;
    if actions != [] {
      var n := |actions| - 1;
      RunWeight(cfg, s, actions[..n]);
      RunInv(cfg, s, actions[..n]);
      ActionCounts(cfg, Run(cfg, s, actions[..n]).value, actions[n]);
    }
  }

  predicate Finished(s: State) {
    forall id :: 0 <= id < |s.reqs| ==> s.reqs[id].pc.Done?
  }

  lemma {:induction false} RunThen(cfg: Config, s: State, first: seq<Action>, then_: seq<Action>)
    ensures Run(cfg, s, first).Some? ==> Run(cfg, s, first + then_) == Run(cfg, Run(cfg, s, first).value, then_)
    decreases |then_|
  {
    hide Apply;
    if then_ == [] {
      assert first + then_ == first;
    } else {
      var n := |then_| - 1;
      assert (first + then_)[..|first + then_| - 1] == first + then_[..n];
      RunThen(cfg, s, first, then_[..n]);
    }
  }

  lemma {:induction false} FinishFrom(cfg: Config, s: State) returns (more: seq<Action>)
    requires cfg.Valid() && Inv(cfg, s)
    ensures Run(cfg, s, more).Some? && Finished(Run(cfg, s, more).value)
    decreases Weight(|cfg.retries|, s.reqs)
  {
    hide Inv, Apply, Run;
    if Finished(s) {
      more := [];
      RunNothing(cfg, s);
    } else {
      var id :| 0 <= id < |s.reqs| && !s.reqs[id].pc.Done?;
      var j := NoDeadlock(cfg, s, id);
      var to, a :| Acts(a) && a.id == j && to >= s.now && Apply(cfg, s.(now := to), a).Some?;
      var waited := s.(now := to);
      TickInv(cfg, s, to);
      var t := Apply(cfg, waited, a).value;
      ActionInv(cfg, waited, a);
      ActionCounts(cfg, waited, a);
      InvWeight(cfg, t);
      var rest := FinishFrom(cfg, t);
      more := [Tick(to), a] + rest;
      RunTwo(cfg, s, to, a);
      RunThen(cfg, s, [Tick(to), a], rest);
    }
  }

  lemma {:induction false} RunNothing(cfg: Config, s: State)
    ensures Run(cfg, s, []) == Some(s)
  {
  }

  lemma {:induction false} RunTwo(cfg: Config, s: State, to: int, a: Action)
    requires to >= s.now
    ensures Run(cfg, s, [Tick(to), a]) == Apply(cfg, s.(now := to), a)
  {
    var two := [Tick(to), a];
    assert two[..1] == [Tick(to)] && two[..1][..0] == [];
    assert Run(cfg, s, two[..1]) == Some(s.(now := to));
  }

  /** However a run went, it can go on until every request has returned. */
  lemma {:induction false} EveryRunCanFinish(cfg: Config, s: State, actions: seq<Action>) returns (more: seq<Action>)
    requires cfg.Valid() && Initial(s) && Run(cfg, s, actions).Some?
    ensures Run(cfg, s, actions + more).Some? && Finished(Run(cfg, s, actions + more).value)
  {
    hide Inv, Apply, Run;
    RunInv(cfg, s, actions);
    more := FinishFrom(cfg, Run(cfg, s, actions).value);
    RunThen(cfg, s, actions, more);
  }
}
