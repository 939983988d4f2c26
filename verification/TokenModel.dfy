/**
 Access-token refresh as a state machine over any number of threads. Each
 section under the mutex is one step; waiting on the condition variable
 releases the mutex, and times are seconds.
 */
module TokenModel {
  import opened Common

  const REFRESH_WAIT_TIMEOUT: nat := 30
  const EXPIRY_BUFFER: nat := 300

  /** What the token request came back with. */
  datatype Response = Failed | BadExpiry(token: string) | Fresh(token: string, expiresAt: int)

  datatype Pc =
    | Idle
    | FastMissed
    | Waiting(since: int, notified: bool)
    | Requesting
    | Responded(response: Response)

  /** A finished call. */
  datatype Outcome =
    | Cached(thread: nat, token: string, expiresAt: int, at: int)
    | Refreshed(thread: nat, token: string)
    | TimedOut(thread: nat, since: int, at: int)
    | RequestFailed(thread: nat)

  /** A started refresh, with the expiry of the token stored and not cleared since, if any. */
  datatype Start = Start(thread: nat, at: int, stored: Option<int>)

  datatype State = State(
    now: int,
    accessToken: Option<string>,
    expiresAt: Option<int>,
    refreshing: bool,
    pcs: map<nat, Pc>,
    stored: Option<int>,
    starts: seq<Start>,
    outcomes: seq<Outcome>)

  datatype Event =
    | Tick(elapsed: nat)
    | Fast(thread: nat)
    | Enter(thread: nat)
    | Wake(thread: nat, timedOut: bool)
    | Respond(thread: nat, response: Response)
    | Finish(thread: nat)
    | Clear

  function Init(now: int): State {
    State(now, None, None, false, map[], None, [], [])
  }

  function PcOf(s: State, t: nat): Pc {
    if t in s.pcs then s.pcs[t] else Idle
  }

  /** More than five minutes of lifetime left. */
  predicate IsTokenValid(expiresAt: int, now: int) {
    expiresAt > now + EXPIRY_BUFFER
  }

  predicate HasValidToken(s: State) {
    s.accessToken.Some? && s.expiresAt.Some? && IsTokenValid(s.expiresAt.value, s.now)
  }

  function ReturnCached(s: State, t: nat): State
    requires HasValidToken(s)
  {
    s.(pcs := s.pcs[t := Idle], outcomes := s.outcomes + [Cached(t, s.accessToken.value, s.expiresAt.value, s.now)])
  }

  function StartRefresh(s: State, t: nat): State {
    s.(refreshing := true, pcs := s.pcs[t := Requesting], starts := s.starts + [Start(t, s.now, s.stored)])
  }

  function StartWait(s: State, t: nat): State {
    s.(pcs := s.pcs[t := Waiting(s.now, false)])
  }

  /** The check before the slow path. */
  function StepFast(s: State, t: nat): Option<State> {
    if !PcOf(s, t).Idle? then None
    else if HasValidToken(s) then Some(ReturnCached(s, t))
    else Some(s.(pcs := s.pcs[t := FastMissed]))
  }

  /** Double check, then wait for the refresher or become it. */
  function StepEnter(s: State, t: nat): Option<State> {
    if !PcOf(s, t).FastMissed? then None
    else if HasValidToken(s) then Some(ReturnCached(s, t))
    else if s.refreshing then Some(StartWait(s, t))
    else Some(StartRefresh(s, t))
  }

  /** Waking up, by notification, by timeout or spuriously. */
  function StepWake(s: State, t: nat, timedOut: bool): Option<State> {
    var pc := PcOf(s, t);
    if !pc.Waiting? || (timedOut && (pc.notified || s.now < pc.since + REFRESH_WAIT_TIMEOUT)) then None
    else if HasValidToken(s) then Some(ReturnCached(s, t))
    else if timedOut && s.refreshing
    then Some(s.(pcs := s.pcs[t := Idle], outcomes := s.outcomes + [TimedOut(t, pc.since, s.now)]))
    else if s.refreshing then Some(StartWait(s, t))
    else Some(StartRefresh(s, t))
  }

  function StepRespond(s: State, t: nat, response: Response): Option<State> {
    if PcOf(s, t).Requesting? then Some(s.(pcs := s.pcs[t := Responded(response)])) else None
  }

  /** Every waiting thread is notified. */
  function NotifyAll(pcs: map<nat, Pc>): map<nat, Pc> {
    map t | t in pcs :: if pcs[t].Waiting? then pcs[t].(notified := true) else pcs[t]
  }

  /** The refresher publishes its result; each way out clears the flag and notifies. */
  function StepFinish(s: State, t: nat): Option<State> {
    if !PcOf(s, t).Responded? then None
    else
      var done := s.(refreshing := false, pcs := NotifyAll(s.pcs[t := Idle]));
      match s.pcs[t].response
      case Failed => Some(done.(outcomes := s.outcomes + [RequestFailed(t)]))
      case BadExpiry(_) => Some(done.(outcomes := s.outcomes + [RequestFailed(t)]))
      case Fresh(token, expiresAt) =>
        Some(done.(accessToken := Some(token), expiresAt := Some(expiresAt), stored := Some(expiresAt),
                   outcomes := s.outcomes + [Refreshed(t, token)]))
  }

  function Step(s: State, e: Event): Option<State> {
    match e
    case Tick(elapsed) => Some(s.(now := s.now + elapsed))
    case Fast(t) => StepFast(s, t)
    case Enter(t) => StepEnter(s, t)
    case Wake(t, timedOut) => StepWake(s, t, timedOut)
    case Respond(t, response) => StepRespond(s, t, response)
    case Finish(t) => StepFinish(s, t)
    case Clear => Some(s.(accessToken := None, expiresAt := None, stored := None))
  }

  function Run(s: State, events: seq<Event>): Option<State> {
    if |events| == 0 then Some(s)
    else
      var front := Run(s, events[..|events| - 1]);
      if front.None? then None else Step(front.value, events[|events| - 1])
  }

  ghost predicate Reachable(s: State) {
    exists now: int, events: seq<Event> :: Run(Init(now), events) == Some(s)
  }
}
