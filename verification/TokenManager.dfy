/** The token cache object: each method is one section under its mutex. */
module TokenManager {
  import opened Common
  import opened TokenModel

  /** How a section of `get_valid_token` ends. */
  datatype Verdict = UseToken(token: string) | Wait | Refresh | GiveUp

  class TokenStateManager {
    var accessToken: Option<string>
    var tokenExpiresAt: Option<int>
    var isRefreshingToken: bool

    constructor (now: int)
      ensures Matches(Init(now))
    {
      accessToken, tokenExpiresAt, isRefreshingToken := None, None, false;
    }

    ghost predicate Matches(m: State)
      reads this
    {
      m.accessToken == accessToken && m.expiresAt == tokenExpiresAt && m.refreshing == isRefreshingToken
    }

    /** Forgets the cached token; a running refresh goes on. */
    method ClearToken(ghost m: State)
      requires Matches(m)
      modifies this
      ensures Matches(Step(m, Clear).value)
      ensures forall now :: !HasValidToken(Step(m, Clear).value.(now := now))
    {
      accessToken, tokenExpiresAt := None, None;
    }

    /** The cached token, if it has more than the buffer left to live. */
    method ValidToken(now: int, ghost m: State) returns (token: Option<string>)
      requires Matches(m) && m.now == now
      ensures token.Some? <==> accessToken.Some? && tokenExpiresAt.Some? && tokenExpiresAt.value > now + 300
      ensures token.Some? ==> token == accessToken
      ensures token.Some? == HasValidToken(m)
    {
      if accessToken.Some? && tokenExpiresAt.Some? && IsTokenValid(tokenExpiresAt.value, now) {
        return accessToken;
      }
      return None;
    }

    /** The first section of the slow path. */
    method EnterSlowPath(now: int, ghost t: nat, ghost m: State) returns (verdict: Verdict)
      requires Matches(m) && m.now == now && PcOf(m, t).FastMissed?
      modifies this
      ensures Step(m, Enter(t)).Some? && Matches(Step(m, Enter(t)).value)
      ensures PcOf(Step(m, Enter(t)).value, t) == AfterVerdict(verdict, now)
      ensures verdict.UseToken? <==> accessToken.Some? && tokenExpiresAt.Some? && tokenExpiresAt.value > now + 300
      ensures verdict.UseToken? ==> accessToken == Some(verdict.token)
      ensures !verdict.UseToken? ==> verdict == if old(isRefreshingToken) then Wait else Refresh
    {
      var token := ValidToken(now, m);
      if token.Some? { return UseToken(token.value); }
      if isRefreshingToken { return Wait; }
      isRefreshingToken := true;
      return Refresh;
    }

    /** The section after each wakeup: the rest of the wait loop's body, and its condition. */
    method AfterWait(now: int, timedOut: bool, ghost t: nat, ghost m: State) returns (verdict: Verdict)
      requires Matches(m) && m.now == now && Step(m, Wake(t, timedOut)).Some?
      modifies this
      ensures Matches(Step(m, Wake(t, timedOut)).value)
      ensures PcOf(Step(m, Wake(t, timedOut)).value, t) == AfterVerdict(verdict, now)
      ensures verdict.UseToken? <==> accessToken.Some? && tokenExpiresAt.Some? && tokenExpiresAt.value > now + 300
      ensures verdict.UseToken? ==> accessToken == Some(verdict.token)
      ensures !verdict.UseToken? ==>
                verdict == if !old(isRefreshingToken) then Refresh else if timedOut then GiveUp else Wait
    {
      var token := ValidToken(now, m);
      if token.Some? { return UseToken(token.value); }
      if timedOut && isRefreshingToken { return GiveUp; }
      if isRefreshingToken { return Wait; }
      isRefreshingToken := true;
      return Refresh;
    }

    /** The refresher's last section: the flag is cleared on every way out. */
    method Publish(response: Response, ghost t: nat, ghost m: State) returns (r: Result<string>)
      requires Matches(m) && PcOf(m, t) == Responded(response)
      modifies this
      ensures Step(m, Finish(t)).Some? && Matches(Step(m, Finish(t)).value)
      ensures !isRefreshingToken
      ensures r == if response.Fresh? then Ok(response.token) else Err
      ensures response.Fresh? ==> accessToken == Some(response.token) && tokenExpiresAt == Some(response.expiresAt)
      ensures !response.Fresh? ==> accessToken == old(accessToken) && tokenExpiresAt == old(tokenExpiresAt)
    {
      match response
      case Failed =>
        isRefreshingToken := false;
        return Err;
      case BadExpiry(_) =>
        isRefreshingToken := false;
        return Err;
      case Fresh(token, expiresAt) =>
        accessToken, tokenExpiresAt, isRefreshingToken := Some(token), Some(expiresAt), false;
        return Ok(token);
    }
  }

  function AfterVerdict(verdict: Verdict, now: int): Pc {
    match verdict
    case UseToken(_) => Idle
    case Wait => Waiting(now, false)
    case Refresh => Requesting
    case GiveUp => Idle
  }
}
