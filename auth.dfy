/** public/js/auth.js: the GitHub OAuth token kept in one session-storage slot,
    its validity and freshness, the code exchange, the refresh and the gate that
    protected routes start. Token responses follow section 5.1 of RFC 6749 and
    the refresh follows section 6 of RFC 6749. */
module Auth {
  import opened Wrappers
  import opened Js
  import Routing

  /** A token record as JSON.parse returns it. The backend supplies access_token,
      refresh_token and expires_in (seconds); issued_at is stamped locally. Any
      field may be missing from the parsed object. */
  datatype TokenRecord = TokenRecord(
    access_token: Option<string>,
    refresh_token: Option<string>,
    expires_in: Option<int>,
    issued_at: Option<int>)

  /** The `{}` the error paths return. */
  const EmptyRecord: TokenRecord := TokenRecord(None, None, None, None)

  /** The text stored under the key `github_token`: JSON that parses to a
      record, or text that JSON.parse rejects. */
  datatype StoredItem = Parsed(record: TokenRecord) | Malformed

  /** A request sent to the OAuth backend. */
  datatype Request = ExchangeCode(code: string, state: string) | Refresh(refreshToken: string)

  /** getGithubToken on a slot: JSON.parse(null) is null for a missing item;
      malformed text raises a SyntaxError. */
  function Parse(slot: Option<StoredItem>): (r: Result<Option<TokenRecord>, Exception>)
    ensures r.Failure? <==> slot == Some(Malformed)
    ensures r.Failure? ==> r.error == SyntaxError
    ensures r == Success(None) <==> slot == None
  {
    match slot
    case None => Success(None)
    case Some(Malformed) => Failure(SyntaxError)
    case Some(Parsed(t)) => Success(Some(t))
  }

  /** isTokenValid: a record is there and both issued_at and expires_in are
      truthy, so a missing field and a zero are treated alike. */
  predicate IsTokenValid(t: Option<TokenRecord>)
    ensures IsTokenValid(t) <==>
      t.Some? && t.value.issued_at.Some? && t.value.issued_at.value != 0
      && t.value.expires_in.Some? && t.value.expires_in.value != 0
  {
    t.Some? && TruthyNumber(t.value.issued_at) && TruthyNumber(t.value.expires_in)
  }

  /** isAccessTokenValid: valid, and its expiry instant lies strictly after `now`. */
  predicate IsAccessTokenValid(t: Option<TokenRecord>, now: int)
    ensures IsAccessTokenValid(t, now) ==> IsTokenValid(t)
  {
    IsTokenValid(t) && t.value.issued_at.value + t.value.expires_in.value > now
  }

  /** The record setGithubToken stores: its argument with issued_at set to now. */
  function Stamped(t: TokenRecord, now: int): (s: TokenRecord)
    ensures s.access_token == t.access_token && s.refresh_token == t.refresh_token
    ensures s.expires_in == t.expires_in && s.issued_at == Some(now)
  {
    t.(issued_at := Some(now))
  }

  /** The refresh token refreshGithubToken would send, when the stored record has a
      truthy one. */
  function RefreshTokenOf(slot: Option<StoredItem>): (rt: Option<string>)
    ensures rt.Some? ==> rt.value != ""
  {
    match Parse(slot)
    case Success(Some(t)) => if TruthyString(t.refresh_token) then t.refresh_token else None
    case _ => None
  }

  /** The expiry check is strict: at issued_at + expires_in the token is expired. */
  lemma ExpiredAtExpiryInstant(t: TokenRecord, now: int)
    requires IsTokenValid(Some(t))
    requires t.issued_at.value + t.expires_in.value == now
    ensures !IsAccessTokenValid(Some(t), now)
  {
  }

  /** Once expired, a record stays expired as the clock moves on. */
  lemma ExpiryIsPermanent(t: Option<TokenRecord>, now: int, later: int)
    requires now <= later && !IsAccessTokenValid(t, now)
    ensures !IsAccessTokenValid(t, later)
  {
  }

  /** A freshly stamped record is usable at once exactly when its lifetime is
      positive and the clock is not at zero. */
  lemma StampedIsFreshIff(t: TokenRecord, now: int)
    ensures IsAccessTokenValid(Some(Stamped(t, now)), now) <==>
      now != 0 && t.expires_in.Some? && t.expires_in.value > 0
  {
  }

  /** The module state of auth.js: sessionStorage's `github_token` slot, and the
      requests sent to the OAuth backend so far. */
  class GithubAuth {
    var slot: Option<StoredItem>
    var requests: seq<Request>

    constructor (slot: Option<StoredItem>)
      ensures this.slot == slot && requests == []
    {
      this.slot := slot;
      requests := [];
    }

    /** getGithubToken: null when nothing is stored, the record when the
        stored text parses, a SyntaxError when it does not. */
    function GetGithubToken(): (r: Result<Option<TokenRecord>, Exception>)
      reads this
      ensures slot == None ==> r == Success(None)
      ensures slot == Some(Malformed) ==> r == Failure(SyntaxError)
      ensures slot.Some? && slot.value.Parsed? ==> r == Success(Some(slot.value.record))
    {
      Parse(slot)
    }

    /** isAuthenticated at `now` (seconds): isAccessTokenValid of the stored
        record; raises what getGithubToken raises. */
    function IsAuthenticated(now: int): (r: Result<bool, Exception>)
      reads this
      ensures slot == None ==> r == Success(false)
      ensures r.Failure? <==> slot == Some(Malformed)
      ensures r == Success(true) <==> Parse(slot).Success? && IsAccessTokenValid(Parse(slot).value, now)
    {
      match GetGithubToken()
      case Failure(e) => Failure(e)
      case Success(t) => Success(IsAccessTokenValid(t, now))
    }

    /** removeGithubToken: the slot is emptied, whatever it held. */
    method RemoveGithubToken()
      modifies this
      ensures slot == None && requests == old(requests)
      ensures forall now :: IsAuthenticated(now) == Success(false)
    {
      slot := None;
    }

    /** setGithubToken: stamps issued_at = now on the record (replacing any it
        had) and overwrites the slot with it. */
    method SetGithubToken(token: TokenRecord, now: int) returns (stamped: TokenRecord)
      modifies this
      ensures stamped == Stamped(token, now)
      ensures slot == Some(Parsed(stamped)) && requests == old(requests)
      ensures GetGithubToken() == Success(Some(stamped))
    {
      stamped := token.(issued_at := Some(now));
      slot := Some(Parsed(stamped));
    }

    /** fetchGithubToken(code, state): one exchange request; on success the
        stamped record is stored and returned, on failure `{}` is returned and
        the slot is untouched. */
    method FetchGithubToken(code: string, state: string, exchange: Result<TokenRecord, Exception>, now: int)
      returns (r: TokenRecord)
      modifies this
      ensures requests == old(requests) + [ExchangeCode(code, state)]
      ensures exchange.Success? ==> r == Stamped(exchange.value, now) && slot == Some(Parsed(r))
      ensures exchange.Failure? ==> r == EmptyRecord && slot == old(slot)
    {
      requests := requests + [ExchangeCode(code, state)];
      match exchange
      case Success(token) =>
        r := SetGithubToken(token, now);
      case Failure(_) =>
        r := EmptyRecord;
    }

    /** refreshGithubToken: without a stored record or a truthy refresh_token it
        returns `{}` and sends nothing; otherwise it sends exactly one refresh
        request, stores and returns the new stamped record on success, and
        rethrows on failure with the slot untouched. A malformed slot makes
        getGithubToken raise before anything is sent. */
    method RefreshGithubToken(refresh: Result<TokenRecord, Exception>, now: int)
      returns (r: Result<TokenRecord, Exception>)
      modifies this
      ensures old(slot) == Some(Malformed) ==>
        r == Failure(SyntaxError) && slot == old(slot) && requests == old(requests)
      ensures old(slot) != Some(Malformed) && RefreshTokenOf(old(slot)).None? ==>
        r == Success(EmptyRecord) && slot == old(slot) && requests == old(requests)
      ensures RefreshTokenOf(old(slot)).Some? ==>
        && requests == old(requests) + [Refresh(RefreshTokenOf(old(slot)).value)]
        && (refresh.Success? ==> r == Success(Stamped(refresh.value, now)) && slot == Some(Parsed(r.value)))
        && (refresh.Failure? ==> r == refresh && slot == old(slot))
    {
      var githubToken := GetGithubToken();
      if githubToken.Failure? {
        return Failure(githubToken.error);
      }
      if githubToken.value.None? || !TruthyString(githubToken.value.value.refresh_token) {
        return Success(EmptyRecord);
      }
      var refreshToken := githubToken.value.value.refresh_token.value;
      requests := requests + [Refresh(refreshToken)];
      match refresh
      case Success(token) =>
        var stamped := SetGithubToken(token, now);
        r := Success(stamped);
      case Failure(e) =>
        r := Failure(e);
    }

    /** authenticateGithub: with no record, or one that is not valid, it sends
        nothing and pushes `/` once; with a fresh record it does nothing; with an
        expired valid record it calls refreshGithubToken once and pushes `/` once
        if, and only if, that call raises. There is no retry. The outer Failure
        is the rejection a malformed slot causes. The freshness check reads the
        clock as `now`, before the refresh request is awaited; the refreshed
        record is stamped with `stampNow`, the clock once the response is in. */
    method AuthenticateGithub(history: Routing.History, refresh: Result<TokenRecord, Exception>, now: int, stampNow: int)
      returns (r: Result<(), Exception>)
      requires history.Valid()
      modifies this, history
      ensures history.Valid()
      ensures old(slot) == Some(Malformed) ==>
        r == Failure(SyntaxError) && slot == old(slot) && requests == old(requests)
        && history.View() == old(history.View())
      ensures Parse(old(slot)).Success? && !IsTokenValid(Parse(old(slot)).value) ==>
        && r.Success? && slot == old(slot) && requests == old(requests)
        && history.View() == Routing.AfterPush(old(history.View()), Routing.Home, EmptyObject)
      ensures Parse(old(slot)).Success? && IsAccessTokenValid(Parse(old(slot)).value, now) ==>
        r.Success? && slot == old(slot) && requests == old(requests) && history.View() == old(history.View())
      ensures Parse(old(slot)).Success? && IsTokenValid(Parse(old(slot)).value)
              && !IsAccessTokenValid(Parse(old(slot)).value, now) ==>
        && r.Success?
        && (RefreshTokenOf(old(slot)).None? ==>
              slot == old(slot) && requests == old(requests) && history.View() == old(history.View()))
        && (RefreshTokenOf(old(slot)).Some? ==>
              && requests == old(requests) + [Refresh(RefreshTokenOf(old(slot)).value)]
              && (refresh.Success? ==>
                    slot == Some(Parsed(Stamped(refresh.value, stampNow))) && history.View() == old(history.View()))
              && (refresh.Failure? ==>
                    slot == old(slot)
                    && history.View() == Routing.AfterPush(old(history.View()), Routing.Home, EmptyObject)))
    {
      var githubToken := GetGithubToken();
      if githubToken.Failure? {
        return Failure(githubToken.error);
      }
      if githubToken.value.None? || !IsTokenValid(githubToken.value) {
        Routing.Push(history, Routing.Home, EmptyObject);
        return Success(());
      }
      if !IsAccessTokenValid(githubToken.value, now) {
        var refreshed := RefreshGithubToken(refresh, stampNow);
        if refreshed.Failure? {
          Routing.Push(history, Routing.Home, EmptyObject);
        }
      }
      r := Success(());
    }
  }
}
