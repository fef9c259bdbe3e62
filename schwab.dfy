/** Token bookkeeping of the Schwab API client (`brokerage/portfolio/settings/schwab.py`).

    `Authenticator` holds an access token, a refresh token and an expiration read from
    `./settings/tokens.json`. `get_tokens` extracts the authorization code from the
    redirect link and exchanges it; `update_tokens` exchanges the refresh token; both copy
    the endpoint's reply into the three fields, rewrite tokens.json and enter
    `refresh_timer`. The HTTP exchange is replaced by the reply it returns (a parameter),
    and tokens.json by a field holding the dictionary last written to it.

    `get_tokens`, `update_tokens` and `refresh_timer` call each other without end; the model
    follows one cycle: one exchange and update, then the timer's entry decision. As written,
    that decision raises for any positive expiration: line 22 rebinds the name `datetime`
    from the module (line 17) to the class, so `datetime.timedelta` on line 125 is an
    AttributeError. The countdown the code evidently intends is modelled separately.
 */
module Schwab {

  /** A scalar JSON value as read from tokens.json or from a reply's `.json()`. */
  datatype Json = JStr(s: string) | JInt(n: int)

  datatype Option<T> = None | Some(value: T)

  /** The Python exceptions the modelled code raises. */
  datatype PyError =
    | ValueError(substring: string)   // `str.index` found no occurrence of `substring`
    | KeyError(key: string)           // lookup of an absent dictionary key
    | TypeError                       // `>` between a str and an int
    | AttributeError(name: string)    // attribute `name` looked up on the class `datetime`
    | OverflowError                   // a `timedelta` of more than 999999999 days

  datatype Result<T> = Success(value: T) | Failure(error: PyError)

  /** How one pass through the token cycle ends: with an exception, or with
      `refresh_timer` leaving its loop and calling `update_tokens` again (line 129),
      where the model stops. */
  datatype Outcome = Raised(error: PyError) | CallsUpdateTokens

  // ---------------------------------------------------------------------------------
  // Auth-code extraction (line 65)
  // ---------------------------------------------------------------------------------

  /** `pat` occurs in `s` starting at position `i`. */
  predicate OccursAt(s: string, pat: string, i: int)
  {
    0 <= i && i + |pat| <= |s| && s[i..i + |pat|] == pat
  }

  ghost predicate Contains(s: string, pat: string)
  {
    exists i :: OccursAt(s, pat, i)
  }

  /** `i` is the position of the first occurrence of `pat` in `s`. */
  ghost predicate IsFirst(s: string, pat: string, i: int)
  {
    OccursAt(s, pat, i) && forall j :: 0 <= j < i ==> !OccursAt(s, pat, j)
  }

  /** The first occurrence of `pat` in `s` at or after position `k`. */
  function IndexFrom(s: string, pat: string, k: nat): (r: Option<nat>)
    decreases |s| - k
    ensures r.Some? ==> k <= r.value && OccursAt(s, pat, r.value)
    ensures r.Some? ==> forall j :: k <= j < r.value ==> !OccursAt(s, pat, j)
    ensures r.None? ==> forall j :: k <= j ==> !OccursAt(s, pat, j)
  {
    if k + |pat| > |s| then None
    else if s[k..k + |pat|] == pat then Some(k)
    else IndexFrom(s, pat, k + 1)
  }

  /** Python's `s.index(pat)`: the first position of `pat`, or a ValueError. */
  function Index(s: string, pat: string): (r: Result<nat>)
    ensures r.Success? ==> IsFirst(s, pat, r.value)
    ensures r.Failure? <==> !Contains(s, pat)
    ensures r.Failure? ==> r.error == ValueError(pat)
  {
    match IndexFrom(s, pat, 0)
    case Some(i) => Success(i)
    case None => Failure(ValueError(pat))
  }

  /** Python's slice `s[lo:hi]` for non-negative bounds: clamped to the string and empty
      when `lo >= hi`. */
  function Slice(s: string, lo: nat, hi: nat): string
  {
    var l := if lo <= |s| then lo else |s|;
    var h := if hi <= |s| then hi else |s|;
    if l < h then s[l..h] else []
  }

  /** The authorization code `get_tokens` sends: the text between the first "code=" and
      the first "%40" of the redirect link, followed by "@". */
  function ExtractCode(returnedLink: string): (r: Result<string>)
    ensures r.Success? <==> Contains(returnedLink, "code=") && Contains(returnedLink, "%40")
    ensures !Contains(returnedLink, "code=") ==> r == Failure(ValueError("code="))
    ensures (Contains(returnedLink, "code=") && !Contains(returnedLink, "%40")) ==>
              r == Failure(ValueError("%40"))
    ensures r.Success? ==> |r.value| >= 1 && r.value[|r.value| - 1] == '@'
  {
    match Index(returnedLink, "code=")
    case Failure(e) => Failure(e)
    case Success(start) =>
      match Index(returnedLink, "%40")
      case Failure(e) => Failure(e)
      case Success(stop) => Success(Slice(returnedLink, start + 5, stop) + "@")
  }

  lemma FirstIsUnique(s: string, pat: string, i: int, j: int)
    requires IsFirst(s, pat, i) && IsFirst(s, pat, j)
    ensures i == j
  {
  }

  /** The code is exactly the text after the first "code=" up to the first "%40", and it
      is "@" alone when that "%40" starts before the first "code=" ends. */
  lemma ExtractCodeExact(returnedLink: string, start: nat, stop: nat)
    requires IsFirst(returnedLink, "code=", start) && IsFirst(returnedLink, "%40", stop)
    ensures start + 5 <= stop ==> ExtractCode(returnedLink) == Success(returnedLink[start + 5..stop] + "@")
    ensures stop < start + 5 ==> ExtractCode(returnedLink) == Success("@")
  {
    assert OccursAt(returnedLink, "code=", start) && OccursAt(returnedLink, "%40", stop);
    var i := Index(returnedLink, "code=");
    var j := Index(returnedLink, "%40");
    FirstIsUnique(returnedLink, "code=", i.value, start);
    FirstIsUnique(returnedLink, "%40", j.value, stop);
    assert ExtractCode(returnedLink) == Success(Slice(returnedLink, start + 5, stop) + "@");
    if start + 5 <= stop {
      assert Slice(returnedLink, start + 5, stop) == returnedLink[start + 5..stop];
    } else {
      assert Slice(returnedLink, start + 5, stop) == [];
      assert [] + "@" == "@";
    }
  }

  // ---------------------------------------------------------------------------------
  // Token records: the reply, the fields and tokens.json (lines 47-52, 76-86, 105-115)
  // ---------------------------------------------------------------------------------

  /** The three token fields of an `Authenticator`. */
  datatype TokenRecord = TokenRecord(accessToken: Json, refreshToken: Json, expiration: Json)

  /** The dictionary `get_tokens` and `update_tokens` write to tokens.json. */
  function RecordFile(rec: TokenRecord): (file: map<string, Json>)
    ensures file.Keys == {"access_token", "refresh_token", "expiration"}
    ensures file["access_token"] == rec.accessToken
    ensures file["refresh_token"] == rec.refreshToken
    ensures file["expiration"] == rec.expiration
  {
    map["access_token" := rec.accessToken,
        "refresh_token" := rec.refreshToken,
        "expiration" := rec.expiration]
  }

  /** What `Authenticator.__init__` reads from tokens.json: the three keys in order, the
      first absent one raising a KeyError. */
  function ReadTokenFile(file: map<string, Json>): (r: Result<TokenRecord>)
    ensures r.Success? <==> "access_token" in file && "refresh_token" in file && "expiration" in file
    ensures r.Success? ==>
              r.value == TokenRecord(file["access_token"], file["refresh_token"], file["expiration"])
    ensures r.Failure? ==>
              r.error == KeyError(if "access_token" !in file then "access_token"
                                  else if "refresh_token" !in file then "refresh_token"
                                  else "expiration")
  {
    if "access_token" !in file then Failure(KeyError("access_token"))
    else if "refresh_token" !in file then Failure(KeyError("refresh_token"))
    else if "expiration" !in file then Failure(KeyError("expiration"))
    else Success(TokenRecord(file["access_token"], file["refresh_token"], file["expiration"]))
  }

  /** What is persisted is what a later `Authenticator()` loads. */
  lemma PersistedRecordReadsBack(rec: TokenRecord)
    ensures ReadTokenFile(RecordFile(rec)) == Success(rec)
  {
  }

  /** Conversely, a tokens.json holding exactly the three keys is the record it loads as. */
  lemma ThreeKeyFileIsRecord(file: map<string, Json>)
    requires file.Keys == {"access_token", "refresh_token", "expiration"}
    ensures ReadTokenFile(file).Success? && RecordFile(ReadTokenFile(file).value) == file
  {
    var back := RecordFile(ReadTokenFile(file).value);
    assert back.Keys == file.Keys;
    forall k | k in file
      ensures back[k] == file[k]
    {
      assert k == "access_token" || k == "refresh_token" || k == "expiration";
    }
  }

  /** The three assignments of lines 76-78 (105-107) applied to `rec`: in order, each
      reading one key of the reply; the first absent key raises a KeyError and the
      assignments before it stay done. */
  function ApplyReply(rec: TokenRecord, reply: map<string, Json>): (r: (TokenRecord, Option<PyError>))
    ensures r.1.None? <==> "access_token" in reply && "refresh_token" in reply && "expires_in" in reply
    ensures r.1.None? ==>
              r.0 == TokenRecord(reply["access_token"], reply["refresh_token"], reply["expires_in"])
    ensures "access_token" !in reply ==> r == (rec, Some(KeyError("access_token")))
    ensures r.1.Some? ==> r.0.expiration == rec.expiration
    ensures r.0.accessToken == if "access_token" in reply then reply["access_token"] else rec.accessToken
    ensures r.0.refreshToken ==
              if "access_token" in reply && "refresh_token" in reply then reply["refresh_token"]
              else rec.refreshToken
    ensures r.1.Some? ==>
              r.1.value == KeyError(if "access_token" !in reply then "access_token"
                                    else if "refresh_token" !in reply then "refresh_token"
                                    else "expires_in")
  {
    if "access_token" !in reply then (rec, Some(KeyError("access_token")))
    else
      var withAccess := rec.(accessToken := reply["access_token"]);
      if "refresh_token" !in reply then (withAccess, Some(KeyError("refresh_token")))
      else
        var withRefresh := withAccess.(refreshToken := reply["refresh_token"]);
        if "expires_in" !in reply then (withRefresh, Some(KeyError("expires_in")))
        else (withRefresh.(expiration := reply["expires_in"]), None)
  }

  /** The entry test of `refresh_timer` as written (lines 124-125), for a given expiration. */
  function TimerEntry(expiration: Json): Outcome
  {
    match expiration
    case JStr(_) => Raised(TypeError)
    case JInt(e) => if e > 0 then Raised(AttributeError("timedelta")) else CallsUpdateTokens
  }

  // ---------------------------------------------------------------------------------
  // The countdown refresh_timer evidently intends (lines 124-128)
  // ---------------------------------------------------------------------------------

  /** One intended pass of the loop body: `timedelta(seconds=e).seconds`, which is
      `e mod 86400`, then the decrement of line 128. */
  function CountdownStep(e: int): (next: int)
    ensures -1 <= next < 86399
    ensures e > 0 ==> next < e
  {
    e % 86400 - 1
  }

  /** The smallest number of seconds `timedelta(seconds=...)` rejects with an OverflowError:
      a timedelta holds at most 999999999 days. */
  const TimedeltaOverflow: int := 86400 * 1000000000

  /** The expiration the intended loop leaves behind. */
  function CountdownEnd(e: int): int
    decreases if e > 0 then e else 0
  {
    if e > 0 then CountdownEnd(CountdownStep(e)) else e
  }

  /** The number of passes (one-second sleeps) the intended loop makes. */
  function CountdownTicks(e: int): nat
    decreases if e > 0 then e else 0
  {
    if e > 0 then 1 + CountdownTicks(CountdownStep(e)) else 0
  }

  /** The intended loop from a positive expiration `e` ends at 0, or at -1 when `e` is a
      multiple of a day, after `e mod 86400` one-second passes (one pass for a multiple of
      a day): a lifetime of a day or more is cut to its remainder modulo a day. */
  lemma {:induction false} CountdownClosedForm(e: int)
    requires e > 0
    ensures CountdownEnd(e) == if e % 86400 == 0 then -1 else 0
    ensures CountdownTicks(e) == if e % 86400 == 0 then 1 else e % 86400
  {
    var next := CountdownStep(e);
    if next > 0 {
      CountdownClosedForm(next);
    }
  }

  // ---------------------------------------------------------------------------------
  // Authenticator (lines 38-129)
  // ---------------------------------------------------------------------------------

  const TokenUrl := "https://api.schwabapi.com/v1/oauth/token"

  class Authenticator {
    const baseUrl: string
    /** The `redirect_uri` of the environment (line 32), fixed for the session. */
    const redirectUri: string
    var accessToken: Json
    var refreshToken: Json
    var expiration: Json
    /** The dictionary last written to (or loaded from) `./settings/tokens.json`. */
    var tokenFile: map<string, Json>

    function Current(): TokenRecord
      reads this
    {
      TokenRecord(accessToken, refreshToken, expiration)
    }

    /** tokens.json loads as exactly the tokens held in memory. */
    predicate Synced()
      reads this
    {
      ReadTokenFile(tokenFile) == Success(Current())
    }

    /** `Authenticator()` over a tokens.json that loads (lines 44-52). */
    constructor (tokenFile: map<string, Json>, redirectUri: string)
      requires ReadTokenFile(tokenFile).Success?
      ensures baseUrl == TokenUrl && this.redirectUri == redirectUri
      ensures this.tokenFile == tokenFile
      ensures Current() == ReadTokenFile(tokenFile).value
      ensures Synced()
    {
      baseUrl := TokenUrl;
      this.redirectUri := redirectUri;
      this.tokenFile := tokenFile;
      accessToken := tokenFile["access_token"];
      refreshToken := tokenFile["refresh_token"];
      expiration := tokenFile["expiration"];
    }

    /** Copies the reply into the three fields (lines 76-78 / 105-107) and, when all three
        keys were present, rewrites tokens.json (lines 80-86 / 109-115). */
    method StoreReply(reply: map<string, Json>) returns (err: Option<PyError>)
      modifies this
      ensures (Current(), err) == ApplyReply(old(Current()), reply)
      ensures tokenFile == if err.None? then RecordFile(Current()) else old(tokenFile)
      ensures err.None? ==> Synced()
    {
      if "access_token" !in reply {
        return Some(KeyError("access_token"));
      }
      accessToken := reply["access_token"];
      if "refresh_token" !in reply {
        return Some(KeyError("refresh_token"));
      }
      refreshToken := reply["refresh_token"];
      if "expires_in" !in reply {
        return Some(KeyError("expires_in"));
      }
      expiration := reply["expires_in"];
      tokenFile := RecordFile(Current());
      PersistedRecordReadsBack(Current());
      err := None;
    }

    /** `refresh_timer` as written (lines 119-129). A str expiration makes the test of
        line 124 a TypeError; a positive int enters the loop, whose first statement fails
        because `datetime` names the class, not the module. Only a non-positive int
        reaches `update_tokens` on line 129. The loop body can never complete, so the loop
        is an `if` here. */
    method RefreshTimer() returns (outcome: Outcome)
      ensures expiration.JStr? ==> outcome == Raised(TypeError)
      ensures expiration.JInt? && expiration.n > 0 ==> outcome == Raised(AttributeError("timedelta"))
      ensures expiration.JInt? && expiration.n <= 0 ==> outcome == CallsUpdateTokens
      ensures outcome == TimerEntry(expiration)
    {
      match expiration {
        case JStr(_) =>
          outcome := Raised(TypeError);
        case JInt(e) =>
          if e > 0 {
            outcome := Raised(AttributeError("timedelta"));
          } else {
            outcome := CallsUpdateTokens;
          }
      }
    }

    /** The countdown `refresh_timer` evidently intends (lines 124-128), as if line 125
        named `datetime.timedelta` from the module: each pass reduces the expiration to its
        remainder modulo a day and counts one second down. `ticks` is the number of passes.
        An expiration of `TimedeltaOverflow` seconds or more makes the first `timedelta`
        raise an OverflowError. */
    method RefreshTimerIntended() returns (ticks: nat, outcome: Outcome)
      modifies this`expiration
      ensures old(expiration).JStr? ==> outcome == Raised(TypeError) && expiration == old(expiration) && ticks == 0
      ensures old(expiration).JInt? && old(expiration).n >= TimedeltaOverflow ==>
                outcome == Raised(OverflowError) && expiration == old(expiration) && ticks == 0
      ensures old(expiration).JInt? && old(expiration).n < TimedeltaOverflow ==>
                outcome == CallsUpdateTokens
                && expiration == JInt(CountdownEnd(old(expiration).n))
                && ticks == CountdownTicks(old(expiration).n)
      ensures old(expiration).JInt? && old(expiration).n <= 0 ==> expiration == old(expiration) && ticks == 0
      ensures old(expiration).JInt? && 0 < old(expiration).n < TimedeltaOverflow ==>
                expiration == JInt(if old(expiration).n % 86400 == 0 then -1 else 0)
    {
      ticks := 0;
      if expiration.JStr? {
        return ticks, Raised(TypeError);
      }
      ghost var start := expiration.n;
      while expiration.n > 0
        invariant expiration.JInt?
        invariant CountdownEnd(expiration.n) == CountdownEnd(start)
        invariant ticks + CountdownTicks(expiration.n) == CountdownTicks(start)
        invariant start <= 0 ==> expiration.n == start
        invariant start >= TimedeltaOverflow ==> expiration.n == start && ticks == 0
        invariant start < TimedeltaOverflow ==> expiration.n < TimedeltaOverflow
        decreases if expiration.n > 0 then expiration.n else 0
      {
        if expiration.n >= TimedeltaOverflow {
          return ticks, Raised(OverflowError);
        }
        expiration := JInt(expiration.n % 86400);   // timedelta(seconds=...).seconds
        // time.sleep(1)
        expiration := JInt(expiration.n - 1);
        ticks := ticks + 1;
      }
      if start > 0 {
        CountdownClosedForm(start);
      }
      outcome := CallsUpdateTokens;
    }

    /** `get_tokens(returned_link)` for one cycle, with `reply` the endpoint's answer.
        `request` is the form sent (none when the code cannot be extracted). */
    method GetTokens(returnedLink: string, reply: map<string, Json>)
      returns (request: Option<map<string, Json>>, outcome: Outcome)
      modifies this
      ensures ExtractCode(returnedLink).Failure? ==>
                request == None && outcome == Raised(ExtractCode(returnedLink).error)
                && Current() == old(Current()) && tokenFile == old(tokenFile)
      ensures ExtractCode(returnedLink).Success? ==>
                request == Some(map["grant_type" := JStr("authorization_code"),
                                    "code" := JStr(ExtractCode(returnedLink).value),
                                    "redirect_uri" := JStr(redirectUri)])
      ensures ExtractCode(returnedLink).Success? ==>
                var (rec, err) := ApplyReply(old(Current()), reply);
                && Current() == rec
                && tokenFile == (if err.None? then RecordFile(rec) else old(tokenFile))
                && outcome == (if err.Some? then Raised(err.value) else TimerEntry(rec.expiration))
    {
      var code := ExtractCode(returnedLink);
      if code.Failure? {
        return None, Raised(code.error);
      }
      request := Some(map["grant_type" := JStr("authorization_code"),
                          "code" := JStr(code.value),
                          "redirect_uri" := JStr(redirectUri)]);
      var err := StoreReply(reply);
      if err.Some? {
        return request, Raised(err.value);
      }
      outcome := RefreshTimer();
    }

    /** `update_tokens()` for one cycle, with `reply` the endpoint's answer to the
        refresh grant `request`, which carries the refresh token held before the call. */
    method UpdateTokens(reply: map<string, Json>) returns (request: map<string, Json>, outcome: Outcome)
      modifies this
      ensures request == map["grant_type" := JStr("refresh_token"),
                             "redirect_uri" := JStr(redirectUri),
                             "refresh_token" := old(refreshToken)]
      ensures var (rec, err) := ApplyReply(old(Current()), reply);
              && Current() == rec
              && tokenFile == (if err.None? then RecordFile(rec) else old(tokenFile))
              && outcome == (if err.Some? then Raised(err.value) else TimerEntry(rec.expiration))
    {
      request := map["grant_type" := JStr("refresh_token"),
                     "redirect_uri" := JStr(redirectUri),
                     "refresh_token" := refreshToken];
      var err := StoreReply(reply);
      if err.Some? {
        return request, Raised(err.value);
      }
      outcome := RefreshTimer();
    }
  }

  // ---------------------------------------------------------------------------------
  // Consumers that copy the token at construction (lines 141-146, 209-217)
  // ---------------------------------------------------------------------------------

  class Account {
    const auth: Authenticator
    const baseUrl: string
    var accessToken: Json
    var refreshToken: Json
    var expiration: Json

    constructor (auth: Authenticator)
      ensures this.auth == auth && baseUrl == "https://api.schwabapi.com/trader/v1/"
      ensures accessToken == auth.accessToken && refreshToken == auth.refreshToken
      ensures expiration == auth.expiration
    {
      this.auth := auth;
      accessToken := auth.accessToken;
      refreshToken := auth.refreshToken;
      expiration := auth.expiration;
      baseUrl := "https://api.schwabapi.com/trader/v1/";
    }
  }

  class Position {
    const baseUrl: string
    var accessToken: Json
    var symbol: string
    var quantity: int
    var price: int
    var costBasis: int
    var marketValue: int

    constructor (auth: Authenticator, symbol: string)
      ensures baseUrl == "https://api.schwabapi.com/marketdata/v1/"
      ensures accessToken == auth.accessToken && this.symbol == symbol
      ensures quantity == 0 && price == 0 && costBasis == 0 && marketValue == 0
    {
      baseUrl := "https://api.schwabapi.com/marketdata/v1/";
      accessToken := auth.accessToken;
      this.symbol := symbol;
      quantity, price, costBasis, marketValue := 0, 0, 0, 0;
    }
  }

  /** An `Account` built before a token rotation keeps the old access token: the copy is
      never refreshed. */
  method AccountAfterRotation(auth: Authenticator, reply: map<string, Json>)
    returns (account: Account, outcome: Outcome)
    modifies auth
    ensures account.auth == auth && account.accessToken == old(auth.accessToken)
    ensures "access_token" in reply ==> auth.accessToken == reply["access_token"]
    ensures "access_token" in reply && reply["access_token"] != old(auth.accessToken) ==>
              account.accessToken != auth.accessToken
  {
    account := new Account(auth);
    var request;
    request, outcome := auth.UpdateTokens(reply);
  }

  /** A first login, as the code runs it: the code is cut from the link, the tokens are
      stored and persisted, and the timer then fails on the positive lifetime. */
  method FirstLoginScenario()
  {
    var auth := new Authenticator(
      map["access_token" := JStr("A0"), "refresh_token" := JStr("R0"), "expiration" := JInt(0)],
      "https://127.0.0.1");
    var reply := map["access_token" := JStr("A1"), "refresh_token" := JStr("R1"), "expires_in" := JInt(1800)];
    var link := "code=C0%40";
    assert OccursAt(link, "code=", 0) && OccursAt(link, "%40", 7);
    var request, outcome := auth.GetTokens(link, reply);
    assert request.Some? && request.value["grant_type"] == JStr("authorization_code");
    assert auth.Current() == TokenRecord(JStr("A1"), JStr("R1"), JInt(1800));
    assert auth.Synced();
    assert outcome == Raised(AttributeError("timedelta"));
  }
}
