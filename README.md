# finance-py core, modelled in Dafny

This project models the two pieces of the finance-py repository that contain logic that
can be checked:

- **`is_prime`** (`book/chapters/references/is_prime.py`), in module `PrimeCheck`
  (`is_prime.dfy`). It is a trial-division check. It returns False for every even number,
  2 included. It then tries the odd candidates 3, 5, … up to `int(I ** 0.5)` and returns
  True when none of them divides `I`. The method `IsPrime` keeps the loop and its early
  exits. It is proved equal to a loop-free description, `Expected`, and on that description
  the model proves the following:
  - for odd `I ≥ 3`, the answer is primality itself;
  - any odd divisor up to the square root makes the answer False;
  - 1 is reported prime and 2 is reported not prime;
  - every tested candidate `i` is odd and has `i*i ≤ I`;
  - the loop makes at most ⌊√I⌋/2 passes.

  The square root is the exact integer square root `Isqrt`. An odd negative `I` makes
  `I ** 0.5` complex, so `int()` raises a TypeError. The model returns that as the answer
  `ComplexRootTypeError`.
- **The token bookkeeping of `Authenticator`**
  (`brokerage/portfolio/settings/schwab.py`), in module `Schwab` (`schwab.dfy`). It covers
  four steps:
  - the authorization-code extraction of `get_tokens` (line 65), as a string function
    whose failure cases are the ValueErrors of `str.index`;
  - the three field assignments from the token endpoint's reply, including the partial
    update left behind when a key is missing;
  - the dictionary persisted to `tokens.json` and read back by the constructor;
  - `refresh_timer`.

  The class `Authenticator` has the source's fields. The reply of the HTTP exchange is a
  parameter, and `tokens.json` is a field holding the dictionary last written.
  `get_tokens`, `update_tokens` and `refresh_timer` call one another without end, so the
  model follows one cycle: one exchange and update, then the timer's entry decision.

  As written, the timer cannot count down. Line 22 rebinds `datetime` from the module
  (line 17) to the class, so `datetime.timedelta` on line 125 raises an AttributeError
  whenever the expiration is a positive integer. `GetTokens` and `UpdateTokens` follow the
  code as written. The countdown the code evidently intends is modelled separately, as
  `RefreshTimerIntended`. Each of its passes maps `e` to `(e mod 86400) − 1`, so a lifetime
  of a day or more is cut to its remainder modulo a day. An expiration of 86400 × 10^9
  seconds or more is beyond what a `timedelta` can hold, and raises an OverflowError.

## Model

| member | source | states |
|---|---|---|
| `PrimeCheck.Isqrt` | book/chapters/references/is_prime.py:3 | The bound `int(I ** 0.5)` taken exactly: `r*r <= I < (r+1)*(r+1)`. |
| `PrimeCheck.IsPrime` | book/chapters/references/is_prime.py:1-5 | Returns False for even `I` (including 0 and 2). For odd `I ≥ 0`, returns True exactly when no odd `i` in [3, ⌊√I⌋] divides `I`. An odd negative `I` raises. The candidates tested are 3, 5, 7, … in order, each with `i*i <= I`, and there are at most ⌊√I⌋/2 of them. |
| `PrimeCheck.OddAnswerIsPrimality` | book/chapters/references/is_prime.py:1-5 | For odd `I ≥ 3`, the answer is True iff `I` is prime. A composite number has a divisor whose square is at most the number, and every divisor of an odd number is odd. |
| `PrimeCheck.DivisorRejects` | book/chapters/references/is_prime.py:3-4 | If an odd `i ≥ 3` with `i*i <= I` divides `I`, the answer is False. |
| `PrimeCheck.SmallQuirks` | book/chapters/references/is_prime.py:2-5 | `is_prime(1)` is True because the candidate range is empty, though 1 is not prime. `is_prime(2)` is False because 2 is even, though 2 is prime. |
| `Schwab.IndexFrom` | brokerage/portfolio/settings/schwab.py:65 | Finds the first occurrence of a pattern at or after a position, or reports that there is none from there on. |
| `Schwab.Index` | brokerage/portfolio/settings/schwab.py:65 | `str.index` returns the position of the first occurrence. It fails with a ValueError exactly when the pattern does not occur. |
| `Schwab.ExtractCode` | brokerage/portfolio/settings/schwab.py:65 | Extraction succeeds iff the link contains both `"code="` and `"%40"`. Without `"code="` it is that ValueError; with `"code="` but no `"%40"` it is the `"%40"` ValueError. Every extracted code ends with `"@"`. |
| `Schwab.ExtractCodeExact` | brokerage/portfolio/settings/schwab.py:65 | The code is exactly the text after the first `"code="` up to the first `"%40"`, then `"@"`. It is `"@"` alone when that `"%40"` starts before the first `"code="` ends. |
| `Schwab.RecordFile` | brokerage/portfolio/settings/schwab.py:80-86 | The persisted dictionary has exactly the keys `access_token`, `refresh_token` and `expiration`, holding the three token fields. |
| `Schwab.ReadTokenFile` | brokerage/portfolio/settings/schwab.py:47-52 | Loading `tokens.json` succeeds iff it has the three keys, and yields their values. Otherwise the KeyError names the first of `access_token`, `refresh_token`, `expiration` that is absent. |
| `Schwab.PersistedRecordReadsBack` | brokerage/portfolio/settings/schwab.py:80-86 | A persisted record is loaded back as the same three token values. |
| `Schwab.ThreeKeyFileIsRecord` | brokerage/portfolio/settings/schwab.py:47-52 | A `tokens.json` with exactly the three keys loads, and the record it loads as persists back to the same dictionary. |
| `Schwab.ApplyReply` | brokerage/portfolio/settings/schwab.py:76-78 | The assignments succeed iff the reply has `access_token`, `refresh_token` and `expires_in`, and the fields then equal those values. A missing `access_token` changes nothing. A later missing key keeps the assignments made before it: the access token is always taken when present, and the refresh token is taken when both it and the access token are present. The expiration changes only when all three keys are present. The KeyError names the first of `access_token`, `refresh_token`, `expires_in` that is absent. |
| `Schwab.CountdownStep` | brokerage/portfolio/settings/schwab.py:125-128 | One intended pass, `(e mod 86400) − 1`, lies in [−1, 86398] and is strictly below a positive `e`. |
| `Schwab.CountdownClosedForm` | brokerage/portfolio/settings/schwab.py:124-128 | The intended loop from `e > 0` ends at 0, or at −1 when `e` is a multiple of 86400. It makes `e mod 86400` passes, or one pass for a multiple of 86400. |
| `Schwab.Authenticator.constructor` | brokerage/portfolio/settings/schwab.py:44-52 | The three fields are the values loaded from `tokens.json`. The base URL is the OAuth token URL. Memory and file agree. |
| `Schwab.Authenticator.StoreReply` | brokerage/portfolio/settings/schwab.py:76-86 | The fields become `ApplyReply` of the old fields. `tokens.json` is rewritten with the new fields only when no key was missing, and then memory and file agree. |
| `Schwab.Authenticator.RefreshTimer` | brokerage/portfolio/settings/schwab.py:119-129 | A str expiration raises a TypeError at the loop test. A positive int raises an AttributeError at line 125, because `datetime` names the class (line 22). Only an expiration `<= 0` reaches `update_tokens`. |
| `Schwab.Authenticator.RefreshTimerIntended` | brokerage/portfolio/settings/schwab.py:124-128 | The intended countdown leaves the expiration at `CountdownEnd` of its start: 0, or −1 for a positive multiple of a day. It makes `CountdownTicks` passes, and then calls `update_tokens`. A non-positive start is left unchanged. A start of 86400 × 10^9 seconds or more raises an OverflowError before any pass, leaving the expiration unchanged. A str start raises a TypeError. |
| `Schwab.Authenticator.GetTokens` | brokerage/portfolio/settings/schwab.py:61-88 | If extraction fails, nothing is sent or changed and the ValueError is raised. Otherwise it sends `grant_type=authorization_code` with the extracted code and `redirect_uri`. The fields, file and outcome then follow `ApplyReply` and the timer's entry test. |
| `Schwab.Authenticator.UpdateTokens` | brokerage/portfolio/settings/schwab.py:90-117 | Sends `grant_type=refresh_token` with the refresh token held before the call and `redirect_uri`. The fields, file and outcome then follow `ApplyReply` and the timer's entry test. |
| `Schwab.Account.constructor` | brokerage/portfolio/settings/schwab.py:141-146 | Copies the authenticator's three token fields at construction. |
| `Schwab.Position.constructor` | brokerage/portfolio/settings/schwab.py:209-216 | Copies the access token at construction. The quantity, price, cost basis and market value start at 0. |
| `Schwab.AccountAfterRotation` | brokerage/portfolio/settings/schwab.py:141-145 | After a token update, an `Account` built before it still holds the old access token, and differs from the authenticator whenever the new token is different. |

## Left out

- `PrimeCheck.Isqrt`: `int(I ** 0.5)` is computed in floating point. For very large `I`
  (beyond about 2^52) it can differ from the exact integer square root, and the model
  does not capture that.
- `PrimeCheck.IsPrime`: only integer arguments are modelled. A float argument is not.
- JSON values are modelled as strings and integers only. Floats, booleans, `null`, lists
  and objects in a reply or in `tokens.json` are not modelled, nor how Python compares
  them with `0`.
- `Schwab.Authenticator.constructor`: requires that `tokens.json` has the three keys. The
  KeyError for a missing key is modelled by `ReadTokenFile` instead. A missing or
  unreadable file is not modelled.
- The HTTP exchange (`requests.post(...).json()`) is replaced by its reply, a parameter.
  Network errors and a reply that is not JSON are not modelled.
- File I/O on `./settings/tokens.json` is a field holding the dictionary. JSON
  serialisation and write failures are not modelled.
- The endless recursion `update_tokens → refresh_timer → update_tokens`: one cycle is
  modelled, ending in the outcome `CallsUpdateTokens`.
- `time.sleep(1)` is counted as a pass of the intended countdown (`ticks`), not as
  elapsed time.
- The `Authorization` header built with base64, and the credentials loaded by dotenv and
  `os.environ`, are library and platform calls. The redirect URI is a constructor argument.
- `get_auth_url` (string formatting of a URL) is not modelled.
- The query methods of `Account` and `Position`, `get_price_history` and `get_volatility`
  are not modelled. They are REST wrappers, and pandas/numpy floating-point code.
- `book/scripts/valuations/bsm_mcs_euro.py` and `book/chapters/references/monte_carlo.py`
  are not modelled. They are floating-point simulations driven by random numbers.
