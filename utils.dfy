/** The claim set `create_access_token` signs (app/src/core/utils.py). Time is in whole
  * seconds; the clock reading and the configured lifetime are parameters. */
module Utils {
  import opened Wrappers

  /** A value of the claims dictionary. */
  datatype Claim =
    | Text(text: string)          // a `str`
    | Number(number: int)         // an `int`
    | Numbers(numbers: seq<int>)  // a list of `int`
    | Instant(seconds: int)       // a `datetime`
    | Null                        // JSON `null`, Python `None`

  type Claims = map<string, Claim>

  /** `timedelta(minutes=m)` in seconds. */
  function Minutes(m: int): int
  {
    60 * m
  }

  /** The expiry: `now + expires_delta` when the delta is truthy (present and not zero),
    * else `now` plus the configured lifetime in minutes. */
  function Expiry(expiresDelta: Option<int>, now: int, tokenLife: int): (t: int)
    ensures expiresDelta.Some? && expiresDelta.value != 0 ==> t == now + expiresDelta.value
    ensures expiresDelta.None? || expiresDelta.value == 0 ==> t == now + Minutes(tokenLife)
  {
    if expiresDelta.Some? && expiresDelta.value != 0 then now + expiresDelta.value
    else now + Minutes(tokenLife)
  }

  /** `to_encode` after `data.copy()` and `update({"exp": expire})`. The caller's `data` is a value
    * here, so it is left as it was. */
  function AccessTokenClaims(data: Claims, expiresDelta: Option<int>, now: int, tokenLife: int): (claims: Claims)
    ensures claims.Keys == data.Keys + {"exp"}
    ensures forall k :: k in data && k != "exp" ==> claims[k] == data[k]
    ensures claims["exp"] == Instant(Expiry(expiresDelta, now, tokenLife))
  {
    var toEncode := data;
    toEncode["exp" := Instant(Expiry(expiresDelta, now, tokenLife))]
  }

  /** An `exp` in the caller's data has no effect on the claims. */
  lemma {:induction false} CallerExpIgnored(data: Claims, expiresDelta: Option<int>, now: int, tokenLife: int)
    ensures AccessTokenClaims(data, expiresDelta, now, tokenLife)
         == AccessTokenClaims(data - {"exp"}, expiresDelta, now, tokenLife)
  {
  }

  /** `create_access_token`; `encode` stands for `jwt.encode` with the configured secret and
    * algorithm. The token does not depend on any `exp` the caller supplies. */
  function CreateAccessToken(data: Claims, expiresDelta: Option<int>, now: int, tokenLife: int,
                             encode: Claims -> string): (token: string)
    ensures token == encode(AccessTokenClaims(data - {"exp"}, expiresDelta, now, tokenLife))
  {
    CallerExpIgnored(data, expiresDelta, now, tokenLife);
    encode(AccessTokenClaims(data, expiresDelta, now, tokenLife))
  }
}
