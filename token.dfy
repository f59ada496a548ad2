/** The token pair returned by register/login and the persisted blacklist
    of logged-out tokens (backend/app/models/token.py). */
module TokenModel {
  import opened Common
  import opened AuthUtils

  /** `Token`: the access/refresh pair and an optional `token_type`. */
  datatype Token = Token(accessToken: Jwt, refreshToken: Jwt, tokenType: Option<string>)

  /** The declared default of `Token.token_type`. */
  const DefaultTokenType: Option<string> := Some("Bearer")

  /** A `BlackListedTokens` document. */
  datatype BlacklistRecord = BlacklistRecord(token: Jwt, blackListedOn: Time)

  /** A new record; `black_listed_on` defaults to the creation time. */
  function NewBlacklistRecord(token: Jwt, now: Time): (r: BlacklistRecord)
    ensures r.token == token && r.blackListedOn == now
  {
    BlacklistRecord(token, now)
  }

  /** `find_one({"token": token})`: the first record whose token is exactly `token`. */
  function FindBlacklisted(records: seq<BlacklistRecord>, token: Jwt): (r: Option<nat>)
    ensures r.Some? ==> r.value < |records| && records[r.value].token == token
    ensures r.Some? ==> forall j :: 0 <= j < r.value ==> records[j].token != token
    ensures r.None? <==> forall i :: 0 <= i < |records| ==> records[i].token != token
  {
    if records == [] then None
    else if records[0].token == token then Some(0)
    else
      match FindBlacklisted(records[1..], token)
      case None => None
      case Some(i) => Some(i + 1)
  }

  /** `is_token_blacklisted`: true exactly when some record holds `token`. */
  function IsTokenBlacklisted(records: seq<BlacklistRecord>, token: Jwt): (b: bool)
    ensures b <==> exists i :: 0 <= i < |records| && records[i].token == token
  {
    FindBlacklisted(records, token).Some?
  }

  /** Appending a record (the only write to the collection) never unlists a
      token, and lists the appended one. */
  lemma {:induction false} BlacklistOnlyGrows(records: seq<BlacklistRecord>, r: BlacklistRecord, token: Jwt)
    ensures IsTokenBlacklisted(records, token) ==> IsTokenBlacklisted(records + [r], token)
    ensures IsTokenBlacklisted(records + [r], r.token)
  {
    var grown := records + [r];
    if IsTokenBlacklisted(records, token) {
      var i :| 0 <= i < |records| && records[i].token == token;
      assert grown[i] == records[i];
    }
    assert grown[|records|] == r;
  }
}
