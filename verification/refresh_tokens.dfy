/**
 * The refresh-token store: tokens are kept only as hashes, each with its
 * owner, expiry and a revoked flag. Minting, validating, revoking, and the
 * rotation the refresh endpoint performs. The hash function, the clock
 * and the random raw tokens are parameters.
 */
module RefreshTokens {
  import opened Wrappers
  import opened Text
  import opened Seqs
  import opened Http

  /** A stored token: its owner, the hash of the raw token, expiry time in seconds, revoked flag. */
  datatype Token = Token(userId: string, hash: string, expiresAt: int, revoked: bool)

  /** Carbon's `addMinutes`: the expiry in seconds. */
  function ExpiryAfter(now: int, minutes: int): int {
    now + minutes * 60
  }

  /**
   * Minting stores the hash of `raw` for the user, not revoked, expiring
   * `minutes` from now, and returns `raw` to be handed to the client.
   */
  function Mint(store: seq<Token>, userId: string, minutes: int, now: int, raw: string,
                hash: string -> string): (r: (seq<Token>, string))
    ensures r.1 == raw
    ensures r.0 == store + [Token(userId, hash(raw), ExpiryAfter(now, minutes), false)]
  {
    (store + [Token(userId, hash(raw), ExpiryAfter(now, minutes), false)], raw)
  }

  /** A token accepted for `h` at `now`: same hash, not revoked, expiring strictly later. */
  function Live(h: string, now: int): Token -> bool {
    (t: Token) => t.hash == h && !t.revoked && t.expiresAt > now
  }

  /**
   * Validation: the owner of the first live token with the hash of `raw`,
   * or none. A token whose expiry is exactly `now` is rejected.
   */
  function Validate(store: seq<Token>, raw: string, now: int, hash: string -> string): (r: Option<string>)
    ensures r.None? <==> forall j :: 0 <= j < |store| ==> !Live(hash(raw), now)(store[j])
    ensures r.Some? ==> exists j :: 0 <= j < |store| && Live(hash(raw), now)(store[j]) && store[j].userId == r.value
  {
    match FirstIndex(store, Live(hash(raw), now))
    case None => None
    case Some(i) => Some(store[i].userId)
  }

  function WithHash(h: string): Token -> bool {
    (t: Token) => t.hash == h
  }

  function OwnedBy(userId: string): Token -> bool {
    (t: Token) => t.userId == userId
  }

  /** Marks every token satisfying `p` revoked and leaves the rest as they were. */
  function RevokeWhere(store: seq<Token>, p: Token -> bool): (r: seq<Token>)
    ensures |r| == |store|
    ensures forall j :: 0 <= j < |store| ==>
      r[j] == if p(store[j]) then store[j].(revoked := true) else store[j]
  {
    if |store| == 0 then []
    else [if p(store[0]) then store[0].(revoked := true) else store[0]] + RevokeWhere(store[1..], p)
  }

  /**
   * Revoking a raw token revokes every stored token with its hash and
   * reports whether there was one. The update's row count is read as the
   * number of rows matched.
   */
  function Revoke(store: seq<Token>, raw: string, hash: string -> string): (r: (seq<Token>, bool))
    ensures r.0 == RevokeWhere(store, WithHash(hash(raw)))
    ensures r.1 <==> exists j :: 0 <= j < |store| && store[j].hash == hash(raw)
  {
    (RevokeWhere(store, WithHash(hash(raw))), Count(store, WithHash(hash(raw))) > 0)
  }

  /** Revoking a user's tokens: only that user's rows change, and their number is returned. */
  function RevokeAllForUser(store: seq<Token>, userId: string): (r: (seq<Token>, nat))
    ensures r.0 == RevokeWhere(store, OwnedBy(userId))
    ensures r.1 == Count(store, OwnedBy(userId))
    ensures forall j :: 0 <= j < |store| && store[j].userId != userId ==> r.0[j] == store[j]
    ensures forall j :: 0 <= j < |store| && store[j].userId == userId ==> r.0[j].revoked
  {
    (RevokeWhere(store, OwnedBy(userId)), Count(store, OwnedBy(userId)))
  }

  /** A freshly minted token validates for its owner exactly when it expires after now. */
  lemma MintThenValidate(store: seq<Token>, userId: string, minutes: int, now: int, raw: string,
                         hash: string -> string)
    requires forall j :: 0 <= j < |store| ==> store[j].hash != hash(raw)
    ensures Validate(Mint(store, userId, minutes, now, raw, hash).0, raw, now, hash) ==
      if minutes > 0 then Some(userId) else None
  {
    var after := Mint(store, userId, minutes, now, raw, hash).0;
    assert forall j :: 0 <= j < |store| ==> after[j] == store[j];
    var found := FirstIndex(after, Live(hash(raw), now));
    if minutes > 0 {
      assert Live(hash(raw), now)(after[|store|]);
      assert found == Some(|store|);
    } else {
      assert !Live(hash(raw), now)(after[|store|]);
    }
  }

  /** After a revoke, the raw token no longer validates, at any time. */
  lemma RevokedNeverValidates(store: seq<Token>, raw: string, now: int, hash: string -> string)
    ensures Validate(Revoke(store, raw, hash).0, raw, now, hash).None?
  {
    var after := Revoke(store, raw, hash).0;
    assert forall j :: 0 <= j < |after| ==> !Live(hash(raw), now)(after[j]);
  }

  /** The rotation's token lifetime: 20160 minutes, fourteen days. */
  const RotationMinutes: int := 20160

  const NoTokenMessage := "Refresh token not provided"
  const InvalidTokenMessage := "Invalid or expired refresh token"
  const NoUserMessage := "User not found"

  datatype RefreshResult = RefreshResult(code: int, message: Option<string>, newRaw: Option<string>, userId: Option<string>)

  /**
   * The refresh endpoint: a missing cookie and an invalid token are 401, an
   * unknown user 404; otherwise the old token is revoked and a new one is
   * minted for fourteen days and returned with status 200.
   */
  function Refresh(store: seq<Token>, users: set<string>, cookie: Option<string>, now: int, newRaw: string,
                   hash: string -> string): (r: (RefreshResult, seq<Token>))
    ensures r.0.code in {Ok, Unauthorized, NotFound}
    ensures r.0.code != Ok ==> r.1 == store && r.0.newRaw.None?
    ensures !(cookie.Some? && Truthy(cookie.value)) ==> r.0.code == Unauthorized
    ensures r.0.code == Ok ==>
      && cookie.Some? && Validate(store, cookie.value, now, hash).Some?
      && r.0.userId == Validate(store, cookie.value, now, hash)
      && r.0.userId.value in users
      && r.0.newRaw == Some(newRaw)
      && r.1 == Revoke(store, cookie.value, hash).0 +
                [Token(r.0.userId.value, hash(newRaw), ExpiryAfter(now, RotationMinutes), false)]
  {
    if !(cookie.Some? && Truthy(cookie.value)) then
      (RefreshResult(Unauthorized, Some(NoTokenMessage), None, None), store)
    else
      match Validate(store, cookie.value, now, hash)
      case None => (RefreshResult(Unauthorized, Some(InvalidTokenMessage), None, None), store)
      case Some(userId) =>
        if !Truthy(userId) then (RefreshResult(Unauthorized, Some(InvalidTokenMessage), None, None), store)
        else if userId !in users then (RefreshResult(NotFound, Some(NoUserMessage), None, None), store)
        else
          var (revoked, _) := Revoke(store, cookie.value, hash);
          var (minted, raw) := Mint(revoked, userId, RotationMinutes, now, newRaw, hash);
          (RefreshResult(Ok, None, Some(raw), Some(userId)), minted)
  }

  /** A token with another hash appended to a revoked store leaves the raw token dead. */
  lemma DeadAfterAppend(store: seq<Token>, raw: string, t: int, tok: Token, hash: string -> string)
    requires tok.hash != hash(raw)
    ensures Validate(Revoke(store, raw, hash).0 + [tok], raw, t, hash).None?
  {
    var revoked := Revoke(store, raw, hash).0;
    var after := revoked + [tok];
    assert forall j :: 0 <= j < |revoked| ==> after[j] == revoked[j];
    assert forall j :: 0 <= j < |after| ==> !Live(hash(raw), t)(after[j]);
  }

  /**
   * Rotation: after a successful refresh the old raw token is dead, and the
   * new one validates for the same user, provided the two hash apart.
   */
  lemma RotationRetiresOldToken(store: seq<Token>, users: set<string>, oldRaw: string, now: int, newRaw: string,
                                hash: string -> string)
    requires Refresh(store, users, Some(oldRaw), now, newRaw, hash).0.code == Ok
    requires hash(newRaw) != hash(oldRaw)
    requires forall j :: 0 <= j < |store| ==> store[j].hash != hash(newRaw)
    ensures var (res, after) := Refresh(store, users, Some(oldRaw), now, newRaw, hash);
      && Validate(after, oldRaw, now, hash).None?
      && Validate(after, newRaw, now, hash) == res.userId
  {
    var (res, after) := Refresh(store, users, Some(oldRaw), now, newRaw, hash);
    var revoked := Revoke(store, oldRaw, hash).0;
    var tok := Token(res.userId.value, hash(newRaw), ExpiryAfter(now, RotationMinutes), false);
    DeadAfterAppend(store, oldRaw, now, tok, hash);
    assert forall j :: 0 <= j < |revoked| ==> revoked[j].hash != hash(newRaw);
    MintThenValidate(revoked, res.userId.value, RotationMinutes, now, newRaw, hash);
  }

  /** Replaying a rotated-out token is refused with 401. */
  lemma ReplayRefused(store: seq<Token>, users: set<string>, oldRaw: string, now: int, newRaw: string,
                      later: int, another: string, hash: string -> string)
    requires Refresh(store, users, Some(oldRaw), now, newRaw, hash).0.code == Ok
    requires hash(newRaw) != hash(oldRaw)
    ensures var after := Refresh(store, users, Some(oldRaw), now, newRaw, hash).1;
      Refresh(after, users, Some(oldRaw), later, another, hash).0.code == Unauthorized
  {
    var (res, after) := Refresh(store, users, Some(oldRaw), now, newRaw, hash);
    var tok := Token(res.userId.value, hash(newRaw), ExpiryAfter(now, RotationMinutes), false);
    DeadAfterAppend(store, oldRaw, later, tok, hash);
  }
}
