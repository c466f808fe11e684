/**
 Access tokens are stateless: they die at `exp`, or earlier by a revocation key
 that Redis drops after its TTL. Expiry is in whole seconds, the clock in
 milliseconds, so the floor in the issuing arithmetic matters.
 */
module AccessRevocation {
  import opened Prelude

  datatype Scope = Tenant | Platform

  datatype TtlConfig = TtlConfig(access: nat, platformAccess: nat)

  /** Revocation keys with the instant at which Redis drops them. */
  type Keys = map<Uuid, Time>

  function Max(a: int, b: int): int {
    if a < b then b else a
  }

  /** The `exp` claim, in seconds, of a token issued at millisecond `now`. */
  function Exp(cfg: TtlConfig, scope: Scope, now: Time): int {
    now / 1000 + if scope.Platform? then cfg.platformAccess else cfg.access
  }

  /** The lifetime is the one of the scope, less than a second short of it. */
  lemma ExpiryIsLifetimeFloored(cfg: TtlConfig, scope: Scope, now: Time)
    ensures var life := match scope case Tenant => cfg.access case Platform => cfg.platformAccess;
            now - 1000 < 1000 * (Exp(cfg, scope, now) - life) <= now
  {
  }

  /** Section 4.1.4 of RFC 7519: not accepted on or after `exp`. */
  predicate Expired(exp: int, now: Time) {
    exp <= now / 1000
  }

  predicate Live(keys: Keys, jti: Uuid, now: Time) {
    jti in keys && now < keys[jti]
  }

  function SetEx(keys: Keys, jti: Uuid, ttlSeconds: int, now: Time): Keys {
    keys[jti := now + 1000 * Max(1, ttlSeconds)]
  }

  /** The request guard verifies `exp` at one instant and looks the key up at a later one. */
  predicate GuardAdmits(keys: Keys, jti: Uuid, exp: int, verifiedAt: Time, lookedUpAt: Time) {
    !Expired(exp, verifiedAt) && !Live(keys, jti, lookedUpAt)
  }

  /** A key set at `revokedAt` leaves no instant uncovered if and only if it outlives `exp`. */
  lemma NoGapIff(exp: int, revokedAt: Time, ttlSeconds: int)
    ensures var dropped := revokedAt + 1000 * Max(1, ttlSeconds);
            (forall t: Time :: revokedAt <= t ==> t < dropped || Expired(exp, t)) <==> 1000 * exp <= dropped
  {
    var dropped := revokedAt + 1000 * Max(1, ttlSeconds);
    if 1000 * exp > dropped {
      assert !Expired(exp, dropped);
    }
  }

  datatype Revocation = Revocation(jti: Uuid, now: Time)

  /** The keys after further logouts, each revoking with the access TTL. */
  function RevokeAllIn(keys: Keys, cfg: TtlConfig, rs: seq<Revocation>): Keys
    decreases |rs|
  {
    if rs == [] then keys else RevokeAllIn(SetEx(keys, rs[0].jti, cfg.access, rs[0].now), cfg, rs[1..])
  }

  lemma {:induction false} LaterRevocationsOnlyExtend(keys: Keys, cfg: TtlConfig, rs: seq<Revocation>, jti: Uuid,
                                                      since: Time)
    requires jti in keys && keys[jti] >= since + 1000 * Max(1, cfg.access)
    requires forall r :: r in rs ==> since <= r.now
    ensures jti in RevokeAllIn(keys, cfg, rs)
    ensures RevokeAllIn(keys, cfg, rs)[jti] >= since + 1000 * Max(1, cfg.access)
    decreases |rs|
  {
    if rs != [] {
      LaterRevocationsOnlyExtend(SetEx(keys, rs[0].jti, cfg.access, rs[0].now), cfg, rs[1..], jti, since);
    }
  }

  /**
   No revocation gap: a tenant token issued at any millisecond and revoked at any later one is, at every instant
   after that and whatever is revoked meanwhile, covered by a live key or expired. A request that still gets through
   the guard verified before `exp` and looked the key up at or after it.
   */
  lemma NoRevocationGap(keys: Keys, cfg: TtlConfig, jti: Uuid, issuedAt: Time, revokedAt: Time, later: seq<Revocation>)
    requires issuedAt <= revokedAt && forall r :: r in later ==> revokedAt <= r.now
    ensures var exp := Exp(cfg, Tenant, issuedAt);
            var after := RevokeAllIn(SetEx(keys, jti, cfg.access, revokedAt), cfg, later);
            && (forall t: Time :: revokedAt <= t ==> Live(after, jti, t) || Expired(exp, t))
            && (forall a: Time, b: Time :: revokedAt <= b && GuardAdmits(after, jti, exp, a, b) ==> a < 1000 * exp <= b)
  {
    var exp := Exp(cfg, Tenant, issuedAt);
    LaterRevocationsOnlyExtend(SetEx(keys, jti, cfg.access, revokedAt), cfg, later, jti, revokedAt);
    assert 1000 * exp <= issuedAt + 1000 * cfg.access;
  }

  /**
   The two instants of the guard do matter: the request is admitted with the revoked token exactly if `exp` was
   verified before it was reached and the key looked up once Redis had dropped it - which is not before `exp`.
   */
  lemma RevokedRequestAdmittedIff(keys: Keys, cfg: TtlConfig, jti: Uuid, issuedAt: Time, revokedAt: Time,
                                  later: seq<Revocation>,
                                  verifiedAt: Time, lookedUpAt: Time)
    requires issuedAt <= revokedAt && forall r :: r in later ==> revokedAt <= r.now
    ensures var exp := Exp(cfg, Tenant, issuedAt);
            var after := RevokeAllIn(SetEx(keys, jti, cfg.access, revokedAt), cfg, later);
            && jti in after && 1000 * exp <= after[jti]
            && (GuardAdmits(after, jti, exp, verifiedAt, lookedUpAt) <==>
                verifiedAt < 1000 * exp && after[jti] <= lookedUpAt)
  {
    LaterRevocationsOnlyExtend(SetEx(keys, jti, cfg.access, revokedAt), cfg, later, jti, revokedAt);
    assert 1000 * Exp(cfg, Tenant, issuedAt) <= issuedAt + 1000 * cfg.access;
  }

  class TokenRevocationService {
    var keys: Keys

    constructor ()
      ensures keys == map[]
    {
      keys := map[];
    }

    method Revoke(jti: Uuid, ttlSeconds: int, now: Time)
      modifies this
      ensures keys == SetEx(old(keys), jti, ttlSeconds, now)
      ensures keys == old(keys)[jti := now + 1000 * if ttlSeconds < 1 then 1 else ttlSeconds]
      ensures Live(keys, jti, now)
    {
      keys := keys[jti := now + 1000 * Max(1, ttlSeconds)];
    }

    method IsRevoked(jti: Uuid, now: Time) returns (revoked: bool)
      ensures revoked <==> jti in keys && now < keys[jti]
    {
      revoked := jti in keys && now < keys[jti];
    }

    method RevokeMany(jtis: seq<Uuid>, ttlSeconds: int, now: Time)
      modifies this
      ensures keys.Keys == old(keys).Keys + set j | j in jtis
      ensures forall j :: j in keys ==> keys[j] == if j in jtis then now + 1000 * Max(1, ttlSeconds) else old(keys)[j]
    {
      if |jtis| == 0 {
        return;
      }
      for i := 0 to |jtis|
        invariant keys.Keys == old(keys).Keys + set j | j in jtis[..i]
        invariant forall j :: j in keys ==>
            keys[j] == if j in jtis[..i] then now + 1000 * Max(1, ttlSeconds) else old(keys)[j]
      {
        keys := keys[jtis[i] := now + 1000 * Max(1, ttlSeconds)];
        assert jtis[..i + 1] == jtis[..i] + [jtis[i]];
      }
      assert jtis[..|jtis|] == jtis;
    }
  }
}
