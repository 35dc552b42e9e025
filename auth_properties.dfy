/**
 * Properties of the rotation protocol, stated over the step functions of
 * `Auth`: rows only ever move towards retirement, a consumed token can
 * never rotate again, a violation kills its whole family for good, logout
 * narrows to one row, and at most one row per family is live.
 */
module AuthProperties {
  import opened Wrappers
  import opened RefreshTokens
  import opened Auth

  /** Row `b` is row `a` later on: only the two flags may change, and neither is ever cleared. */
  predicate Succeeds(a: RefreshToken, b: RefreshToken) {
    && b.(revoked := a.revoked, used := a.used) == a
    && (a.revoked ==> b.revoked)
    && (a.used ==> b.used)
  }

  /** Store `t` is store `s` later on: no row disappears and every row only moves towards retirement. */
  ghost predicate Evolves(s: Store, t: Store) {
    s.Keys <= t.Keys && forall j :: j in s ==> Succeeds(s[j], t[j])
  }

  lemma EvolvesTransitive(s: Store, t: Store, u: Store)
    requires Evolves(s, t) && Evolves(t, u)
    ensures Evolves(s, u)
  {
  }

  /** Revoking a family twice is revoking it once. */
  lemma RevokedFamilyIdempotent(s: Store, fam: string)
    ensures RevokedFamily(RevokedFamily(s, fam), fam) == RevokedFamily(s, fam)
  {
  }

  /** Revoking a family leaves every other family exactly as it was. */
  lemma RevokedFamilyScope(s: Store, fam: string)
    ensures forall j :: j in s && s[j].familyId != fam ==> RevokedFamily(s, fam)[j] == s[j]
    ensures forall j :: j in FamilyRecords(s, fam) ==> RevokedFamily(s, fam)[j].revoked
  {
  }

  /** The operations a client can drive, with the ids `randomUUID` would draw for them. */
  datatype Op =
    | LoginOp(email: string, password: string, familyId: string, jti: string, now: int)
    | RegisterOp(email: string, password: string, name: string, newUserId: string, role: string,
                 familyId: string, jti: string, now: int)
    | RefreshOp(token: string, now: int, newJti: string)
    | LogoutOp(token: string, now: int)

  /** The ids drawn for an operation are fresh in the state it runs in. */
  predicate Admissible(st: AuthState, op: Op) {
    match op
    case LoginOp(_, _, fam, jti, _) => FreshJti(st.store, jti) && FreshFamily(st.store, fam)
    case RegisterOp(_, _, _, _, _, fam, jti, _) => FreshJti(st.store, jti) && FreshFamily(st.store, fam)
    case RefreshOp(_, _, jti) => FreshJti(st.store, jti)
    case LogoutOp(_, _) => true
  }

  function Apply(env: Env, st: AuthState, op: Op): AuthState
    requires Admissible(st, op)
  {
    match op
    case LoginOp(email, password, fam, jti, now) => LoginStep(env, st, email, password, fam, jti, now).1
    case RegisterOp(email, password, name, uid, role, fam, jti, now) =>
      RegisterStep(env, st, email, password, name, uid, role, fam, jti, now).1
    case RefreshOp(token, now, jti) => AuthState(st.users, RefreshStep(env, st.store, token, now, jti).1)
    case LogoutOp(token, now) => AuthState(st.users, LogoutStep(env, st.store, token, now))
  }

  /** Every operation of the run finds its ids fresh. */
  ghost predicate AdmissibleRun(env: Env, st: AuthState, ops: seq<Op>)
    decreases |ops|
  {
    ops == [] || (Admissible(st, ops[0]) && AdmissibleRun(env, Apply(env, st, ops[0]), ops[1..]))
  }

  ghost function Run(env: Env, st: AuthState, ops: seq<Op>): AuthState
    requires AdmissibleRun(env, st, ops)
    decreases |ops|
  {
    if ops == [] then st else Run(env, Apply(env, st, ops[0]), ops[1..])
  }

  /** Every single operation keeps the unique index and only moves rows towards retirement. */
  lemma ApplyEvolves(env: Env, st: AuthState, op: Op)
    requires KeyedByJti(st.store) && Admissible(st, op)
    ensures KeyedByJti(Apply(env, st, op).store)
    ensures Evolves(st.store, Apply(env, st, op).store)
  {
    match op
    case LoginOp(email, password, fam, jti, now) =>
      LoginEvolves(env, st, email, password, fam, jti, now);
    case RegisterOp(email, password, name, uid, role, fam, jti, now) =>
      RegisterEvolves(env, st, email, password, name, uid, role, fam, jti, now);
    case RefreshOp(token, now, jti) =>
      RefreshEvolves(env, st.store, token, now, jti);
    case LogoutOp(token, now) =>
      LogoutEvolves(env, st.store, token, now);
  }

  lemma LoginEvolves(env: Env, st: AuthState, email: string, password: string, fam: string, jti: string, now: int)
    requires KeyedByJti(st.store) && FreshJti(st.store, jti) && FreshFamily(st.store, fam)
    ensures var t := LoginStep(env, st, email, password, fam, jti, now).1.store;
      KeyedByJti(t) && Evolves(st.store, t)
  {
  }

  lemma RegisterEvolves(env: Env, st: AuthState, email: string, password: string, name: string, uid: string,
                        role: string, fam: string, jti: string, now: int)
    requires KeyedByJti(st.store) && FreshJti(st.store, jti) && FreshFamily(st.store, fam)
    ensures var t := RegisterStep(env, st, email, password, name, uid, role, fam, jti, now).1.store;
      KeyedByJti(t) && Evolves(st.store, t)
  {
  }

  lemma RefreshEvolves(env: Env, s: Store, token: string, now: int, jti: string)
    requires KeyedByJti(s) && FreshJti(s, jti)
    ensures var t := RefreshStep(env, s, token, now, jti).1;
      KeyedByJti(t) && Evolves(s, t)
  {
    var c := CheckPresented(env, token, now);
    if c.Ok? && !Anomalous(Lookup(s, c.value.jti), c.value.sub, now) {
      assert s[c.value.jti].jti == c.value.jti;
    }
  }

  lemma LogoutEvolves(env: Env, s: Store, token: string, now: int)
    requires KeyedByJti(s)
    ensures var t := LogoutStep(env, s, token, now);
      KeyedByJti(t) && Evolves(s, t)
  {
  }

  /** Over any run: the unique index holds throughout and no retired row is ever revived. */
  lemma {:induction false} RunEvolves(env: Env, st: AuthState, ops: seq<Op>)
    requires KeyedByJti(st.store) && AdmissibleRun(env, st, ops)
    ensures KeyedByJti(Run(env, st, ops).store)
    ensures Evolves(st.store, Run(env, st, ops).store)
    decreases |ops|
  {
    if ops != [] {
      var next := Apply(env, st, ops[0]);
      ApplyEvolves(env, st, ops[0]);
      RunEvolves(env, next, ops[1..]);
      EvolvesTransitive(st.store, next.store, Run(env, next, ops[1..]).store);
    }
  }

  /** A user's rows, and a family's, are never lost: over any run both indexes only grow. */
  lemma RunKeepsIndexes(env: Env, st: AuthState, ops: seq<Op>, userId: string, fam: string)
    requires KeyedByJti(st.store) && AdmissibleRun(env, st, ops)
    ensures UserRecords(st.store, userId) <= UserRecords(Run(env, st, ops).store, userId)
    ensures FamilyRecords(st.store, fam) <= FamilyRecords(Run(env, st, ops).store, fam)
  {
    RunEvolves(env, st, ops);
  }

  /** A token names the same claims whenever it verifies, as a signed JWT does. */
  ghost predicate PayloadStable(c: Codec) {
    forall t, n1, n2 :: c.verify(t, n1).Verified? && c.verify(t, n2).Verified? ==> c.verify(t, n1).payload == c.verify(t, n2).payload
  }

  /** A presented token whose row is already retired is rejected as invalidated, and its family is revoked. */
  lemma RetiredRowRejected(env: Env, s: Store, token: string, now: int, newJti: string)
    requires newJti !in s
    requires var c := CheckPresented(env, token, now); c.Ok? && c.value.jti in s && !Live(s[c.value.jti])
    ensures RefreshStep(env, s, token, now, newJti) == (Err(RefreshTokenInvalidated), RevokedFamily(s, CheckPresented(env, token, now).value.fam))
  {
  }

  /**
   * Single use: once a refresh token has rotated, presenting it again, at any
   * later time and after any run of other operations, never succeeds.
   */
  lemma SingleUse(env: Env, st: AuthState, token: string, now: int, newJti: string,
                  ops: seq<Op>, later: int, retryJti: string)
    requires PayloadStable(env.codec)
    requires KeyedByJti(st.store) && newJti !in st.store
    requires RefreshStep(env, st.store, token, now, newJti).0.Ok?
    requires AdmissibleRun(env, AuthState(st.users, RefreshStep(env, st.store, token, now, newJti).1), ops)
    requires retryJti !in Run(env, AuthState(st.users, RefreshStep(env, st.store, token, now, newJti).1), ops).store
    ensures var fin := Run(env, AuthState(st.users, RefreshStep(env, st.store, token, now, newJti).1), ops).store;
              !RefreshStep(env, fin, token, later, retryJti).0.Ok?
  {
    var p := CheckPresented(env, token, now).value;
    var st1 := AuthState(st.users, RefreshStep(env, st.store, token, now, newJti).1);
    assert st1.store[p.jti].used;
    assert KeyedByJti(st1.store) by {
      assert st.store[p.jti].jti == p.jti;
    }
    RunEvolves(env, st1, ops);
    var fin := Run(env, st1, ops).store;
    assert fin[p.jti].used;
    var c := CheckPresented(env, token, later);
    if c.Ok? {
      assert c.value == p;
    }
  }

  /**
   * Blast radius: after a refresh is rejected as invalidated or as reuse, no
   * token whose row was then in the named family can ever rotate again,
   * whatever runs in between.
   */
  lemma ViolationKillsFamily(env: Env, st: AuthState, token: string, now: int, newJti: string,
                             ops: seq<Op>, other: string, later: int, otherJti: string)
    requires KeyedByJti(st.store) && newJti !in st.store
    requires RefreshStep(env, st.store, token, now, newJti).0 in {Err(RefreshTokenInvalidated), Err(RefreshTokenReuseDetected)}
    requires AdmissibleRun(env, AuthState(st.users, RefreshStep(env, st.store, token, now, newJti).1), ops)
    requires otherJti !in Run(env, AuthState(st.users, RefreshStep(env, st.store, token, now, newJti).1), ops).store
    requires var c := CheckPresented(env, other, later);
               c.Ok? && c.value.jti in st.store && st.store[c.value.jti].familyId == CheckPresented(env, token, now).value.fam
    ensures var fin := Run(env, AuthState(st.users, RefreshStep(env, st.store, token, now, newJti).1), ops).store;
              RefreshStep(env, fin, other, later, otherJti).0 == Err(RefreshTokenInvalidated)
  {
    var fam := CheckPresented(env, token, now).value.fam;
    var st1 := AuthState(st.users, RefreshStep(env, st.store, token, now, newJti).1);
    assert st1.store == RevokedFamily(st.store, fam);
    var j := CheckPresented(env, other, later).value.jti;
    assert j in FamilyRecords(st.store, fam);
    assert st1.store[j].revoked;
    RunEvolves(env, st1, ops);
    var fin := Run(env, st1, ops).store;
    assert fin[j].revoked;
  }

  /** After logout, the token that was logged out can never rotate. */
  lemma LogoutRetires(env: Env, s: Store, token: string, now: int, later: int, newJti: string)
    requires PayloadStable(env.codec)
    requires token != "" && env.codec.verify(token, now).Verified?
    requires env.codec.verify(token, now).payload.jti in s
    requires newJti !in s
    ensures !RefreshStep(env, LogoutStep(env, s, token, now), token, later, newJti).0.Ok?
  {
    var p := env.codec.verify(token, now).payload;
    var c := CheckPresented(env, token, later);
    if c.Ok? {
      assert c.value == p;
      assert LogoutTarget(env, token, now) == Some(p.jti);
    }
  }

  /** No two distinct rows of one family are live at once. */
  ghost predicate OneLivePerFamily(s: Store) {
    forall a, b :: a in s && b in s && Live(s[a]) && Live(s[b]) && s[a].familyId == s[b].familyId ==> a == b
  }

  /**
   * What the code takes on trust: the family claim of a presented token is
   * the family of its row. Signing guarantees it for tokens the service
   * issued; refresh itself never compares the two.
   */
  ghost predicate ClaimMatchesRow(env: Env, s: Store, token: string, now: int) {
    var c := CheckPresented(env, token, now);
    c.Ok? && c.value.jti in s ==> s[c.value.jti].familyId == c.value.fam
  }

  /** Retiring rows, and changing nothing else about the live ones, keeps at most one live row per family. */
  lemma RetiringKeepsOneLive(s: Store, t: Store)
    requires OneLivePerFamily(s) && t.Keys <= s.Keys
    requires forall j :: j in t && Live(t[j]) ==> Live(s[j]) && t[j].familyId == s[j].familyId
    ensures OneLivePerFamily(t)
  {
  }

  /** A new live row in a family no row belongs to keeps at most one live row per family. */
  lemma NewFamilyKeepsOneLive(s: Store, t: Store, jti: string)
    requires OneLivePerFamily(s) && jti !in s
    requires t.Keys == s.Keys + {jti} && forall j :: j in s ==> t[j] == s[j]
    requires FreshFamily(s, t[jti].familyId)
    ensures OneLivePerFamily(t)
  {
  }

  /** Retiring the live row of a family while adding its successor in that family keeps at most one live row per family. */
  lemma SuccessionKeepsOneLive(s: Store, t: Store, prev: string, next: string)
    requires OneLivePerFamily(s) && prev in s && Live(s[prev]) && next !in s
    requires t.Keys == s.Keys + {next} && !Live(t[prev]) && t[next].familyId == s[prev].familyId
    requires forall j :: j in s && j != prev ==> t[j] == s[j]
    ensures OneLivePerFamily(t)
  {
  }

  /** Refresh keeps at most one live row per family, provided the presented claim names its row's family. */
  lemma RefreshKeepsOneLive(env: Env, s: Store, token: string, now: int, newJti: string)
    requires OneLivePerFamily(s) && newJti !in s
    requires ClaimMatchesRow(env, s, token, now)
    ensures OneLivePerFamily(RefreshStep(env, s, token, now, newJti).1)
  {
    var t := RefreshStep(env, s, token, now, newJti).1;
    if Rotatable(env, s, token, now) {
      var p := CheckPresented(env, token, now).value;
      SuccessionKeepsOneLive(s, t, p.jti, newJti);
    } else {
      RetiringKeepsOneLive(s, t);
    }
  }

  /** Each operation keeps at most one live row per family (refresh under the trust above). */
  lemma ApplyKeepsOneLive(env: Env, st: AuthState, op: Op)
    requires Admissible(st, op) && OneLivePerFamily(st.store)
    requires op.RefreshOp? ==> ClaimMatchesRow(env, st.store, op.token, op.now)
    ensures OneLivePerFamily(Apply(env, st, op).store)
  {
    var t := Apply(env, st, op).store;
    match op
    case LoginOp(email, password, fam, jti, now) =>
      if t != st.store {
        NewFamilyKeepsOneLive(st.store, t, jti);
      }
    case RegisterOp(email, password, name, uid, role, fam, jti, now) =>
      if t != st.store {
        NewFamilyKeepsOneLive(st.store, t, jti);
      }
    case RefreshOp(token, now, jti) =>
      RefreshKeepsOneLive(env, st.store, token, now, jti);
    case LogoutOp(token, now) =>
      RetiringKeepsOneLive(st.store, t);
  }

  /** A token that matches its live, unexpired row rotates: refresh accepts every token it should. */
  lemma RotationSucceeds(env: Env, s: Store, token: string, now: int, newJti: string)
    requires Lawful(env.hasher) && newJti !in s
    requires token != "" && env.codec.verify(token, now).Verified?
    requires var p := env.codec.verify(token, now).payload;
               && WellFormed(p) && p.jti in s && Live(s[p.jti])
               && s[p.jti].userId == p.sub && now <= s[p.jti].expiresAt
               && s[p.jti].tokenHash == env.hasher.bcryptHash(Fingerprint(env, token))
    ensures RefreshStep(env, s, token, now, newJti).0.Ok?
  {
  }

  /**
   * From a live row for the payload `p`: its token rotates once, a replay of
   * it is invalidated and revokes the family, and the rotated token is then
   * refused as well.
   */
  lemma RotateThenReplay(env: Env, s: Store, p: JwtPayload, j2: string, j3: string, j4: string, t2: int, t3: int, t4: int)
    requires Lawful(env.hasher)
    requires var r1 := env.codec.signRefresh(p, env.cfg.refreshTtlSec);
               r1 != "" && env.codec.verify(r1, t2) == Verified(p) && env.codec.verify(r1, t3) == Verified(p)
    requires var p2 := JwtPayload(p.sub, p.email, p.role, j2, p.fam);
             var r2 := env.codec.signRefresh(p2, env.cfg.refreshTtlSec);
               r2 != "" && env.codec.verify(r2, t4) == Verified(p2)
    requires WellFormed(p) && p.jti in s && Live(s[p.jti]) && s[p.jti].userId == p.sub && t2 <= s[p.jti].expiresAt
    requires s[p.jti].tokenHash == env.hasher.bcryptHash(Fingerprint(env, env.codec.signRefresh(p, env.cfg.refreshTtlSec)))
    requires FreshJti(s, j2) && j3 !in s && j3 != j2 && j4 !in s && j4 != j2 && j4 != j3
    ensures var r1 := env.codec.signRefresh(p, env.cfg.refreshTtlSec);
            var (second, s2) := RefreshStep(env, s, r1, t2, j2);
            && second.Ok? && second.value.familyId == p.fam && second.value.jti == j2 && p.jti in s2 && s2[p.jti].used
            && j3 !in s2
            && var (replay, s3) := RefreshStep(env, s2, r1, t3, j3);
            && replay == Err(RefreshTokenInvalidated) && s3 == RevokedFamily(s2, p.fam)
            && j4 !in s3
            && var (last, s4) := RefreshStep(env, s3, second.value.refreshToken, t4, j4);
            && last == Err(RefreshTokenInvalidated) && s4 == s3
  {
    var r1 := env.codec.signRefresh(p, env.cfg.refreshTtlSec);
    assert env.codec.verify(r1, t2) == Verified(p);
    RotationSucceeds(env, s, r1, t2, j2);
    var (second, s2) := RefreshStep(env, s, r1, t2, j2);
    assert s2[p.jti].used;
    assert env.codec.verify(r1, t3) == Verified(p);
    RetiredRowRejected(env, s2, r1, t3, j3);
    var (replay, s3) := RefreshStep(env, s2, r1, t3, j3);
    var p2 := JwtPayload(p.sub, p.email, p.role, j2, p.fam);
    assert second.value.refreshToken == env.codec.signRefresh(p2, env.cfg.refreshTtlSec);
    assert env.codec.verify(second.value.refreshToken, t4) == Verified(p2);
    assert s3[j2].revoked;
    RetiredRowRejected(env, s3, second.value.refreshToken, t4, j4);
    RevokedFamilyIdempotent(s2, p.fam);
  }

  /**
   * The replay scenario: log in, rotate once, replay the first token (it is
   * invalidated and its family revoked), then present the second token, which
   * never rotated but is now refused because its family is dead.
   */
  lemma ReplayScenario(env: Env, st: AuthState, email: string, password: string,
                       fam: string, j1: string, j2: string, j3: string, j4: string,
                       t1: int, t2: int, t3: int, t4: int)
    requires Lawful(env.hasher)
    requires FindUser(st.users, ByEmail, email).Some?
    requires var u := FindUser(st.users, ByEmail, email).value;
             var p1 := JwtPayload(u.id, u.email, u.role, j1, fam);
             var r1 := env.codec.signRefresh(p1, env.cfg.refreshTtlSec);
               r1 != "" && env.codec.verify(r1, t2) == Verified(p1) && env.codec.verify(r1, t3) == Verified(p1)
    requires var u := FindUser(st.users, ByEmail, email).value;
             var p2 := JwtPayload(u.id, u.email, u.role, j2, fam);
             var r2 := env.codec.signRefresh(p2, env.cfg.refreshTtlSec);
               r2 != "" && env.codec.verify(r2, t4) == Verified(p2)
    requires KeyedByJti(st.store) && FreshFamily(st.store, fam)
    requires FreshJti(st.store, j1) && j2 != j1 && FreshJti(st.store, j2) && j3 !in st.store && j3 != j1 && j3 != j2
    requires j4 !in st.store && j4 !in {j1, j2, j3}
    requires env.hasher.bcryptCompare(password, FindUser(st.users, ByEmail, email).value.password)
    requires FindUser(st.users, ByEmail, email).value.id != ""
    requires t2 <= t1 + env.cfg.refreshTtlSec * 1000
    ensures var (login, s1) := LoginStep(env, st, email, password, fam, j1, t1);
            && login.Ok? && login.value.session.familyId == fam && login.value.session.jti == j1
            && j2 !in s1.store
            && var (second, s2) := RefreshStep(env, s1.store, login.value.session.refreshToken, t2, j2);
            && second.Ok? && second.value.familyId == fam && second.value.jti == j2 && j1 in s2 && s2[j1].used
            && j3 !in s2
            && var (replay, s3) := RefreshStep(env, s2, login.value.session.refreshToken, t3, j3);
            && replay == Err(RefreshTokenInvalidated) && s3 == RevokedFamily(s2, fam)
            && j4 !in s3
            && var (last, s4) := RefreshStep(env, s3, second.value.refreshToken, t4, j4);
            && last == Err(RefreshTokenInvalidated) && s4 == s3
  {
    var u := FindUser(st.users, ByEmail, email).value;
    var (login, s1) := LoginStep(env, st, email, password, fam, j1, t1);
    var p1 := JwtPayload(u.id, u.email, u.role, j1, fam);
    var m1 := MintRefreshToken(env, u.id, u.email, u.role, fam, j1, t1);
    assert login.Ok? && login.value.session.refreshToken == m1.token && s1.store == Insert(st.store, m1.record);
    RotateThenReplay(env, s1.store, p1, j2, j3, j4, t2, t3, t4);
  }
}
