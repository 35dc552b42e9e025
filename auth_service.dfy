/**
 * The refresh-token rotation protocol of `AuthService`: login and
 * registration start a token family, refresh consumes one generation and
 * issues the next, any anomaly on refresh revokes the whole family, and
 * logout retires exactly the presented token.
 *
 * The pure `...Step` functions state what each operation does to the
 * users and the token store; `AuthService` is the service itself, whose
 * methods change its fields statement by statement and are proved to agree
 * with the step functions. JWT signing and verification, SHA-256 and bcrypt
 * are collaborators passed in as function values (`Codec`, `Hasher`);
 * `randomUUID` is an id parameter that is fresh in the store; `Date.now()`
 * is the `now` parameter, in milliseconds.
 */
module Auth {
  import opened Wrappers
  import opened RefreshTokens

  /** The claims of a token. An absent claim is "": the code only ever tests claims for truthiness. */
  datatype JwtPayload = JwtPayload(sub: string, email: string, role: string, jti: string, fam: string)

  /** What `jwtService.verifyAsync` does with a token: returns its payload, or throws TokenExpiredError or another error. */
  datatype Verification = Verified(payload: JwtPayload) | Expired | Invalid

  /**
   * The JWT library with the refresh and access secrets already bound:
   * `verify(token, now)` is verification with the refresh secret at time `now`,
   * `verifyIgnoringExpiry` the same with `ignoreExpiration: true`,
   * `signAccess`/`signRefresh` sign a payload for the given lifetime in seconds.
   */
  datatype Codec = Codec(
    verify: (string, int) -> Verification,
    verifyIgnoringExpiry: string -> Option<JwtPayload>,
    signAccess: (JwtPayload, int) -> string,
    signRefresh: (JwtPayload, int) -> string)

  /** SHA-256 as a hex digest, and bcrypt's salted `hash` and `compare`. */
  datatype Hasher = Hasher(
    sha256Hex: string -> string,
    bcryptHash: string -> string,
    bcryptCompare: (string, string) -> bool)

  /** The law bcrypt obeys: a value compares equal to its own hash. */
  ghost predicate Lawful(h: Hasher) {
    forall x :: h.bcryptCompare(x, h.bcryptHash(x))
  }

  /** `JWT_EXPIRATION` and `JWT_REFRESH_TTL_SEC`, in seconds. */
  datatype Config = Config(accessTtlSec: int, refreshTtlSec: int)

  /** The lifetimes used when the environment sets neither variable: 15 minutes and 30 days. */
  const DefaultConfig: Config := Config(900, 60 * 60 * 24 * 30)

  datatype Env = Env(codec: Codec, hasher: Hasher, cfg: Config)

  /** A user as `UsersService` returns it; `password` is the bcrypt hash. */
  datatype User = User(id: string, email: string, name: string, password: string, role: string)

  /** The user fields that login and registration return. */
  datatype Profile = Profile(id: string, email: string, name: string, role: string)

  datatype AuthState = AuthState(users: seq<User>, store: Store)

  /** The exceptions the service raises, one per distinct message. */
  datatype AuthError =
    | InvalidCredentials          // 401 'Invalid credentials'
    | EmailAlreadyExists          // 401 'Email already exists'
    | MissingRefreshToken         // 401 'Missing refresh token'
    | InvalidRefreshToken         // 401 'Invalid refresh token'
    | MalformedRefreshToken       // 401 'Malformed refresh token'
    | RefreshTokenInvalidated     // 403 'Refresh token invalidated'
    | RefreshTokenReuseDetected   // 403 'Refresh token reuse detected'

  /** The token pair a successful login, registration or refresh returns. */
  datatype Session = Session(accessToken: string, refreshToken: string, familyId: string, jti: string)

  datatype SignIn = SignIn(user: Profile, session: Session)

  datatype Minted = Minted(token: string, record: RefreshToken)

  /** `randomUUID()` for a jti: non-empty and not yet in the table. */
  predicate FreshJti(s: Store, jti: string) {
    jti != "" && jti !in s
  }

  /** `randomUUID()` for a family id: non-empty and shared by no row. */
  predicate FreshFamily(s: Store, fam: string) {
    fam != "" && forall j :: j in s ==> s[j].familyId != fam
  }

  function ProfileOf(u: User): Profile {
    Profile(u.id, u.email, u.name, u.role)
  }

  /** The two lookups of `UsersService` the service makes: `findByEmail` and `findOne` (by id). */
  datatype UserKey = ByEmail | ById

  function KeyOf(u: User, field: UserKey): string {
    match field
    case ByEmail => u.email
    case ById => u.id
  }

  /** `usersService.findByEmail` / `findOne`: the first user with that email or id. */
  function FindUser(users: seq<User>, field: UserKey, key: string): (r: Option<User>)
    ensures r.Some? ==> r.value in users && KeyOf(r.value, field) == key
    ensures r.None? <==> forall i :: 0 <= i < |users| ==> KeyOf(users[i], field) != key
  {
    if users == [] then None
    else if KeyOf(users[0], field) == key then Some(users[0])
    else FindUser(users[1..], field, key)
  }

  /** The `fingerprint` of a raw token: its SHA-256 hex digest. */
  function Fingerprint(env: Env, token: string): string {
    env.hasher.sha256Hex(token)
  }

  /** The access token for a user: its claims carry no jti and no family, it lives `accessTtlSec`. */
  function AccessToken(env: Env, userId: string, email: string, role: string): string {
    env.codec.signAccess(JwtPayload(userId, email, role, "", ""), env.cfg.accessTtlSec)
  }

  /**
   * `issueRefreshToken` without the write: the signed token and the row that
   * describes it. The row is live, expires `refreshTtlSec` seconds after `now`,
   * and its hash accepts exactly the token it was minted with.
   */
  function MintRefreshToken(env: Env, userId: string, email: string, role: string,
                            familyId: string, jti: string, now: int): (m: Minted)
    ensures m.token == env.codec.signRefresh(JwtPayload(userId, email, role, jti, familyId), env.cfg.refreshTtlSec)
    ensures Live(m.record) && m.record.jti == jti
    ensures m.record.userId == userId && m.record.familyId == familyId
    ensures m.record.expiresAt == now + env.cfg.refreshTtlSec * 1000 && m.record.createdAt == now
    ensures Lawful(env.hasher) ==> env.hasher.bcryptCompare(Fingerprint(env, m.token), m.record.tokenHash)
  {
    var token := env.codec.signRefresh(JwtPayload(userId, email, role, jti, familyId), env.cfg.refreshTtlSec);
    var hash := env.hasher.bcryptHash(Fingerprint(env, token));
    Minted(token, NewRecord(userId, familyId, jti, hash, now + env.cfg.refreshTtlSec * 1000, now))
  }

  /** `revokeFamily`: every row of the family becomes revoked; nothing else changes. */
  function RevokedFamily(s: Store, fam: string): (r: Store)
    ensures r.Keys == s.Keys
    ensures forall j :: j in s ==> r[j].revoked == (s[j].revoked || j in FamilyRecords(s, fam))
    ensures forall j :: j in s ==> r[j].(revoked := s[j].revoked) == s[j]
  {
    map j | j in s :: if s[j].familyId == fam then s[j].(revoked := true) else s[j]
  }

  /** Logout's `update({ jti }, { revoked: true, used: true })`: only that row changes. */
  function RetiredOne(s: Store, jti: string): (r: Store)
    ensures r.Keys == s.Keys
    ensures forall j :: j in s && j != jti ==> r[j] == s[j]
    ensures jti in s ==> r[jti].revoked && r[jti].used && r[jti].(revoked := s[jti].revoked, used := s[jti].used) == s[jti]
  {
    if jti in s then s[jti := s[jti].(revoked := true, used := true)] else s
  }

  function Lookup(s: Store, jti: string): (r: Option<RefreshToken>)
    ensures r.Some? <==> jti in s
    ensures r.Some? ==> r.value == s[jti]
  {
    if jti in s then Some(s[jti]) else None
  }

  /** The payload names a user, a token and a family. */
  predicate WellFormed(p: JwtPayload) {
    p.sub != "" && p.jti != "" && p.fam != ""
  }

  /** The row check of refresh: missing, revoked, used, owned by someone else, or expired (strictly before `now`). */
  predicate Anomalous(row: Option<RefreshToken>, userId: string, now: int) {
    row.None? || row.value.revoked || row.value.used || row.value.userId != userId || row.value.expiresAt < now
  }

  /** `bcrypt.compare(fingerprint(token), row.tokenHash)`. */
  predicate FingerprintMatches(env: Env, token: string, row: RefreshToken) {
    env.hasher.bcryptCompare(Fingerprint(env, token), row.tokenHash)
  }

  /** The first stage of refresh, which never touches the store: presence, signature and expiry, required claims. */
  function CheckPresented(env: Env, token: string, now: int): (r: Result<JwtPayload, AuthError>)
    ensures token == "" ==> r == Err(MissingRefreshToken)
    ensures token != "" && !env.codec.verify(token, now).Verified? ==> r == Err(InvalidRefreshToken)
    ensures (token != "" && env.codec.verify(token, now).Verified? && !WellFormed(env.codec.verify(token, now).payload))
              ==> r == Err(MalformedRefreshToken)
    ensures r.Ok? <==> token != "" && env.codec.verify(token, now).Verified? && WellFormed(env.codec.verify(token, now).payload)
    ensures r.Ok? ==> env.codec.verify(token, now) == Verified(r.value)
  {
    if token == "" then Err(MissingRefreshToken)
    else match env.codec.verify(token, now)
      case Verified(p) => if WellFormed(p) then Ok(p) else Err(MalformedRefreshToken)
      case _ => Err(InvalidRefreshToken)
  }

  /** Whether the presented token passes every check of refresh against the store. */
  predicate Rotatable(env: Env, s: Store, token: string, now: int) {
    var c := CheckPresented(env, token, now);
    c.Ok? && !Anomalous(Lookup(s, c.value.jti), c.value.sub, now) && FingerprintMatches(env, token, s[c.value.jti])
  }

  /**
   * `refresh`. A token that is missing, does not verify or lacks a claim is
   * rejected and the store is left alone. A token whose row is missing,
   * revoked, used, someone else's or expired revokes the family named in the
   * token and is rejected as invalidated; one whose fingerprint does not match
   * its row revokes that family and is rejected as reuse. Otherwise the row is
   * marked used, exactly one new live row is added in the same family under
   * `newJti`, and the new pair is returned.
   */
  function RefreshStep(env: Env, s: Store, token: string, now: int, newJti: string)
    : (out: (Result<Session, AuthError>, Store))
    requires newJti !in s
    ensures CheckPresented(env, token, now).Err? ==> out == (Err(CheckPresented(env, token, now).error), s)
    ensures var c := CheckPresented(env, token, now);
              (c.Ok? && Anomalous(Lookup(s, c.value.jti), c.value.sub, now))
                ==> out == (Err(RefreshTokenInvalidated), RevokedFamily(s, c.value.fam))
    ensures var c := CheckPresented(env, token, now);
              (c.Ok? && !Anomalous(Lookup(s, c.value.jti), c.value.sub, now) && !FingerprintMatches(env, token, s[c.value.jti]))
                ==> out == (Err(RefreshTokenReuseDetected), RevokedFamily(s, c.value.fam))
    ensures out.0.Ok? <==> Rotatable(env, s, token, now)
    ensures out.0.Ok? ==>
              var p := CheckPresented(env, token, now).value;
              && out.0.value.jti == newJti
              && out.0.value.familyId == p.fam
              && out.0.value.accessToken == AccessToken(env, p.sub, p.email, p.role)
              && out.0.value.refreshToken == env.codec.signRefresh(JwtPayload(p.sub, p.email, p.role, newJti, p.fam), env.cfg.refreshTtlSec)
              && out.1.Keys == s.Keys + {newJti}
              && out.1[p.jti] == s[p.jti].(used := true)
              && Live(out.1[newJti]) && out.1[newJti].jti == newJti
              && out.1[newJti].userId == p.sub && out.1[newJti].familyId == p.fam
              && out.1[newJti].expiresAt == now + env.cfg.refreshTtlSec * 1000
              && forall j :: j in s && j != p.jti ==> out.1[j] == s[j]
  {
    match CheckPresented(env, token, now)
    case Err(e) => (Err(e), s)
    case Ok(p) =>
      var row := Lookup(s, p.jti);
      if Anomalous(row, p.sub, now) then (Err(RefreshTokenInvalidated), RevokedFamily(s, p.fam))
      else if !FingerprintMatches(env, token, row.value) then (Err(RefreshTokenReuseDetected), RevokedFamily(s, p.fam))
      else
        var consumed := s[p.jti := row.value.(used := true)];
        var m := MintRefreshToken(env, p.sub, p.email, p.role, p.fam, newJti, now);
        (Ok(Session(AccessToken(env, p.sub, p.email, p.role), m.token, p.fam, newJti)), Insert(consumed, m.record))
  }

  /**
   * The jti that logout retires, if any: the one in a token that verifies,
   * or, for an expired token, the one in it when it verifies ignoring expiry.
   * An absent token, an unverifiable one or a payload without jti yields none.
   */
  function LogoutTarget(env: Env, token: string, now: int): (r: Option<string>)
    ensures r.Some? ==> r.value != "" && token != ""
    ensures env.codec.verify(token, now).Invalid? ==> r.None?
    ensures (token != "" && env.codec.verify(token, now).Verified? && env.codec.verify(token, now).payload.jti != "")
              ==> r == Some(env.codec.verify(token, now).payload.jti)
    ensures env.codec.verify(token, now).Verified? && env.codec.verify(token, now).payload.jti == "" ==> r.None?
    ensures (token != "" && env.codec.verify(token, now).Expired?)
              ==> (r.Some? <==> env.codec.verifyIgnoringExpiry(token).Some? && env.codec.verifyIgnoringExpiry(token).value.jti != "")
    ensures (token != "" && env.codec.verify(token, now).Expired? && env.codec.verifyIgnoringExpiry(token).Some?
             && env.codec.verifyIgnoringExpiry(token).value.jti != "")
              ==> r == Some(env.codec.verifyIgnoringExpiry(token).value.jti)
  {
    if token == "" then None
    else match env.codec.verify(token, now)
      case Verified(p) => if p.jti != "" then Some(p.jti) else None
      case Expired =>
        (match env.codec.verifyIgnoringExpiry(token)
         case Some(p) => if p.jti != "" then Some(p.jti) else None
         case None => None)
      case Invalid => None
  }

  /** `logout`: at most the one targeted row becomes revoked and used; every other row, of any family, is untouched. */
  function LogoutStep(env: Env, s: Store, token: string, now: int): (r: Store)
    ensures r.Keys == s.Keys
    ensures LogoutTarget(env, token, now).None? ==> r == s
    ensures forall j :: j in s && Some(j) != LogoutTarget(env, token, now) ==> r[j] == s[j]
    ensures forall j :: j in s && Some(j) == LogoutTarget(env, token, now) ==> r[j] == s[j].(revoked := true, used := true)
  {
    match LogoutTarget(env, token, now)
    case None => s
    case Some(j) => RetiredOne(s, j)
  }

  /**
   * `login`: an unknown email or a wrong password fails and writes nothing;
   * otherwise exactly one live row is added under the fresh `familyId`.
   */
  function LoginStep(env: Env, st: AuthState, email: string, password: string,
                     familyId: string, jti: string, now: int): (out: (Result<SignIn, AuthError>, AuthState))
    requires jti !in st.store
    ensures out.1.users == st.users
    ensures FindUser(st.users, ByEmail, email).None? ==> out == (Err(InvalidCredentials), st)
    ensures (FindUser(st.users, ByEmail, email).Some? && !env.hasher.bcryptCompare(password, FindUser(st.users, ByEmail, email).value.password))
              ==> out == (Err(InvalidCredentials), st)
    ensures out.0.Ok? <==> FindUser(st.users, ByEmail, email).Some? && env.hasher.bcryptCompare(password, FindUser(st.users, ByEmail, email).value.password)
    ensures out.0.Ok? ==>
              var u := FindUser(st.users, ByEmail, email).value;
              && out.0.value.user == ProfileOf(u)
              && out.0.value.session.familyId == familyId && out.0.value.session.jti == jti
              && out.1.store.Keys == st.store.Keys + {jti}
              && (forall j :: j in st.store ==> out.1.store[j] == st.store[j])
              && Live(out.1.store[jti]) && out.1.store[jti].userId == u.id && out.1.store[jti].familyId == familyId
  {
    match FindUser(st.users, ByEmail, email)
    case None => (Err(InvalidCredentials), st)
    case Some(u) =>
      if !env.hasher.bcryptCompare(password, u.password) then (Err(InvalidCredentials), st)
      else
        var m := MintRefreshToken(env, u.id, u.email, u.role, familyId, jti, now);
        (Ok(SignIn(ProfileOf(u), Session(AccessToken(env, u.id, u.email, u.role), m.token, familyId, jti))),
         AuthState(st.users, Insert(st.store, m.record)))
  }

  /**
   * `register`: an email already in use fails and writes nothing; otherwise the
   * user is created with the bcrypt hash of the password (the id and role are
   * what `UsersService.create` assigns) and exactly one live row is added under
   * the fresh `familyId`.
   */
  function RegisterStep(env: Env, st: AuthState, email: string, password: string, name: string,
                        newUserId: string, assignedRole: string,
                        familyId: string, jti: string, now: int): (out: (Result<SignIn, AuthError>, AuthState))
    requires jti !in st.store
    ensures FindUser(st.users, ByEmail, email).Some? ==> out == (Err(EmailAlreadyExists), st)
    ensures out.0.Ok? <==> FindUser(st.users, ByEmail, email).None?
    ensures out.0.Ok? ==>
              var u := User(newUserId, email, name, env.hasher.bcryptHash(password), assignedRole);
              && out.1.users == st.users + [u]
              && out.0.value.user == ProfileOf(u)
              && out.0.value.session.familyId == familyId && out.0.value.session.jti == jti
              && out.1.store.Keys == st.store.Keys + {jti}
              && (forall j :: j in st.store ==> out.1.store[j] == st.store[j])
              && Live(out.1.store[jti]) && out.1.store[jti].userId == newUserId && out.1.store[jti].familyId == familyId
  {
    if FindUser(st.users, ByEmail, email).Some? then (Err(EmailAlreadyExists), st)
    else
      var u := User(newUserId, email, name, env.hasher.bcryptHash(password), assignedRole);
      var m := MintRefreshToken(env, u.id, u.email, u.role, familyId, jti, now);
      (Ok(SignIn(ProfileOf(u), Session(AccessToken(env, u.id, u.email, u.role), m.token, familyId, jti))),
       AuthState(st.users + [u], Insert(st.store, m.record)))
  }

  /** `validateUserRoles`: the user exists and, when roles are required, holds one of them. */
  function ValidateUserRoles(users: seq<User>, userId: string, requiredRoles: seq<string>): (ok: bool)
    ensures ok <==> FindUser(users, ById, userId).Some? && (requiredRoles == [] || FindUser(users, ById, userId).value.role in requiredRoles)
    ensures ok ==> exists i :: 0 <= i < |users| && users[i].id == userId
  {
    match FindUser(users, ById, userId)
    case None => false
    case Some(u) => if |requiredRoles| > 0 then u.role in requiredRoles else true
  }

  /** The service: its collaborators, the users and the token table. */
  class AuthService {
    const env: Env
    var users: seq<User>
    var store: Store

    ghost predicate Valid()
      reads this
    {
      KeyedByJti(store)
    }

    constructor (env: Env, users: seq<User>)
      ensures Valid() && this.env == env && this.users == users && store == map[]
    {
      this.env := env;
      this.users := users;
      store := map[];
    }

    /** `issueAccessToken`: signs the user's claims, with no jti or family, for the access lifetime; writes nothing. */
    method IssueAccessToken(userId: string, email: string, role: string) returns (token: string)
      ensures token == env.codec.signAccess(JwtPayload(userId, email, role, "", ""), env.cfg.accessTtlSec)
    {
      var payload := JwtPayload(userId, email, role, "", "");
      token := env.codec.signAccess(payload, env.cfg.accessTtlSec);
    }

    /** `issueRefreshToken`: signs a payload carrying `jti` and the family, and saves its row. */
    method IssueRefreshToken(userId: string, email: string, role: string, familyId: string,
                             jti: string, now: int) returns (token: string)
      requires Valid() && jti !in store
      modifies this`store
      ensures Valid()
      ensures var m := MintRefreshToken(env, userId, email, role, familyId, jti, now);
                token == m.token && store == Insert(old(store), m.record)
    {
      var payload := JwtPayload(userId, email, role, jti, familyId);
      token := env.codec.signRefresh(payload, env.cfg.refreshTtlSec);
      var tokenHash := env.hasher.bcryptHash(Fingerprint(env, token));
      var expiresAt := now + env.cfg.refreshTtlSec * 1000;
      store := store[jti := NewRecord(userId, familyId, jti, tokenHash, expiresAt, now)];
    }

    /** `revokeFamily`: one bulk update over the family's rows. */
    method RevokeFamily(familyId: string)
      requires Valid()
      modifies this`store
      ensures Valid()
      ensures store == RevokedFamily(old(store), familyId)
    {
      store := map j | j in store :: if store[j].familyId == familyId then store[j].(revoked := true) else store[j];
    }

    method Login(email: string, password: string, familyId: string, jti: string, now: int)
      returns (r: Result<SignIn, AuthError>)
      requires Valid() && jti !in store
      modifies this`store
      ensures Valid()
      ensures (r, AuthState(users, store)) == LoginStep(env, old(AuthState(users, store)), email, password, familyId, jti, now)
    {
      var user := FindUser(users, ByEmail, email);
      if user.None? {
        return Err(InvalidCredentials);
      }
      var u := user.value;
      var ok := env.hasher.bcryptCompare(password, u.password);
      if !ok {
        return Err(InvalidCredentials);
      }
      var accessToken := IssueAccessToken(u.id, u.email, u.role);
      var refreshToken := IssueRefreshToken(u.id, u.email, u.role, familyId, jti, now);
      r := Ok(SignIn(ProfileOf(u), Session(accessToken, refreshToken, familyId, jti)));
    }

    method Register(email: string, password: string, name: string, newUserId: string, assignedRole: string,
                    familyId: string, jti: string, now: int)
      returns (r: Result<SignIn, AuthError>)
      requires Valid() && jti !in store
      modifies this`store, this`users
      ensures Valid()
      ensures (r, AuthState(users, store))
                == RegisterStep(env, old(AuthState(users, store)), email, password, name, newUserId, assignedRole, familyId, jti, now)
    {
      var existing := FindUser(users, ByEmail, email);
      if existing.Some? {
        return Err(EmailAlreadyExists);
      }
      var hashed := env.hasher.bcryptHash(password);
      var u := User(newUserId, email, name, hashed, assignedRole);
      users := users + [u];
      var accessToken := IssueAccessToken(u.id, u.email, u.role);
      var refreshToken := IssueRefreshToken(u.id, u.email, u.role, familyId, jti, now);
      r := Ok(SignIn(ProfileOf(u), Session(accessToken, refreshToken, familyId, jti)));
    }

    /** `refresh`: read the row, check it, then write `used = true` and issue the next generation. */
    method Refresh(token: string, now: int, newJti: string) returns (r: Result<Session, AuthError>)
      requires Valid() && newJti !in store
      modifies this`store
      ensures Valid()
      ensures (r, store) == RefreshStep(env, old(store), token, now, newJti)
    {
      if token == "" {
        return Err(MissingRefreshToken);
      }
      var decoded := env.codec.verify(token, now);
      if !decoded.Verified? {
        return Err(InvalidRefreshToken);
      }
      var p := decoded.payload;
      if p.sub == "" || p.jti == "" || p.fam == "" {
        return Err(MalformedRefreshToken);
      }
      var row := Lookup(store, p.jti);
      if row.None? || row.value.revoked || row.value.used || row.value.userId != p.sub || row.value.expiresAt < now {
        RevokeFamily(p.fam);
        return Err(RefreshTokenInvalidated);
      }
      var matches := env.hasher.bcryptCompare(Fingerprint(env, token), row.value.tokenHash);
      if !matches {
        RevokeFamily(p.fam);
        return Err(RefreshTokenReuseDetected);
      }
      var consumed := row.value.(used := true);
      store := store[p.jti := consumed];
      var accessToken := IssueAccessToken(p.sub, p.email, p.role);
      var refreshToken := IssueRefreshToken(p.sub, p.email, p.role, p.fam, newJti, now);
      r := Ok(Session(accessToken, refreshToken, p.fam, newJti));
    }

    /** `logout`: never fails; retires at most the presented token's row. */
    method Logout(token: string, now: int)
      requires Valid()
      modifies this`store
      ensures Valid()
      ensures store == LogoutStep(env, old(store), token, now)
    {
      if token == "" {
        return;
      }
      var decoded := env.codec.verify(token, now);
      match decoded {
        case Verified(p) =>
          if p.jti != "" && p.jti in store {
            store := store[p.jti := store[p.jti].(revoked := true, used := true)];
          }
        case Expired =>
          var again := env.codec.verifyIgnoringExpiry(token);
          if again.Some? && again.value.jti != "" && again.value.jti in store {
            var j := again.value.jti;
            store := store[j := store[j].(revoked := true, used := true)];
          }
        case Invalid =>
      }
    }

    method ValidateRoles(userId: string, requiredRoles: seq<string>) returns (ok: bool)
      ensures ok == ValidateUserRoles(users, userId, requiredRoles)
    {
      var user := FindUser(users, ById, userId);
      if user.None? {
        return false;
      }
      if |requiredRoles| > 0 {
        return user.value.role in requiredRoles;
      }
      return true;
    }
  }
}
