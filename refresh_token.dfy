/**
 * The `auth_refresh_tokens` table: one row per issued refresh token.
 * The unique index on `jti` is modelled by keying the store on `jti`;
 * the secondary indexes on `userId` and `familyId` are the two lookups
 * `UserRecords` and `FamilyRecords`. The surrogate `id` column is not
 * modelled: nothing in the protocol reads it.
 */
module RefreshTokens {

  datatype RefreshToken = RefreshToken(
    userId: string,
    familyId: string,
    jti: string,
    tokenHash: string,
    revoked: bool,
    used: bool,
    expiresAt: int,   // milliseconds since the epoch
    createdAt: int)   // milliseconds since the epoch

  /** The table, keyed by the unique `jti` column. */
  type Store = map<string, RefreshToken>

  /** Each row sits under its own `jti`, so no two rows share one. */
  predicate KeyedByJti(s: Store) {
    forall j :: j in s ==> s[j].jti == j
  }

  /** A row that has been neither consumed by a rotation nor revoked. */
  predicate Live(r: RefreshToken) {
    !r.used && !r.revoked
  }

  /** `refreshRepo.create(...)`: a new row, with `revoked` and `used` at their column default, false. */
  function NewRecord(userId: string, familyId: string, jti: string, tokenHash: string,
                     expiresAt: int, createdAt: int): (r: RefreshToken)
    ensures Live(r)
    ensures r.userId == userId && r.familyId == familyId && r.jti == jti
    ensures r.tokenHash == tokenHash && r.expiresAt == expiresAt && r.createdAt == createdAt
  {
    RefreshToken(userId, familyId, jti, tokenHash, false, false, expiresAt, createdAt)
  }

  /** `save` of a new row whose `jti` is not yet taken: the unique index still holds and exactly one row is added. */
  function Insert(s: Store, r: RefreshToken): (s': Store)
    requires r.jti !in s
    ensures KeyedByJti(s) ==> KeyedByJti(s')
    ensures s'.Keys == s.Keys + {r.jti} && |s'| == |s| + 1
    ensures s'[r.jti] == r && forall j :: j in s ==> s'[j] == s[j]
  {
    s[r.jti := r]
  }

  /** The `idx_refresh_family` lookup: the jtis of the rows of one family. */
  function FamilyRecords(s: Store, familyId: string): (js: set<string>)
    ensures forall j :: j in js <==> j in s && s[j].familyId == familyId
  {
    set j | j in s && s[j].familyId == familyId
  }

  /** The `idx_refresh_user` lookup: the jtis of the rows of one user. */
  function UserRecords(s: Store, userId: string): (js: set<string>)
    ensures forall j :: j in js <==> j in s && s[j].userId == userId
  {
    set j | j in s && s[j].userId == userId
  }
}
