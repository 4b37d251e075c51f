/** The account record shared by every handler, and the store queries the
    handlers are written with (`findOne`, `find`, `deleteOne`, `deleteMany`),
    over a sequence of records kept in the store's natural order. */
module Accounts {
  import opened Common

  /** A password path: the text as assigned, a bcrypt hash of a stored
      value, or `undefined` on a loaded document whose query did not select
      the path (both schemas declare it `select: false`). The salt is not
      modelled, so hashing is an injective wrapper. */
  datatype Secret = Plain(text: string) | Hashed(of: Secret) | Unloaded

  /** `bcrypt.compare(candidate, stored)`: the stored value must be exactly
      one hash of the candidate text. */
  predicate BcryptCompare(candidate: string, stored: Secret) {
    stored == Hashed(Plain(candidate))
  }

  /** How many hashes are wrapped around the plain text. */
  function HashDepth(s: Secret): nat {
    match s
    case Plain(_) => 0
    case Hashed(inner) => HashDepth(inner) + 1
    case Unloaded => 0
  }

  lemma CompareNeedsDepthOne(candidate: string, stored: Secret)
    requires BcryptCompare(candidate, stored)
    ensures HashDepth(stored) == 1
  {
  }

  /** The union of the fields that the backend controllers, the routes, the
      cleanup service and the two schemas read and write. `id` is Mongo's
      `_id`; the backend schema's `email` is `regularEmail` here. */
  datatype Account = Account(
    id: nat,
    displayName: string,
    csmclName: string,
    regularEmail: string,
    cosmicalEmail: Option<string>,
    simNumber: string,
    password: Secret,
    isEmailVerified: bool,
    isSimVerified: bool,
    verificationToken: Option<string>,
    verificationExpires: Option<Millis>,
    simVerificationCode: Option<string>,
    simVerificationExpires: Option<Millis>,
    passwordResetToken: Option<string>,
    passwordResetExpires: Option<Millis>,
    registrationExpires: Option<Millis>,
    isExpired: bool,
    linuxUserCreated: bool,
    storageCreated: bool,
    mailAccountCreated: bool,
    isTest: bool,
    lastLogin: Option<Millis>,
    createdAt: Millis,
    updatedAt: Millis)

  /** The document `findOne`, `findById` or `find` hands back for a stored
      record when the query does not add `+password`. */
  function WithoutPassword(a: Account): Account {
    a.(password := Unloaded)
  }

  /** Both verification channels are confirmed. */
  predicate FullyVerified(a: Account) {
    a.isEmailVerified && a.isSimVerified
  }

  /** A document built with `new User({...})` from the given fields: every
      flag takes its schema default (false) and every optional field is
      absent. `id` and the timestamps are given by the store on creation. */
  function NewDocument(displayName: string, csmclName: string, regularEmail: string,
                       simNumber: string, password: Secret): (a: Account)
    ensures !a.isEmailVerified && !a.isSimVerified && !a.storageCreated
    ensures !a.mailAccountCreated && !a.isTest && !a.isExpired && !a.linuxUserCreated
    ensures a.verificationToken.None? && a.simVerificationCode.None? && a.passwordResetToken.None?
    ensures a.registrationExpires.None? && a.cosmicalEmail.None? && a.lastLogin.None?
  {
    Account(0, displayName, csmclName, regularEmail, None, simNumber, password,
            false, false, None, None, None, None, None, None, None,
            false, false, false, false, false, None, 0, 0)
  }

  // ---------------------------------------------------------------- queries

  /** The filters the handlers pass to `findOne`, `find`, `deleteOne` and
      `deleteMany`. A `$gt`/`$lt` comparison against an absent date matches
      nothing. */
  datatype Query =
    | All                                                   // `{}`
    | ById(id: nat)                                         // `findById`
    | ByHandle(csmclName: string)                           // `{ csmclName }`
    | ByEmail(regularEmail: string)                         // `{ regularEmail }`
    | HandleOrEmail(csmclName: string, regularEmail: string) // `$or` of the two
    | ByToken(token: string)                                // `{ verificationToken }`
    | ByLiveToken(token: string, now: Millis)               // ... and `verificationExpires > now`
    | ByLiveCode(simNumber: string, code: string, now: Millis)
    | ByLiveResetToken(token: string, now: Millis)
    | Approaching(now: Millis, threshold: Millis)           // the cleanup's warning selection
    | Overdue(now: Millis)                                  // the cleanup's expiration selection
    | Purgeable(cutoff: Millis)                             // the cleanup's deletion filter
    | Not(q: Query)                                         // what a deletion leaves

  predicate After(d: Option<Millis>, t: Millis) { d.Some? && d.value > t }
  predicate Before(d: Option<Millis>, t: Millis) { d.Some? && d.value < t }

  predicate Matches(q: Query, a: Account) {
    match q
    case All => true
    case ById(id) => a.id == id
    case ByHandle(h) => a.csmclName == h
    case ByEmail(e) => a.regularEmail == e
    case HandleOrEmail(h, e) => a.csmclName == h || a.regularEmail == e
    case ByToken(t) => a.verificationToken == Some(t)
    case ByLiveToken(t, now) => a.verificationToken == Some(t) && After(a.verificationExpires, now)
    case ByLiveCode(sim, code, now) =>
      a.simNumber == sim && a.simVerificationCode == Some(code) && After(a.simVerificationExpires, now)
    case ByLiveResetToken(t, now) => a.passwordResetToken == Some(t) && After(a.passwordResetExpires, now)
    case Approaching(now, threshold) =>
      After(a.registrationExpires, now) && Before(a.registrationExpires, threshold) &&
      !a.isExpired && !FullyVerified(a)
    case Overdue(now) => Before(a.registrationExpires, now) && !a.isExpired && !FullyVerified(a)
    case Purgeable(cutoff) => a.isExpired && a.updatedAt < cutoff
    case Not(q') => !Matches(q', a)
  }

  /** A record without a token expiry matches no live-token filter. */
  lemma NoExpiryNoLiveToken(a: Account, token: string, t: Millis)
    requires a.verificationExpires.None?
    ensures !Matches(ByLiveToken(token, t), a)
  {
  }

  /** The positions of the records holding a verification token. */
  function TokenHolders(users: seq<Account>, token: string): set<nat> {
    set j | 0 <= j < |users| && users[j].verificationToken == Some(token)
  }

  /** `findOne(filter)`: the position of the first matching record. */
  function FindFirst(users: seq<Account>, q: Query): (r: Option<nat>)
    ensures r.Some? ==> r.value < |users| && Matches(q, users[r.value])
    ensures r.Some? ==> forall k :: 0 <= k < r.value ==> !Matches(q, users[k])
    ensures r.None? <==> forall k :: 0 <= k < |users| ==> !Matches(q, users[k])
  {
    if users == [] then None
    else if Matches(q, users[0]) then Some(0)
    else match FindFirst(users[1..], q)
      case None => None
      case Some(k) => Some(k + 1)
  }

  /** Two stores whose records match a filter at the same positions find
      the same first record for it. */
  lemma FindFirstAlike(users: seq<Account>, others: seq<Account>, q: Query)
    requires |users| == |others|
    requires forall j :: 0 <= j < |users| ==> (Matches(q, users[j]) <==> Matches(q, others[j]))
    ensures FindFirst(users, q) == FindFirst(others, q)
  {
    var f := FindFirst(users, q);
    var g := FindFirst(others, q);
    if f.Some? {
      assert Matches(q, others[f.value]);
      assert g.Some? && !(g.value < f.value) && !(f.value < g.value);
    }
  }

  /** `find(filter)`: the matching records, in store order. */
  function Select(users: seq<Account>, q: Query): (r: seq<Account>)
    ensures |r| <= |users|
    ensures forall a :: a in r <==> a in users && Matches(q, a)
  {
    if users == [] then []
    else if Matches(q, users[0]) then [users[0]] + Select(users[1..], q)
    else Select(users[1..], q)
  }

  /** A filter over one record keeps it exactly when it matches. */
  lemma SelectSingle(a: Account, q: Query)
    ensures Select([a], q) == if Matches(q, a) then [a] else []
  {
    assert [a][1..] == [];
  }

  /** `find` keeps the matching records in store order: filtering two runs
      of records one after the other is filtering each and joining the
      results. With SelectSingle this pins down both order and multiplicity. */
  lemma {:induction false} SelectAppend(a: seq<Account>, b: seq<Account>, q: Query)
    ensures Select(a + b, q) == Select(a, q) + Select(b, q)
  {
    if a == [] {
      assert a + b == b;
    } else {
      assert (a + b)[0] == a[0];
      assert (a + b)[1..] == a[1..] + b;
      SelectAppend(a[1..], b, q);
    }
  }

  lemma SelectIncludes(users: seq<Account>, a: Account, q: Query)
    requires a in users && Matches(q, a)
    ensures a in Select(users, q)
  {
  }

  /** Every record is either selected by a filter or by its negation. */
  lemma {:induction false} SelectPartition(users: seq<Account>, q: Query)
    ensures |Select(users, q)| + |Select(users, Not(q))| == |users|
  {
    if users != [] {
      SelectPartition(users[1..], q);
    }
  }

  /** Writing a saved document back: the record with its id is replaced. */
  function Replace(users: seq<Account>, a: Account): (r: seq<Account>)
    ensures |r| == |users|
    ensures forall i :: 0 <= i < |users| ==> r[i] == if users[i].id == a.id then a else users[i]
  {
    if users == [] then []
    else [if users[0].id == a.id then a else users[0]] + Replace(users[1..], a)
  }

  /** The store without the record at position `k`. */
  function RemoveAt(users: seq<Account>, k: nat): (r: seq<Account>)
    requires k < |users|
    ensures |r| == |users| - 1
    ensures forall i :: 0 <= i < k ==> r[i] == users[i]
    ensures forall i :: k <= i < |r| ==> r[i] == users[i + 1]
  {
    users[..k] + users[k + 1..]
  }
}
