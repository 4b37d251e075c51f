/** The registration-expiry sweep of the backend. An account that is not
    both email- and SIM-verified by its `registrationExpires` date is warned
    while the date approaches, marked expired once it has passed (its Linux
    account removed and its owner notified), and deleted some days later. */
module Cleanup {
  import opened Common
  import opened Accounts
  import opened Store
  import opened Effects

  /** `parseInt(value) || d`: an unset variable parses to NaN, and NaN and 0
      are both falsy, so both fall back to the default. */
  function EnvOrDefault(env: Option<string>, d: int): int {
    if env.None? then d
    else match ParseInt(env.value)
      case None => d
      case Some(n) => if n == 0 then d else n
  }

  /** A configured decimal number other than zero is taken as written. */
  lemma ConfiguredValueWins(n: nat, d: int)
    requires n != 0
    ensures EnvOrDefault(Some(DecimalString(n)), d) == n
  {
    ParseIntOfDecimal(n);
  }

  /** An unset variable, a configured zero and an unparsable value all give
      the default, and the setting is never zero unless the default is. */
  lemma FallsBackToDefault(env: Option<string>, d: int)
    ensures env.None? ==> EnvOrDefault(env, d) == d
    ensures env.Some? && ParseInt(env.value) in {None, Some(0)} ==> EnvOrDefault(env, d) == d
    ensures d != 0 ==> EnvOrDefault(env, d) != 0
  {
  }

  /** The summary `cleanupExpiredUsers` resolves to. */
  datatype Summary = Summary(warningCount: nat, expiredCount: nat, deletedCount: nat)

  /** What `isUserExpired` resolves to, or the error of the save it awaited. */
  datatype ExpiryAnswer = Answer(expired: bool) | Threw(error: SaveError)

  /** `Math.ceil((registrationExpires - now) / 3600000)`; an absent date
      makes it NaN, which is `None` here. */
  function HoursLeft(expires: Option<Millis>, now: Millis): Option<int> {
    match expires
    case None => None
    case Some(e) => Some(-((now - e) / HourMs))
  }

  /** An account inside the warning window is told between one and
      `warningHours` hours. */
  lemma HoursLeftBounds(u: Account, now: Millis, warningHours: int)
    requires Matches(Approaching(now, now + warningHours * HourMs), u)
    ensures HoursLeft(u.registrationExpires, now).Some?
    ensures 1 <= HoursLeft(u.registrationExpires, now).value <= warningHours
  {
    var e := u.registrationExpires.value;
    var q := (now - e) / HourMs;
    assert q * HourMs <= now - e < (q + 1) * HourMs;
  }

  /** The warning mail for an account of the warning window. */
  function WarningFor(u: Account, now: Millis): Effect {
    Sent(ExpirationWarning(u.regularEmail, u.displayName, HoursLeft(u.registrationExpires, now)))
  }

  /** The warning mails of a selection, in store order. */
  function WarningMails(selected: seq<Account>, now: Millis): seq<Effect> {
    if selected == [] then []
    else WarningMails(selected[..|selected| - 1], now) + [WarningFor(selected[|selected| - 1], now)]
  }

  /** The warning pass sends one mail per selected account, in order, each
      carrying an hour count in 1..`warningHours`. */
  lemma {:induction false} WarningMailsBounded(selected: seq<Account>, now: Millis, warningHours: int)
    requires forall u :: u in selected ==> Matches(Approaching(now, now + warningHours * HourMs), u)
    ensures |WarningMails(selected, now)| == |selected|
    ensures forall i :: 0 <= i < |selected| ==>
      WarningMails(selected, now)[i] == WarningFor(selected[i], now) &&
      HoursLeft(selected[i].registrationExpires, now).Some? &&
      1 <= HoursLeft(selected[i].registrationExpires, now).value <= warningHours
  {
    if selected != [] {
      var n := |selected| - 1;
      forall u | u in selected[..n] ensures u in selected {
      }
      WarningMailsBounded(selected[..n], now, warningHours);
      assert selected[n] in selected;
      HoursLeftBounds(selected[n], now, warningHours);
      var w := WarningMails(selected, now);
      forall i | 0 <= i < n ensures w[i] == WarningMails(selected[..n], now)[i] && selected[..n][i] == selected[i] {
      }
    }
  }

  /** The warning window and the expiration selection never overlap, and an
      account that expires exactly now is in neither. */
  lemma SelectionsDisjoint(u: Account, now: Millis, threshold: Millis)
    ensures !(Matches(Approaching(now, threshold), u) && Matches(Overdue(now), u))
    ensures u.registrationExpires == Some(now) ==>
      !Matches(Approaching(now, threshold), u) && !Matches(Overdue(now), u)
    ensures Matches(Approaching(now, threshold), u) || Matches(Overdue(now), u) ==>
      !FullyVerified(u) && !u.isExpired
  {
  }

  /** What the expiration pass does outside the store for one account after
      its record is saved: remove the Linux user when one was created, and
      notify the owner unless that removal failed (the error skips the rest
      of the account's turn). */
  function Teardown(u: Account, exec: string -> ExecResult): (r: seq<Effect>)
  {
    var notice := [Sent(ExpirationNotice(u.regularEmail, u.displayName))];
    if u.linuxUserCreated then
      [Ran(UserDel(u.csmclName))] + (if exec(Shell(UserDel(u.csmclName))).Done? then notice else [])
    else notice
  }

  /** The shell is touched exactly for accounts with a Linux user, and the
      owner is notified unless the removal failed. */
  lemma TeardownMeaning(u: Account, exec: string -> ExecResult)
    ensures (exists c :: Ran(c) in Teardown(u, exec)) <==> u.linuxUserCreated
    ensures Sent(ExpirationNotice(u.regularEmail, u.displayName)) in Teardown(u, exec) <==>
      !u.linuxUserCreated || exec(Shell(UserDel(u.csmclName))).Done?
  {
    if u.linuxUserCreated {
      assert Ran(UserDel(u.csmclName)) in Teardown(u, exec);
    }
  }

  /** The effects of `f` on each account of `xs`, in order. */
  function EachEffects(xs: seq<Account>, f: Account -> seq<Effect>): seq<Effect> {
    if xs == [] then [] else EachEffects(xs[..|xs| - 1], f) + f(xs[|xs| - 1])
  }

  lemma {:induction false} EachEffectsAppend(a: seq<Account>, b: seq<Account>, f: Account -> seq<Effect>)
    ensures EachEffects(a + b, f) == EachEffects(a, f) + EachEffects(b, f)
    decreases |b|
  {
    if b == [] {
      assert a + b == a;
    } else {
      var n := |b| - 1;
      assert (a + b)[..|a + b| - 1] == a + b[..n];
      EachEffectsAppend(a, b[..n], f);
    }
  }

  function TeardownOf(exec: string -> ExecResult): Account -> seq<Effect> {
    u => Teardown(u, exec)
  }

  /** The effects of the teardowns of a sequence of accounts. */
  function TeardownEffects(selected: seq<Account>, exec: string -> ExecResult): seq<Effect> {
    EachEffects(selected, TeardownOf(exec))
  }

  /** Each account's teardown is its own: a failure for one changes nothing
      for the accounts after it. */
  lemma TeardownsIsolated(a: seq<Account>, b: seq<Account>, exec: string -> ExecResult)
    ensures TeardownEffects(a + b, exec) == TeardownEffects(a, exec) + TeardownEffects(b, exec)
  {
    EachEffectsAppend(a, b, TeardownOf(exec));
  }

  /** An overdue record once marked expired and saved, on a schema whose
      hooks accept the document `find` loaded (without its password). */
  function Expired(schema: Schema, u: Account, now: Millis): Account {
    Hooks(schema, u.(isExpired := true), Some(u), now)
  }

  lemma ExpiredRecord(schema: Schema, u: Account, now: Millis)
    ensures Expired(schema, u, now).isExpired && Expired(schema, u, now).updatedAt == now
    ensures Expired(schema, u, now).id == u.id
    ensures Expired(schema, u, now).csmclName == u.csmclName
    ensures Expired(schema, u, now).regularEmail == u.regularEmail
  {
    HooksKeepKeys(schema, u.(isExpired := true), Some(u), now);
  }

  /** The store after the expiration pass when its saves go through: every
      overdue record is marked expired, every other record is as it was. */
  function MarkExpired(schema: Schema, users: seq<Account>, now: Millis): (r: seq<Account>)
    ensures |r| == |users|
    ensures forall j :: 0 <= j < |users| ==>
      r[j] == if Matches(Overdue(now), users[j]) then Expired(schema, users[j], now) else users[j]
  {
    if users == [] then []
    else
      var last := users[|users| - 1];
      MarkExpired(schema, users[..|users| - 1], now) +
      [if Matches(Overdue(now), last) then Expired(schema, last, now) else last]
  }

  /** Part of the expiration pass is done: exactly the records of `done`
      are marked. */
  ghost predicate Marked(schema: Schema, cur: seq<Account>, users0: seq<Account>, done: seq<Account>, now: Millis) {
    |cur| == |users0| &&
    forall j :: 0 <= j < |cur| ==>
      cur[j] == (if users0[j] in done then Expired(schema, users0[j], now) else users0[j]) &&
      cur[j].id == users0[j].id
  }

  /** The next overdue record is still stored as it was found. */
  lemma NextUntouched(schema: Schema, users0: seq<Account>, cur: seq<Account>,
                      selected: seq<Account>, i: nat, now: Millis) returns (m: nat)
    requires Distinct(schema, selected) && forall u :: u in selected ==> u in users0
    requires i < |selected| && Marked(schema, cur, users0, selected[..i], now)
    ensures m < |cur| && cur[m] == selected[i] && users0[m] == selected[i]
    ensures selected[i] !in selected[..i]
  {
    var u := selected[i];
    assert u in selected;
    m :| 0 <= m < |users0| && users0[m] == u;
    forall k | 0 <= k < i ensures selected[..i][k] != u {
      assert selected[..i][k] == selected[k];
      assert selected[k].id != selected[i].id;
    }
  }

  /** Writing back the marked record extends the marked part by it. */
  lemma MarkStep(schema: Schema, users0: seq<Account>, cur: seq<Account>,
                 done: seq<Account>, done': seq<Account>, u: Account, m: nat, now: Millis)
    requires Distinct(schema, cur) && Marked(schema, cur, users0, done, now)
    requires m < |cur| && cur[m] == u && users0[m] == u && u !in done && done' == done + [u]
    ensures Marked(schema, Replace(cur, Expired(schema, u, now)), users0, done', now)
  {
    var p := Expired(schema, u, now);
    ExpiredRecord(schema, u, now);
    var r := Replace(cur, p);
    forall j | 0 <= j < |r|
      ensures r[j] == (if users0[j] in done' then Expired(schema, users0[j], now) else users0[j])
      ensures r[j].id == users0[j].id
    {
      if cur[j].id == u.id {
        IdsPin(schema, cur, j, m);
      } else {
        assert users0[j] != u;
      }
    }
  }

  lemma PrefixStep(s: seq<Account>, i: nat)
    requires i < |s|
    ensures s[..i + 1] == s[..i] + [s[i]]
  {
  }

  /** The document a turn of the expiration loop saves: the record as
      `find` loaded it, marked expired. */
  function MarkedDocument(u: Account): Account {
    WithoutPassword(u).(isExpired := true)
  }

  /** One turn of the expiration loop: on the backend the save of the next
      overdue record is refused by the hashing hook; on the server it goes
      through and marks exactly that record. */
  lemma ExpireStep(schema: Schema, users0: seq<Account>, cur: seq<Account>, nextId: nat,
                   selected: seq<Account>, i: nat, now: Millis)
    requires Consistent(schema, cur, nextId) && Distinct(schema, selected)
    requires forall u :: u in selected ==> u in users0
    requires i < |selected| && Marked(schema, cur, users0, selected[..i], now)
    ensures SaveOutcome(schema, cur, MarkedDocument(selected[i]), now) ==
      if schema == BackendSchema then Rejected(HashFailed) else Saved(Expired(schema, selected[i], now))
    ensures Marked(schema, Replace(cur, Expired(schema, selected[i], now)), users0, selected[..i + 1], now)
  {
    var m := NextUntouched(schema, users0, cur, selected, i, now);
    var doc := MarkedDocument(selected[i]);
    SaveOfUnloaded(schema, cur, nextId, m, doc, now);
    assert doc.(password := cur[m].password) == selected[i].(isExpired := true);
    PrefixStep(selected, i);
    MarkStep(schema, users0, cur, selected[..i], selected[..i + 1], selected[i], m, now);
  }

  /** A turn of the expiration loop on the backend: the hashing hook
      refuses the save of any selected record. */
  lemma RefusedStep(users0: seq<Account>, nextId: nat, selected: seq<Account>, i: nat, now: Millis)
    requires Consistent(BackendSchema, users0, nextId)
    requires forall u :: u in selected ==> u in users0
    requires i < |selected|
    ensures SaveOutcome(BackendSchema, users0, MarkedDocument(selected[i]), now) == Rejected(HashFailed)
  {
    var u := selected[i];
    assert u in selected;
    var m :| 0 <= m < |users0| && users0[m] == u;
    SaveOfUnloaded(BackendSchema, users0, nextId, m, MarkedDocument(u), now);
  }

  /** With the whole selection done, the store is the marked store. */
  lemma MarkedAll(schema: Schema, cur: seq<Account>, users0: seq<Account>, now: Millis)
    requires Marked(schema, cur, users0, Select(users0, Overdue(now)), now)
    ensures cur == MarkExpired(schema, users0, now)
  {
    var r := MarkExpired(schema, users0, now);
    forall j | 0 <= j < |cur| ensures cur[j] == r[j] {
      assert users0[j] in Select(users0, Overdue(now)) <==> Matches(Overdue(now), users0[j]);
    }
  }

  /** Saving stamps `updatedAt`, so an account expired in this sweep is not
      deleted by it when `deleteDays` is positive; accounts expired in an
      earlier sweep are left alone unless old enough. */
  lemma FreshlyExpiredSurvive(schema: Schema, users0: seq<Account>, now: Millis, deleteDays: int, j: nat)
    requires deleteDays > 0 && j < |users0| && Matches(Overdue(now), users0[j])
    ensures Expired(schema, users0[j], now) in
      Select(MarkExpired(schema, users0, now), Not(Purgeable(now - deleteDays * DayMs)))
  {
    MarkedAt(schema, users0, now, j);
    ExpiredNotPurgeable(schema, users0[j], now, deleteDays);
    SelectIncludes(MarkExpired(schema, users0, now), Expired(schema, users0[j], now),
                   Not(Purgeable(now - deleteDays * DayMs)));
  }

  lemma MarkedAt(schema: Schema, users0: seq<Account>, now: Millis, j: nat)
    requires j < |users0| && Matches(Overdue(now), users0[j])
    ensures MarkExpired(schema, users0, now)[j] == Expired(schema, users0[j], now)
  {
  }

  lemma ExpiredNotPurgeable(schema: Schema, u: Account, now: Millis, deleteDays: int)
    requires deleteDays > 0
    ensures !Matches(Purgeable(now - deleteDays * DayMs), Expired(schema, u, now))
  {
    ExpiredRecord(schema, u, now);
  }

  class CleanupService {
    const warningHours: int
    const expiryHours: int
    const deleteDays: int

    /** Reads `CLEANUP_WARNING_HOURS`, `CLEANUP_EXPIRY_HOURS` and
        `CLEANUP_DELETE_DAYS`. */
    constructor (warningEnv: Option<string>, expiryEnv: Option<string>, deleteEnv: Option<string>)
      ensures warningHours == EnvOrDefault(warningEnv, 4)
      ensures expiryHours == EnvOrDefault(expiryEnv, 48)
      ensures deleteDays == EnvOrDefault(deleteEnv, 7)
    {
      warningHours := EnvOrDefault(warningEnv, 4);
      expiryHours := EnvOrDefault(expiryEnv, 48);
      deleteDays := EnvOrDefault(deleteEnv, 7);
    }

    /** `cleanupExpiredUsers()`: warn, expire and delete, all against the
        one `now` of the sweep, with the shell as `exec`. On the backend no
        overdue record is marked or torn down, yet each is counted. */
    method CleanupExpiredUsers(store: UserStore, now: Millis, exec: string -> ExecResult)
      returns (summary: Summary, effects: seq<Effect>)
      requires store.Valid()
      modifies store
      ensures store.Valid() && store.nextId == old(store.nextId)
      ensures var warned := Select(old(store.users), Approaching(now, now + warningHours * HourMs));
        var overdue := Select(old(store.users), Overdue(now));
        var backend := store.schema == BackendSchema;
        var marked := if backend then old(store.users) else MarkExpired(store.schema, old(store.users), now);
        store.users == Select(marked, Not(Purgeable(now - deleteDays * DayMs))) &&
        effects == WarningMails(warned, now) + (if backend then [] else TeardownEffects(overdue, exec)) &&
        summary == Summary(|warned|, |overdue|, |marked| - |store.users|)
    {
      var approaching, warnings := WarningPass(store.users, now);
      var expiredUsers, teardowns := ExpirationPass(store, now, exec);
      var deleted := store.DeleteMany(Purgeable(now - deleteDays * DayMs));
      effects := warnings + teardowns;
      summary := Summary(|approaching|, |expiredUsers|, deleted);
    }

    /** The warning pass reads the store and writes nothing: nothing records
        that a warning went out. */
    method WarningPass(users: seq<Account>, now: Millis) returns (approaching: seq<Account>, effects: seq<Effect>)
      ensures approaching == Select(users, Approaching(now, now + warningHours * HourMs))
      ensures effects == WarningMails(approaching, now)
    {
      var threshold := now + warningHours * HourMs;
      approaching := Select(users, Approaching(now, threshold));
      effects := [];
      for i := 0 to |approaching|
        invariant effects == WarningMails(approaching[..i], now)
      {
        WarningMailsStep(approaching, i, now);
        effects := effects + [WarningFor(approaching[i], now)];
      }
      assert approaching[..|approaching|] == approaching;
    }
  }

  lemma WarningMailsStep(s: seq<Account>, i: nat, now: Millis)
    requires i < |s|
    ensures WarningMails(s[..i + 1], now) == WarningMails(s[..i], now) + [WarningFor(s[i], now)]
  {
    assert s[..i + 1][..i] == s[..i];
  }

  lemma TeardownEffectsStep(s: seq<Account>, i: nat, exec: string -> ExecResult)
    requires i < |s|
    ensures TeardownEffects(s[..i + 1], exec) == TeardownEffects(s[..i], exec) + Teardown(s[i], exec)
  {
    assert s[..i + 1][..i] == s[..i];
  }

  /** The expiration pass: each overdue record, loaded without its
      password, is marked expired and saved before its Linux user is removed
      and its owner notified. A failure in one account's turn is caught and
      the loop goes on; on the backend every save fails, so the pass changes
      nothing and does nothing outside the store. */
  method ExpirationPass(store: UserStore, now: Millis, exec: string -> ExecResult)
    returns (expiredUsers: seq<Account>, effects: seq<Effect>)
    requires store.Valid()
    modifies store
    ensures store.Valid() && store.nextId == old(store.nextId)
    ensures expiredUsers == Select(old(store.users), Overdue(now))
    ensures store.schema == BackendSchema ==> store.users == old(store.users) && effects == []
    ensures store.schema != BackendSchema ==>
      store.users == MarkExpired(store.schema, old(store.users), now) && effects == TeardownEffects(expiredUsers, exec)
  {
    ghost var users0 := store.users;
    expiredUsers := Select(store.users, Overdue(now));
    SelectKeepsDistinct(store.schema, users0, Overdue(now));
    effects := [];
    for i := 0 to |expiredUsers|
      invariant store.Valid() && store.nextId == old(store.nextId)
      invariant store.schema == BackendSchema ==> store.users == users0 && effects == []
      invariant store.schema != BackendSchema ==> Marked(store.schema, store.users, users0, expiredUsers[..i], now)
      invariant store.schema != BackendSchema ==> effects == TeardownEffects(expiredUsers[..i], exec)
    {
      var user := expiredUsers[i];
      if store.schema == BackendSchema {
        RefusedStep(users0, store.nextId, expiredUsers, i, now);
      } else {
        ExpireStep(store.schema, users0, store.users, store.nextId, expiredUsers, i, now);
        TeardownEffectsStep(expiredUsers, i, exec);
      }
      var r := store.Save(MarkedDocument(user), now);
      if r.Saved? {
        effects := effects + Teardown(user, exec);
      }
    }
    assert expiredUsers[..|expiredUsers|] == expiredUsers;
    if store.schema != BackendSchema {
      MarkedAll(store.schema, store.users, users0, now);
    }
  }

  /** What `isUserExpired(userId)` answers, the store it leaves and the mail
      it attempts. The record is loaded without its password; a save that
      throws propagates to the caller. */
  function ExpiryCheck(schema: Schema, users: seq<Account>, userId: nat, now: Millis)
    : (ExpiryAnswer, seq<Account>, seq<Effect>)
  {
    match FindFirst(users, ById(userId))
    case None => (Answer(true), users, [])
    case Some(k) => CheckFound(schema, users, users[k], now)
  }

  /** The check once the account `u` is found: marked already, overdue, or
      still within its period. */
  function CheckFound(schema: Schema, users: seq<Account>, u: Account, now: Millis)
    : (ExpiryAnswer, seq<Account>, seq<Effect>)
  {
    if u.isExpired then (Answer(true), users, [])
    else if Before(u.registrationExpires, now) && !FullyVerified(u) then MarkAndNotify(schema, users, u, now)
    else (Answer(false), users, [])
  }

  /** The overdue branch of the check: mark the account expired, save it,
      and send the notice; a failed notification is logged and the answer
      stands. */
  function MarkAndNotify(schema: Schema, users: seq<Account>, u: Account, now: Millis)
    : (ExpiryAnswer, seq<Account>, seq<Effect>)
  {
    match SaveOutcome(schema, users, MarkedDocument(u), now)
    case Rejected(e) => (Threw(e), users, [])
    case Saved(p) => (Answer(true), Replace(users, p), [Sent(ExpirationNotice(u.regularEmail, u.displayName))])
  }

  /** The check throws exactly when it has to mark an overdue account on
      the backend, whose hashing hook then refuses the save; the store and
      the mailbox are then left alone. Otherwise it answers true exactly for
      a missing or expired account or one whose registration period has
      passed unverified, and then that account is marked expired; an answer
      of false changes nothing. */
  lemma ExpiryCheckMeaning(schema: Schema, users: seq<Account>, nextId: nat, userId: nat, now: Millis)
    requires Consistent(schema, users, nextId)
    ensures var (answer, after, mails) := ExpiryCheck(schema, users, userId, now);
      (answer.Threw? <==> (schema == BackendSchema &&
        exists k :: 0 <= k < |users| && users[k].id == userId && Matches(Overdue(now), users[k]))) &&
      (answer.Threw? ==> answer.error == HashFailed && after == users && mails == []) &&
      (answer.Answer? ==> (answer.expired <==>
        (forall k :: 0 <= k < |users| ==> users[k].id != userId) ||
        (exists k :: 0 <= k < |users| && users[k].id == userId && Lapsed(users[k], now)))) &&
      (answer == Answer(false) ==> after == users) &&
      (answer == Answer(true) ==> forall k :: 0 <= k < |after| && after[k].id == userId ==> after[k].isExpired)
  {
    var f := FindFirst(users, ById(userId));
    if f.Some? {
      var k := f.value;
      var u := users[k];
      assert forall j :: 0 <= j < |users| && users[j].id == userId ==> j == k by {
        forall j | 0 <= j < |users| && users[j].id == userId ensures j == k {
          IdsPin(schema, users, j, k);
        }
      }
      assert u.id == userId;
      ExpiryCheckAt(schema, users, nextId, k, now);
      if Matches(Overdue(now), u) && schema != BackendSchema {
        ExpiryCheckMarks(schema, users, nextId, k, now);
        ExpiredRecord(schema, u, now);
      }
    } else {
      assert forall k :: 0 <= k < |users| ==> !Matches(ById(userId), users[k]);
    }
  }

  /** An account past its registration period: marked already, or its
      deadline passed before both channels were verified. */
  predicate Lapsed(u: Account, now: Millis) {
    u.isExpired || (Before(u.registrationExpires, now) && !FullyVerified(u))
  }

  /** The check of a stored account: on the backend an overdue account
      makes it throw and leaves everything as it was; otherwise it answers
      whether the account has lapsed. It keeps the store consistent,
      touches that account only, and marks it expired without changing its
      verification flags. */
  lemma ExpiryCheckAt(schema: Schema, users: seq<Account>, nextId: nat, k: nat, now: Millis)
    requires Consistent(schema, users, nextId) && k < |users|
    ensures var (answer, after, mails) := ExpiryCheck(schema, users, users[k].id, now);
      (schema == BackendSchema && Matches(Overdue(now), users[k]) ==>
        answer == Threw(HashFailed) && after == users && mails == []) &&
      (!(schema == BackendSchema && Matches(Overdue(now), users[k])) ==> answer == Answer(Lapsed(users[k], now))) &&
      Consistent(schema, after, nextId) &&
      |after| == |users| && (forall j :: 0 <= j < |users| && j != k ==> after[j] == users[j]) &&
      after[k].isEmailVerified == users[k].isEmailVerified && after[k].id == users[k].id &&
      (!Lapsed(users[k], now) ==> after == users && mails == [])
  {
    if !Matches(Overdue(now), users[k]) {
      ExpiryCheckNotOverdue(schema, users, nextId, k, now);
    } else if schema == BackendSchema {
      ExpiryCheckThrows(users, nextId, k, now);
    } else {
      ExpiryCheckMarks(schema, users, nextId, k, now);
      MarkOne(schema, users, nextId, k, now);
    }
  }

  /** The check of a stored account that is not overdue answers its mark
      and changes nothing. */
  lemma ExpiryCheckNotOverdue(schema: Schema, users: seq<Account>, nextId: nat, k: nat, now: Millis)
    requires Consistent(schema, users, nextId) && k < |users| && !Matches(Overdue(now), users[k])
    ensures ExpiryCheck(schema, users, users[k].id, now) == (Answer(users[k].isExpired), users, [])
  {
    FindsById(schema, users, k);
    CheckById(schema, users, k, now);
    OverdueMeaning(users[k], now);
    CheckOfNotOverdue(schema, users, users[k], now);
  }

  /** On the backend the check of an overdue account throws the hashing
      error and changes nothing. */
  lemma ExpiryCheckThrows(users: seq<Account>, nextId: nat, k: nat, now: Millis)
    requires Consistent(BackendSchema, users, nextId) && k < |users| && Matches(Overdue(now), users[k])
    ensures ExpiryCheck(BackendSchema, users, users[k].id, now) == (Threw(HashFailed), users, [])
  {
    FindsById(BackendSchema, users, k);
    MarkSaves(BackendSchema, users, nextId, k, now);
    CheckById(BackendSchema, users, k, now);
    OverdueMeaning(users[k], now);
    CheckOfOverdue(BackendSchema, users, users[k], now);
  }

  /** On the server the check of an overdue account marks it expired and
      sends the notice. */
  lemma ExpiryCheckMarks(schema: Schema, users: seq<Account>, nextId: nat, k: nat, now: Millis)
    requires Consistent(schema, users, nextId) && schema != BackendSchema && k < |users| && Matches(Overdue(now), users[k])
    ensures ExpiryCheck(schema, users, users[k].id, now) ==
      (Answer(true), Replace(users, Expired(schema, users[k], now)),
       [Sent(ExpirationNotice(users[k].regularEmail, users[k].displayName))])
  {
    FindsById(schema, users, k);
    MarkSaves(schema, users, nextId, k, now);
    CheckById(schema, users, k, now);
    OverdueMeaning(users[k], now);
    CheckOfOverdue(schema, users, users[k], now);
    NotifyOfSaved(schema, users, users[k], now, Expired(schema, users[k], now));
  }

  /** The check finds the account by its id. */
  lemma CheckById(schema: Schema, users: seq<Account>, k: nat, now: Millis)
    requires k < |users| && FindFirst(users, ById(users[k].id)) == Some(k)
    ensures ExpiryCheck(schema, users, users[k].id, now) == CheckFound(schema, users, users[k], now)
  {
  }

  /** The found account is not overdue: it is answered by its mark. */
  lemma CheckOfNotOverdue(schema: Schema, users: seq<Account>, u: Account, now: Millis)
    requires u.isExpired || !Before(u.registrationExpires, now) || FullyVerified(u)
    ensures CheckFound(schema, users, u, now) == (Answer(u.isExpired), users, [])
  {
  }

  /** The found account is overdue: it is marked and notified. */
  lemma CheckOfOverdue(schema: Schema, users: seq<Account>, u: Account, now: Millis)
    requires Before(u.registrationExpires, now) && !u.isExpired && !FullyVerified(u)
    ensures CheckFound(schema, users, u, now) == MarkAndNotify(schema, users, u, now)
  {
  }

  /** A save that goes through marks the account and sends the notice. */
  lemma NotifyOfSaved(schema: Schema, users: seq<Account>, u: Account, now: Millis, p: Account)
    requires SaveOutcome(schema, users, MarkedDocument(u), now) == Saved(p)
    ensures MarkAndNotify(schema, users, u, now) ==
      (Answer(true), Replace(users, p), [Sent(ExpirationNotice(u.regularEmail, u.displayName))])
  {
  }

  /** The expiration selection, spelled out. */
  lemma OverdueMeaning(u: Account, now: Millis)
    ensures Matches(Overdue(now), u) <==> Before(u.registrationExpires, now) && !u.isExpired && !FullyVerified(u)
  {
  }

  /** On the backend the check of a lapsed account answers true when it
      is marked already and otherwise throws the hashing error; either way
      the store and the mailbox are left alone. */
  lemma ExpiryCheckLapsedOnBackend(users: seq<Account>, nextId: nat, k: nat, now: Millis)
    requires Consistent(BackendSchema, users, nextId) && k < |users| && Lapsed(users[k], now)
    ensures ExpiryCheck(BackendSchema, users, users[k].id, now) ==
      (if users[k].isExpired then Answer(true) else Threw(HashFailed), users, [])
  {
    if Matches(Overdue(now), users[k]) {
      ExpiryCheckThrows(users, nextId, k, now);
    } else {
      ExpiryCheckNotOverdue(BackendSchema, users, nextId, k, now);
    }
  }

  /** The check of an account that has not lapsed answers false and
      leaves the store and the mailbox alone. */
  lemma ExpiryCheckKeeps(schema: Schema, users: seq<Account>, nextId: nat, k: nat, now: Millis)
    requires Consistent(schema, users, nextId) && k < |users| && !Lapsed(users[k], now)
    ensures ExpiryCheck(schema, users, users[k].id, now) == (Answer(false), users, [])
  {
    ExpiryCheckAt(schema, users, nextId, k, now);
  }

  /** Marking one account expired from the document loaded without its
      password: the backend's hashing hook refuses the save; on the server
      it succeeds and writes that account only. */
  lemma MarkOne(schema: Schema, users: seq<Account>, nextId: nat, k: nat, now: Millis)
    requires Consistent(schema, users, nextId) && k < |users|
    ensures SaveOutcome(schema, users, MarkedDocument(users[k]), now) ==
      if schema == BackendSchema then Rejected(HashFailed) else Saved(Expired(schema, users[k], now))
    ensures var after := Replace(users, Expired(schema, users[k], now));
      schema != BackendSchema ==>
      Consistent(schema, after, nextId) && |after| == |users| &&
      (forall j :: 0 <= j < |users| && j != k ==> after[j] == users[j]) &&
      after[k].isEmailVerified == users[k].isEmailVerified && after[k].id == users[k].id
  {
    var u := users[k];
    var doc := MarkedDocument(u);
    MarkSaves(schema, users, nextId, k, now);
    if schema != BackendSchema {
      SaveKeepsConsistent(schema, users, nextId, doc, now);
    }
  }

  /** The save of the marked record, loaded without its password: the
      backend's hashing hook refuses it, the server saves the marked account
      with its stored hash. */
  lemma MarkSaves(schema: Schema, users: seq<Account>, nextId: nat, k: nat, now: Millis)
    requires Consistent(schema, users, nextId) && k < |users|
    ensures SaveOutcome(schema, users, MarkedDocument(users[k]), now) ==
      if schema == BackendSchema then Rejected(HashFailed) else Saved(Expired(schema, users[k], now))
  {
    var u := users[k];
    var doc := MarkedDocument(u);
    SaveOfUnloaded(schema, users, nextId, k, doc, now);
    assert doc.(password := u.password) == u.(isExpired := true);
    if schema != BackendSchema {
      HooksOfLoaded(schema, u.(isExpired := true), u, now);
    }
  }

  /** `isUserExpired(userId)` against the store. */
  method IsUserExpired(store: UserStore, userId: nat, now: Millis) returns (r: ExpiryAnswer, effects: seq<Effect>)
    requires store.Valid()
    modifies store
    ensures store.Valid() && store.nextId == old(store.nextId)
    ensures (r, store.users, effects) == ExpiryCheck(store.schema, old(store.users), userId, now)
  {
    effects := [];
    var k := FindFirst(store.users, ById(userId));
    if k.None? {
      return Answer(true), [];
    }
    var user := store.users[k.value];
    if user.isExpired {
      return Answer(true), [];
    }
    if Before(user.registrationExpires, now) && !FullyVerified(user) {
      var saved := store.Save(MarkedDocument(user), now);
      if saved.Rejected? {
        return Threw(saved.error), [];
      }
      // A failed notification is logged and the answer stands.
      return Answer(true), [Sent(ExpirationNotice(user.regularEmail, user.displayName))];
    }
    return Answer(false), [];
  }
}
