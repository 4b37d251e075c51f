/** The administration router: a gate in front of every route that admits
    the process only when it runs as root or its user is in an
    administrative group, then the listing, details, deletion and forced
    verification of accounts by handle. The shell is the `exec` parameter;
    the process's uid and `USER` are parameters too. */
module AdminRoutes {
  import opened Common
  import opened Accounts
  import opened Store
  import opened Effects
  import opened Updates
  import opened UserSystem
  import Backend = BackendUserModel

  // ---------------------------------------------------------------- the gate

  /** The gate either hands the request on or answers it itself. */
  datatype Gate = Pass | Refuse(reply: Reply)

  predicate AdminGroup(g: string) {
    g == "sudo" || g == "wheel" || g == "root"
  }

  /** `groups.some(g => ['sudo', 'wheel', 'root'].includes(g))`. */
  function SomeAdmin(gs: seq<string>): (r: bool)
    ensures r <==> exists i :: 0 <= i < |gs| && AdminGroup(gs[i])
  {
    if gs == [] then false
    else if AdminGroup(gs[0]) then true
    else
      var rest := SomeAdmin(gs[1..]);
      assert forall i :: 1 <= i < |gs| ==> gs[i] == gs[1..][i - 1];
      rest
  }

  /** `process.env.USER || 'root'`: an unset or empty variable means root. */
  function GroupsTarget(user: Option<string>): string {
    if user.Some? && user.value != "" then user.value else "root"
  }

  /** `isAdmin`: the answer of the gate and the command it runs. */
  function AdminGate(uid: int, user: Option<string>, exec: string -> ExecResult): (Gate, seq<Effect>) {
    if uid == 0 then (Pass, [])
    else
      var cmd := Groups(GroupsTarget(user));
      match exec(Shell(cmd))
      case Failed(_) => (Refuse(Failure(500, "Failed to verify administrative privileges")), [Ran(cmd)])
      case Done(out) =>
        if SomeAdmin(SplitOn(Trim(out), ' ')) then (Pass, [Ran(cmd)])
        else (Refuse(Failure(403, "Requires administrative privileges")), [Ran(cmd)])
  }

  /** Root passes without any command; otherwise the one `groups` call of
      the user (root when `USER` is unset or empty) decides: the request
      passes exactly when a space-separated word of the trimmed output is
      `sudo`, `wheel` or `root`, is refused with 403 when none is, and with
      500 when the command fails. */
  lemma AdminGateDecides(uid: int, user: Option<string>, exec: string -> ExecResult)
    ensures var (gate, ran) := AdminGate(uid, user, exec);
      var cmd := Groups(GroupsTarget(user));
      var out := exec(Shell(cmd));
      var words := if out.Done? then SplitOn(Trim(out.stdout), ' ') else [];
      (uid == 0 ==> gate == Pass && ran == []) &&
      (uid != 0 ==> (ran == [Ran(cmd)] &&
        (gate == Pass <==> out.Done? && exists i :: 0 <= i < |words| && AdminGroup(words[i])) &&
        (gate == Refuse(Failure(403, "Requires administrative privileges")) <==>
           out.Done? && forall i :: 0 <= i < |words| ==> !AdminGroup(words[i])) &&
        (gate == Refuse(Failure(500, "Failed to verify administrative privileges")) <==> out.Failed?)))
  {
    if uid != 0 {
      var out := exec(Shell(Groups(GroupsTarget(user))));
      if out.Done? {
        AdminWords(SplitOn(Trim(out.stdout), ' '));
      }
    }
  }

  lemma AdminWords(words: seq<string>)
    ensures SomeAdmin(words) <==> exists i :: 0 <= i < |words| && AdminGroup(words[i])
    ensures !SomeAdmin(words) <==> forall i :: 0 <= i < |words| ==> !AdminGroup(words[i])
  {
  }

  /** A request behind the gate: a refused one is answered by the gate
      alone, an admitted one by the route after the gate's command. */
  function Behind(gate: (Gate, seq<Effect>), users: seq<Account>, route: (Reply, seq<Account>, seq<Effect>))
    : (r: (Reply, seq<Account>, seq<Effect>))
    ensures gate.0.Refuse? ==> r == (gate.0.reply, users, gate.1)
    ensures gate.0.Pass? ==> r == (route.0, route.1, gate.1 + route.2)
  {
    if gate.0.Refuse? then (gate.0.reply, users, gate.1) else (route.0, route.1, gate.1 + route.2)
  }

  /** A refused request changes no record and runs nothing but the
      `groups` call. */
  lemma RefusedChangesNothing(uid: int, user: Option<string>, exec: string -> ExecResult,
                              users: seq<Account>, route: (Reply, seq<Account>, seq<Effect>))
    requires AdminGate(uid, user, exec).0.Refuse?
    ensures var r := Behind(AdminGate(uid, user, exec), users, route);
      r.1 == users && r.2 == [Ran(Groups(GroupsTarget(user)))] && r.0.code in {403, 500}
  {
  }

  // ---------------------------------------------------------------- groups output

  /** `groups.trim().split(' ').slice(2)`: the words after the user name
      and the colon. */
  function ReportedGroups(out: string): (r: seq<string>) {
    var words := SplitOn(Trim(out), ' ');
    if |words| <= 2 then [] else words[2..]
  }

  /** On a `groups` output line (words without spaces, separated by single
      spaces, then a newline; the user name and a colon come first) the
      reported groups are exactly the words after the first two. */
  lemma ReportedGroupsOfOutput(words: seq<string>)
    requires |words| >= 2 && forall k :: 0 <= k < |words| ==> words[k] != "" && NoSpace(words[k])
    ensures ReportedGroups(Join(words, " ") + "\n") == words[2..]
  {
    SplitOutputLine(words);
    GroupsAfterTwo(Join(words, " ") + "\n", words);
  }

  lemma GroupsAfterTwo(out: string, words: seq<string>)
    requires |words| >= 2 && SplitOn(Trim(out), ' ') == words
    ensures ReportedGroups(out) == words[2..]
  {
  }

  // ---------------------------------------------------------------- listing

  /** The fields the listing projects (the identifier comes along). */
  datatype Listed = Listed(id: nat, displayName: string, csmclName: string, regularEmail: string,
                           isEmailVerified: bool, createdAt: Millis)

  function Project(a: Account): Listed {
    Listed(a.id, a.displayName, a.csmclName, a.regularEmail, a.isEmailVerified, a.createdAt)
  }

  /** `GET /users`: every record, in store order, projected. */
  function ListUsers(users: seq<Account>): (r: seq<Listed>)
    ensures |r| == |users|
    ensures forall i :: 0 <= i < |users| ==> r[i] == Project(users[i])
  {
    if users == [] then [] else [Project(users[0])] + ListUsers(users[1..])
  }

  /** Two stores that agree on the projected fields of each record list
      alike: no password, token, code, number or other date shows. */
  lemma ListingHidesTheRest(users: seq<Account>, others: seq<Account>)
    requires |users| == |others|
    requires forall i :: 0 <= i < |users| ==>
      users[i].id == others[i].id && users[i].displayName == others[i].displayName &&
      users[i].csmclName == others[i].csmclName && users[i].regularEmail == others[i].regularEmail &&
      users[i].isEmailVerified == others[i].isEmailVerified && users[i].createdAt == others[i].createdAt
    ensures ListUsers(users) == ListUsers(others)
  {
    assert forall i :: 0 <= i < |users| ==> ListUsers(users)[i] == ListUsers(others)[i];
  }

  // ---------------------------------------------------------------- details

  datatype DetailsAnswer =
    | UserDetails(user: Account, homeSize: string, groups: seq<string>)
    | Answer(reply: Reply)

  /** `GET /users/:csmclName`: the record as the lookup loads it, without
      its password, then its home size and its groups from the shell, the
      first failing command answering 500. The lookup casts the handle; the
      commands get it as given. */
  function DetailsOutcome(users: seq<Account>, csmclName: string, exec: string -> ExecResult)
    : (DetailsAnswer, seq<Effect>)
  {
    match FindFirst(users, ByHandle(Backend.CastKey(csmclName)))
    case None => (Answer(Failure(404, "User not found")), [])
    case Some(k) =>
      var size := exec(Shell(HomeSize(csmclName)));
      if size.Failed? then (Answer(Failure(500, "Failed to get user details")), [Ran(HomeSize(csmclName))])
      else
        var groups := exec(Shell(Groups(csmclName)));
        if groups.Failed? then
          (Answer(Failure(500, "Failed to get user details")), [Ran(HomeSize(csmclName)), Ran(Groups(csmclName))])
        else
          (UserDetails(WithoutPassword(users[k]), Trim(size.stdout), ReportedGroups(groups.stdout)),
           [Ran(HomeSize(csmclName)), Ran(Groups(csmclName))])
  }

  /** Details are given exactly for a known handle whose two commands both
      succeed; they are those of the first record with the cast handle,
      without the password hash, and the groups command runs only after the
      size command succeeded. */
  lemma DetailsOfFirst(users: seq<Account>, csmclName: string, exec: string -> ExecResult)
    ensures var (answer, ran) := DetailsOutcome(users, csmclName, exec);
      var f := FindFirst(users, ByHandle(Backend.CastKey(csmclName)));
      var size := exec(Shell(HomeSize(csmclName)));
      var groups := exec(Shell(Groups(csmclName)));
      (answer.UserDetails? <==> f.Some? && size.Done? && groups.Done?) &&
      (answer.UserDetails? ==> (answer.user == WithoutPassword(users[f.value]) &&
         answer.user.csmclName == Backend.CastKey(csmclName) && answer.user.password == Unloaded &&
         answer.homeSize == Trim(size.stdout) && answer.groups == ReportedGroups(groups.stdout))) &&
      (answer == Answer(Failure(404, "User not found")) <==> f.None?) &&
      (f.None? ==> ran == []) &&
      (f.Some? ==> ran == [Ran(HomeSize(csmclName))] + (if size.Done? then [Ran(Groups(csmclName))] else []))
  {
  }

  // ---------------------------------------------------------------- delete

  function AsEffects(cs: seq<Command>): (r: seq<Effect>)
    ensures |r| == |cs| && forall i :: 0 <= i < |cs| ==> r[i] == Ran(cs[i])
  {
    if cs == [] then [] else [Ran(cs[0])] + AsEffects(cs[1..])
  }

  /** The commands of the system-user removal. */
  function SystemRemoval(csmclName: string, exec: string -> ExecResult): seq<Command> {
    [UserDel(csmclName)] + (if exec(Shell(UserDel(csmclName))).Done? then [RemoveSpool(csmclName)] else [])
  }

  /** `DELETE /users/:csmclName`: the system user first, its failure
      swallowed, then the first record with the handle. */
  function AdminDeleteOutcome(users: seq<Account>, csmclName: string, exec: string -> ExecResult)
    : (Reply, seq<Account>, seq<Effect>)
  {
    match FindFirst(users, ByHandle(Backend.CastKey(csmclName)))
    case None => (Failure(404, "User not found"), users, [])
    case Some(_) =>
      (Success(200, "User deleted successfully"), DeleteOneOutcome(users, ByHandle(Backend.CastKey(csmclName))),
       AsEffects(SystemRemoval(csmclName, exec)))
  }

  method AdminDeleteUser(store: UserStore, csmclName: string, exec: string -> ExecResult)
    returns (reply: Reply, effects: seq<Effect>)
    requires store.Valid()
    modifies store
    ensures store.Valid()
    ensures (reply, store.users, effects) == AdminDeleteOutcome(old(store.users), csmclName, exec)
  {
    var k := FindFirst(store.users, ByHandle(Backend.CastKey(csmclName)));
    if k.None? {
      return Failure(404, "User not found"), [];
    }
    var _, ran := DeleteSystemUser(csmclName, exec);
    var removed := store.DeleteOne(ByHandle(Backend.CastKey(csmclName)));
    effects := AsEffects(ran);
    reply := Success(200, "User deleted successfully");
  }

  /** Whatever the shell does, a known handle loses its first record, every
      other record stays in order, and the answer is 200; `userdel -r` is
      the first command and the spool goes only after it succeeded. An
      unknown handle runs nothing and changes nothing. */
  lemma AdminDeleteRemoves(users: seq<Account>, csmclName: string, exec: string -> ExecResult)
    ensures var (reply, after, effects) := AdminDeleteOutcome(users, csmclName, exec);
      var f := FindFirst(users, ByHandle(Backend.CastKey(csmclName)));
      (f.None? ==> reply == Failure(404, "User not found") && after == users && effects == []) &&
      (f.Some? ==> (reply == Success(200, "User deleted successfully") &&
         after == RemoveAt(users, f.value) && |effects| >= 1 && effects[0] == Ran(UserDel(csmclName)) &&
         (|effects| == 2 <==> exec(Shell(UserDel(csmclName))).Done?)))
  {
  }

  // ---------------------------------------------------------------- force-verify

  /** `POST /users/:csmclName/verify`: the flag set, the token and its
      expiry cleared, and the record, loaded without its password, saved. */
  function ForceVerifyOutcome(users: seq<Account>, csmclName: string, now: Millis): (Reply, seq<Account>) {
    match FindFirst(users, ByHandle(Backend.CastKey(csmclName)))
    case None => (Failure(404, "User not found"), users)
    case Some(k) =>
      match SaveOutcome(BackendSchema, users, Apply(ConfirmEmail, WithoutPassword(users[k])), now)
      case Rejected(_) => (Failure(500, "Failed to verify user"), users)
      case Saved(p) => (Success(200, "User " + csmclName + " verified successfully"), Replace(users, p))
  }

  method ForceVerify(store: UserStore, csmclName: string, now: Millis) returns (reply: Reply)
    requires store.Valid() && store.schema == BackendSchema
    modifies store
    ensures store.Valid()
    ensures (reply, store.users) == ForceVerifyOutcome(old(store.users), csmclName, now)
  {
    var k := FindFirst(store.users, ByHandle(Backend.CastKey(csmclName)));
    if k.None? {
      return Failure(404, "User not found");
    }
    var user := WithoutPassword(store.users[k.value]);
    var r := store.Save(Apply(ConfirmEmail, user), now);
    if r.Rejected? {
      return Failure(500, "Failed to verify user");
    }
    reply := Success(200, "User " + csmclName + " verified successfully");
  }

  /** An unknown handle answers 404. For a known one the save is refused by
      the hashing hook, as the password was not loaded: the reply is 500.
      Either way no record changes. */
  lemma ForceVerifyFails(users: seq<Account>, nextId: nat, csmclName: string, now: Millis)
    requires Consistent(BackendSchema, users, nextId)
    ensures var (reply, after) := ForceVerifyOutcome(users, csmclName, now);
      var f := FindFirst(users, ByHandle(Backend.CastKey(csmclName)));
      (f.None? ==> reply == Failure(404, "User not found")) &&
      (f.Some? ==> reply == Failure(500, "Failed to verify user")) &&
      after == users
  {
    var f := FindFirst(users, ByHandle(Backend.CastKey(csmclName)));
    if f.Some? {
      SaveOfUnloadedUpdate(BackendSchema, users, nextId, f.value, ConfirmEmail, now);
    }
  }
}
