/** The provisioning of an account's system user: a fixed, ordered list of
    privileged commands run one after another, stopping at the first that
    fails; the removal of the user, which tolerates a user that is already
    gone; and the existence check. The shell is the `exec` parameter. */
module UserSystem {
  import opened Common
  import opened Effects

  /** What a service call settles to: its value, or the error it throws. */
  datatype Settled = Fulfilled(value: bool) | Thrown(message: string)

  /** The storage directories created under the home directory, in order. */
  const StorageDirs: seq<string> := [
    "public/photos", "public/documents", "public/shared",
    "private/backups", "private/settings", "private/mail"]

  /** One `mkdir -p` per storage directory, in order. */
  function MakeDirs(username: string, dirs: seq<string>): (r: seq<Command>)
    ensures |r| == |dirs|
    ensures forall i :: 0 <= i < |dirs| ==> r[i] == MakeDir(username, dirs[i])
  {
    if dirs == [] then [] else [MakeDir(username, dirs[0])] + MakeDirs(username, dirs[1..])
  }

  /** Where each part of a list of commands built from four parts lands. */
  lemma Layout(head: seq<Command>, quota: seq<Command>, dirs: seq<Command>, tail: seq<Command>)
    ensures var all := head + quota + dirs + tail;
      |all| == |head| + |quota| + |dirs| + |tail| &&
      (forall i :: 0 <= i < |head| ==> all[i] == head[i]) &&
      (forall i :: 0 <= i < |quota| ==> all[|head| + i] == quota[i]) &&
      (forall i :: 0 <= i < |dirs| ==> all[|head| + |quota| + i] == dirs[i]) &&
      (forall i :: 0 <= i < |tail| ==> all[|head| + |quota| + |dirs| + i] == tail[i])
  {
  }

  /** Every command before `n` succeeded. */
  predicate AllDone(cmds: seq<Command>, n: int, exec: string -> ExecResult)
    requires n <= |cmds|
  {
    forall i :: 0 <= i < n ==> exec(Shell(cmds[i])).Done?
  }

  /** The sequential executor of `await execAsync(...)` steps: each command
      runs only when every earlier one succeeded, and the first failure's
      error propagates. */
  method RunAll(cmds: seq<Command>, exec: string -> ExecResult) returns (r: Settled, ran: seq<Command>)
    ensures ran <= cmds && AllDone(cmds, |ran| - 1, exec)
    ensures r.Fulfilled? <==> AllDone(cmds, |cmds|, exec)
    ensures r.Fulfilled? ==> r.value && ran == cmds
    ensures r.Thrown? ==> |ran| >= 1 && exec(Shell(ran[|ran| - 1])) == Failed(r.message)
  {
    ran := [];
    for i := 0 to |cmds|
      invariant ran == cmds[..i] && AllDone(cmds, i, exec)
    {
      ran := ran + [cmds[i]];
      var result := exec(Shell(cmds[i]));
      if result.Failed? {
        return Thrown(result.message), ran;
      }
    }
    return Fulfilled(true), ran;
  }

  class UserSystemService {
    const defaultShell: string := "/bin/bash"
    const userGroup: string := "csmcl"
    const isDevelopment: bool

    /** `NODE_ENV` decides the development mode. */
    constructor (nodeEnv: Option<string>)
      ensures isDevelopment <==> nodeEnv == Some("development")
    {
      isDevelopment := nodeEnv == Some("development");
    }

    /** The commands of `createSystemUser`, in the order they are awaited;
        the quota step (100 MB) is there only outside development. */
    function ProvisionCommands(username: string, password: string): seq<Command> {
      [UserAdd(username, userGroup, defaultShell), ChangePassword(username, password),
       MakeMaildir(username), OwnMaildir(username, userGroup), LockMaildir(username)] +
      (if isDevelopment then [] else [SetQuota(username, 100)]) +
      MakeDirs(username, StorageDirs) +
      [OwnHome(username, userGroup), LockHome(username)]
    }

    /** The order of provisioning: user, password, Maildir, quota only
        outside development, the six storage directories in order, then the
        ownership and permissions of the home directory. */
    lemma ProvisionOrder(username: string, password: string)
      ensures var cmds := ProvisionCommands(username, password);
        var q := if isDevelopment then 0 else 1;
        |cmds| == 13 + q &&
        cmds[0] == UserAdd(username, "csmcl", "/bin/bash") && cmds[1] == ChangePassword(username, password) &&
        cmds[2] == MakeMaildir(username) && cmds[3] == OwnMaildir(username, "csmcl") &&
        cmds[4] == LockMaildir(username) &&
        (!isDevelopment ==> cmds[5] == SetQuota(username, 100)) &&
        (forall i :: 0 <= i < |StorageDirs| ==> cmds[5 + q + i] == MakeDir(username, StorageDirs[i])) &&
        cmds[11 + q] == OwnHome(username, "csmcl") && cmds[12 + q] == LockHome(username)
    {
      var head := [UserAdd(username, userGroup, defaultShell), ChangePassword(username, password),
                   MakeMaildir(username), OwnMaildir(username, userGroup), LockMaildir(username)];
      var quota: seq<Command> := if isDevelopment then [] else [SetQuota(username, 100)];
      var dirs := MakeDirs(username, StorageDirs);
      var tail := [OwnHome(username, userGroup), LockHome(username)];
      assert ProvisionCommands(username, password) == head + quota + dirs + tail;
      Layout(head, quota, dirs, tail);
      if isDevelopment {
        assert |head| + |quota| == 5;
      } else {
        assert |head| + |quota| == 6;
      }
    }

    /** Development mode never sets a quota. */
    lemma NoQuotaInDevelopment(username: string, password: string)
      ensures (exists i :: 0 <= i < |ProvisionCommands(username, password)| &&
                 ProvisionCommands(username, password)[i].SetQuota?) <==> !isDevelopment
    {
      ProvisionOrder(username, password);
      var cmds := ProvisionCommands(username, password);
      if isDevelopment {
        forall i | 0 <= i < |cmds| ensures !cmds[i].SetQuota? {
          if 5 <= i < 11 {
            assert cmds[i] == MakeDir(username, StorageDirs[i - 5]);
          }
        }
      } else {
        assert cmds[5].SetQuota?;
      }
    }

    /** `createSystemUser(username, password)`: the commands run in order
        until one fails; its error propagates and nothing done is undone. */
    method CreateSystemUser(username: string, password: string, exec: string -> ExecResult)
      returns (r: Settled, ran: seq<Command>)
      ensures var cmds := ProvisionCommands(username, password);
        ran <= cmds && AllDone(cmds, |ran| - 1, exec) &&
        (r.Fulfilled? <==> AllDone(cmds, |cmds|, exec)) &&
        (r.Fulfilled? ==> r.value && ran == cmds) &&
        (r.Thrown? ==> |ran| >= 1 && exec(Shell(ran[|ran| - 1])) == Failed(r.message))
    {
      r, ran := RunAll(ProvisionCommands(username, password), exec);
    }

    /** `setUserQuota(username, quotaMB)`: nothing to do in development. */
    method SetUserQuota(username: string, quotaMB: nat, exec: string -> ExecResult)
      returns (r: Settled, ran: seq<Command>)
      ensures isDevelopment ==> r == Fulfilled(true) && ran == []
      ensures !isDevelopment ==> (ran == [SetQuota(username, quotaMB)] &&
        (r == Fulfilled(true) <==> exec(Shell(SetQuota(username, quotaMB))).Done?) &&
        (r.Thrown? ==> exec(Shell(SetQuota(username, quotaMB))) == Failed(r.message)))
    {
      if isDevelopment {
        return Fulfilled(true), [];
      }
      ran := [SetQuota(username, quotaMB)];
      var result := exec(Shell(SetQuota(username, quotaMB)));
      if result.Failed? {
        return Thrown(result.message), ran;
      }
      return Fulfilled(true), ran;
    }
  }

  /** The message of the first failing command of the removal, if any. */
  function RemovalError(username: string, exec: string -> ExecResult): Option<string> {
    var del := exec(Shell(UserDel(username)));
    if del.Failed? then Some(del.message)
    else
      var spool := exec(Shell(RemoveSpool(username)));
      if spool.Failed? then Some(spool.message) else None
  }

  /** `deleteSystemUser(username)`: `userdel -r`, then the mail spool. A
      failure that says the user does not exist counts as done; any other
      failure is rethrown with a prefix. */
  method DeleteSystemUser(username: string, exec: string -> ExecResult) returns (r: Settled, ran: seq<Command>)
    ensures ran == [UserDel(username)] + (if exec(Shell(UserDel(username))).Done? then [RemoveSpool(username)] else [])
    ensures r.Fulfilled? ==> r.value
    ensures r.Fulfilled? <==>
      RemovalError(username, exec).None? || Contains(RemovalError(username, exec).value, "user does not exist")
    ensures r.Thrown? ==> r.message == "Failed to delete system user: " + RemovalError(username, exec).value
  {
    ran := [UserDel(username)];
    var del := exec(Shell(UserDel(username)));
    var failure: Option<string> := None;
    if del.Failed? {
      failure := Some(del.message);
    } else {
      ran := ran + [RemoveSpool(username)];
      var spool := exec(Shell(RemoveSpool(username)));
      if spool.Failed? {
        failure := Some(spool.message);
      }
    }
    if failure.None? || Contains(failure.value, "user does not exist") {
      return Fulfilled(true), ran;
    }
    return Thrown("Failed to delete system user: " + failure.value), ran;
  }

  /** `checkSystemUser(username)`: whether `id` finds the user; a failing
      `id` answers false rather than throwing. */
  function CheckSystemUser(username: string, exec: string -> ExecResult): (r: bool)
    ensures r <==> exec(Shell(Id(username))).Done?
  {
    exec(Shell(Id(username))).Done?
  }
}
