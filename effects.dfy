/** What the handlers and services do outside the store: the replies they
    send, the mails they hand to the mail service and the shell commands
    they run. */
module Effects {
  import opened Common
  import opened Accounts

  /** The HTTP answer of a handler: a JSON body with its `status` and
      `message` fields under a status code, or a redirect. */
  datatype Reply = Json(code: int, status: string, message: string) | Redirect(location: string)

  function Failure(code: int, message: string): Reply {
    Json(code, "error", message)
  }

  function Success(code: int, message: string): Reply {
    Json(code, "success", message)
  }

  datatype Mail =
    | VerificationMail(to: string, token: string)
    | VerificationMailToRecord(record: Account)   // the record where the address belongs, no token
    | PasswordResetMail(to: string, token: string)
    | WelcomeMail(to: string, name: string)
    | ExpirationWarning(to: string, name: string, hoursLeft: Option<int>)   // `None` is NaN
    | ExpirationNotice(to: string, name: string)

  /** The privileged commands of the provisioning and teardown code. */
  datatype Command =
    | UserAdd(user: string, group: string, shell: string)
    | ChangePassword(user: string, password: string)
    | MakeMaildir(user: string)
    | OwnMaildir(user: string, group: string)
    | LockMaildir(user: string)
    | SetQuota(user: string, megabytes: nat)
    | MakeDir(user: string, dir: string)
    | OwnHome(user: string, group: string)
    | LockHome(user: string)
    | UserDel(user: string)
    | RemoveSpool(user: string)
    | Id(user: string)
    | Groups(user: string)
    | HomeSize(user: string)

  /** The text handed to `exec`. */
  function Shell(c: Command): string {
    match c
    case UserAdd(u, g, s) => "sudo useradd -m -g " + g + " -s " + s + " " + u
    case ChangePassword(u, p) => "echo \"" + u + ":" + p + "\" | sudo chpasswd"
    case MakeMaildir(u) => "sudo mkdir -p /home/" + u + "/Maildir/{new,cur,tmp}"
    case OwnMaildir(u, g) => "sudo chown -R " + u + ":" + g + " /home/" + u + "/Maildir"
    case LockMaildir(u) => "sudo chmod -R 700 /home/" + u + "/Maildir"
    case SetQuota(u, mb) => "sudo setquota -u " + u + " 0 " + DecimalString(mb) + "M 0 0 /home"
    case MakeDir(u, d) => "sudo mkdir -p /home/" + u + "/" + d
    case OwnHome(u, g) => "sudo chown -R " + u + ":" + g + " /home/" + u
    case LockHome(u) => "sudo chmod -R 750 /home/" + u
    case UserDel(u) => "sudo userdel -r " + u
    case RemoveSpool(u) => "sudo rm -rf /var/spool/mail/" + u
    case Id(u) => "id " + u
    case Groups(u) => "groups " + u
    case HomeSize(u) => "sudo du -sh /home/" + u + " | cut -f1"
  }

  datatype Effect = Sent(mail: Mail) | Ran(command: Command)
}
