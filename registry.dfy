// The bot's static command registry and its two reply keyboards
// (telegram_bot.py:44-240 and 244-275).

module Registry {
  import opened Strings

  /** The registry's keys, in insertion order. */
  datatype Key =
    | Start | Cancel | Help | Echo
    | FindEmails | FindPhoneNumbers | VerifyPassword
    | GetRelease | GetUname | GetUptime | GetDF | GetFree | GetMpstat | GetW
    | GetAuths | GetCritical | GetPS | GetSS | GetAptList | GetServices

  /**
   * One registry entry: the command token, the keyboard button, and the
   * conversation state the command's handler returns, if any.
   */
  datatype Entry = Entry(command: string, button: string, statePoint: Option<string>)

  /** `self.commands.<key>` */
  function EntryOf(k: Key): Entry
  {
    match k
    case Start => Entry("start", "/start", None)
    case Cancel => Entry("cancel", "/cancel", None)
    case Help => Entry("help", "/help", None)
    case Echo => Entry("echo", "/echo", None)
    case FindEmails => Entry("find_email", "/find_email", Some("find_email"))
    case FindPhoneNumbers => Entry("find_phone_number", "/find_phone_number", Some("find_phone_number"))
    case VerifyPassword => Entry("verify_password", "/verify_password", Some("verify_password"))
    case GetRelease => Entry("get_release", "/get_release", Some("get_release"))
    case GetUname => Entry("get_uname", "/get_uname", Some("get_uname"))
    case GetUptime => Entry("get_uptime", "/get_uptime", Some("get_uptime"))
    case GetDF => Entry("get_df", "/get_df", Some("get_df"))
    case GetFree => Entry("get_free", "/get_free", Some("get_free"))
    case GetMpstat => Entry("get_mpstat", "/get_mpstat", Some("get_mpstat"))
    case GetW => Entry("get_w", "/get_w", Some("get_w"))
    case GetAuths => Entry("get_auths", "/get_auths", Some("get_auths"))
    case GetCritical => Entry("get_critical", "/get_critical", Some("get_critical"))
    case GetPS => Entry("get_ps", "/get_ps", Some("get_ps"))
    case GetSS => Entry("get_ss", "/get_ss", Some("get_ss"))
    case GetAptList => Entry("get_apt_list", "/get_apt_list", Some("get_apt_list"))
    case GetServices => Entry("get_services", "/get_services", Some("get_services"))
  }

  /** The keys whose handlers start no conversation. */
  predicate IsPlainKey(k: Key)
  {
    k == Start || k == Cancel || k == Help || k == Echo
  }

  /** The first ten keys of the registry. */
  predicate InFirstHalf(k: Key)
  {
    match k
    case Start | Cancel | Help | Echo | FindEmails | FindPhoneNumbers | VerifyPassword
      | GetRelease | GetUname | GetUptime => true
    case _ => false
  }

  /** Every button is the command with a leading slash. */
  lemma {:induction false} ButtonIsCommand(k: Key)
    ensures EntryOf(k).button == "/" + EntryOf(k).command
  {
    if InFirstHalf(k) {
      FirstHalfButtons(k);
    } else {
      SecondHalfButtons(k);
    }
  }

  lemma {:induction false} FirstHalfButtons(k: Key)
    ensures InFirstHalf(k) ==> EntryOf(k).button == "/" + EntryOf(k).command
  {
    match k
    case Start => assert "/start" == "/" + "start";
    case Cancel => assert "/cancel" == "/" + "cancel";
    case Help => assert "/help" == "/" + "help";
    case Echo => assert "/echo" == "/" + "echo";
    case FindEmails => assert "/find_email" == "/" + "find_email";
    case FindPhoneNumbers => assert "/find_phone_number" == "/" + "find_phone_number";
    case VerifyPassword => assert "/verify_password" == "/" + "verify_password";
    case GetRelease => assert "/get_release" == "/" + "get_release";
    case GetUname => assert "/get_uname" == "/" + "get_uname";
    case GetUptime => assert "/get_uptime" == "/" + "get_uptime";
    case _ =>
  }

  lemma {:induction false} SecondHalfButtons(k: Key)
    ensures !InFirstHalf(k) ==> EntryOf(k).button == "/" + EntryOf(k).command
  {
    match k
    case GetDF => assert "/get_df" == "/" + "get_df";
    case GetFree => assert "/get_free" == "/" + "get_free";
    case GetMpstat => assert "/get_mpstat" == "/" + "get_mpstat";
    case GetW => assert "/get_w" == "/" + "get_w";
    case GetAuths => assert "/get_auths" == "/" + "get_auths";
    case GetCritical => assert "/get_critical" == "/" + "get_critical";
    case GetPS => assert "/get_ps" == "/" + "get_ps";
    case GetSS => assert "/get_ss" == "/" + "get_ss";
    case GetAptList => assert "/get_apt_list" == "/" + "get_apt_list";
    case GetServices => assert "/get_services" == "/" + "get_services";
    case _ =>
  }

  /** Only start, cancel, help and echo have no state point; every other state point is the command. */
  lemma {:induction false} StatePoint(k: Key)
    ensures EntryOf(k).statePoint == None <==> IsPlainKey(k)
    ensures EntryOf(k).statePoint.Some? ==> EntryOf(k).statePoint.value == EntryOf(k).command
  {
  }

  /** A reply keyboard, one button per row, or no keyboard change. */
  datatype Keyboard = NoKeyboard | Rows(buttons: seq<string>)

  /** The keys `keyboard_menu_main` shows, in its order. */
  const MainKeys: seq<Key> := [Start, Help, FindEmails, FindPhoneNumbers, VerifyPassword,
    GetRelease, GetUname, GetUptime, GetDF, GetFree, GetMpstat, GetW,
    GetAuths, GetCritical, GetPS, GetSS, GetAptList, GetServices]

  function MainKeyboard(): Keyboard
  {
    Rows(seq(|MainKeys|, j requires 0 <= j < |MainKeys| => EntryOf(MainKeys[j]).button))
  }

  function CancelKeyboard(): Keyboard
  {
    Rows([EntryOf(Cancel).button])
  }

  /**
   * The main keyboard holds the button of every key but cancel and echo;
   * the cancel keyboard holds only `/cancel`.
   */
  lemma {:induction false} KeyboardButtons(k: Key)
    ensures EntryOf(k).button in MainKeyboard().buttons <==> k != Cancel && k != Echo
    ensures CancelKeyboard().buttons == ["/cancel"]
  {
    MainKeysAllButTwo(k);
    if EntryOf(k).button in MainKeyboard().buttons {
      ShownIsMainKey(k);
    }
    if k in MainKeys {
      MainKeyShown(k);
    }
  }

  lemma {:induction false} ShownIsMainKey(k: Key)
    requires EntryOf(k).button in MainKeyboard().buttons
    ensures k in MainKeys
  {
    var bs := MainKeyboard().buttons;
    var j :| 0 <= j < |bs| && bs[j] == EntryOf(k).button;
    ButtonsDistinct(k, MainKeys[j]);
  }

  lemma {:induction false} MainKeyShown(k: Key)
    requires k in MainKeys
    ensures EntryOf(k).button in MainKeyboard().buttons
  {
    var bs := MainKeyboard().buttons;
    var j :| 0 <= j < |MainKeys| && MainKeys[j] == k;
    assert bs[j] == EntryOf(k).button;
  }

  lemma {:induction false} MainKeysAllButTwo(k: Key)
    ensures k in MainKeys <==> k != Cancel && k != Echo
  {
  }

  /** No two keys share a button. */
  lemma {:induction false} ButtonsDistinct(k: Key, l: Key)
    ensures EntryOf(k).button == EntryOf(l).button ==> k == l
  {
    ButtonIsCommand(k);
    ButtonIsCommand(l);
    if EntryOf(k).button == EntryOf(l).button {
      assert EntryOf(k).command == EntryOf(k).button[1..];
      assert EntryOf(l).command == EntryOf(l).button[1..];
      CommandsDistinct(k, l);
    }
  }

  /** No two keys share a command. */
  lemma {:induction false} CommandsDistinct(k: Key, l: Key)
    ensures EntryOf(k).command == EntryOf(l).command ==> k == l
  {
  }
}
