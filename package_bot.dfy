// The package-search bot of functional_bot/test_bot.py: `/get_apt_list`
// offers two inline buttons; "all packages" shows the installed-package
// listing, "search package" asks for a name; a later text is looked up with
// `apt show` only while `user_data['state']` holds the waiting value. No
// code path ever stores that value, which this module proves.

module PackageBot {
  import opened Strings
  import TelegramBot

  // ---------------------------------------------------------------------
  // The apt helpers (test_bot.py:10-27)
  // ---------------------------------------------------------------------

  /** How an `apt` subprocess ended: its exit status and decoded stdout, or the exception it raised. */
  datatype AptRun = Ran(returncode: int, stdout: string) | Raised(error: string)

  const ErrorPrefix := "Ошибка при выполнении команды: "

  /** `get_apt_list()`: the listing, whatever apt's exit status; the error text when the call raises. */
  function AptListing(run: AptRun): string
  {
    match run
    case Ran(_, out) => out
    case Raised(e) => ErrorPrefix + e
  }

  function NotFound(name: string): string
  {
    "Пакет '" + name + "' не найден."
  }

  /** `get_package_info(name)`: stdout on exit status 0, the not-found text otherwise, the error text on an exception. */
  function PackageInfo(name: string, run: AptRun): string
  {
    match run
    case Ran(rc, out) => if rc == 0 then out else NotFound(name)
    case Raised(e) => ErrorPrefix + e
  }

  /** The not-found reply quotes the name verbatim between `Пакет '` and `' не найден.`. */
  lemma {:induction false} NotFoundQuotesName(name: string)
    ensures var r := NotFound(name);
      && |r| == |name| + 19
      && r[..7] == "Пакет '" && r[7..|r| - 12] == name && r[|r| - 12..] == "' не найден."
  {
    var r := NotFound(name);
    assert r == "Пакет '" + name + "' не найден.";
    assert |"Пакет '"| == 7 && |"' не найден."| == 12;
  }

  /** The error reply carries the exception's message after the fixed prefix. */
  lemma {:induction false} ErrorCarriesMessage(name: string, e: string)
    ensures var r := PackageInfo(name, Raised(e));
      |r| == |ErrorPrefix| + |e| && r[..|ErrorPrefix|] == ErrorPrefix && r[|ErrorPrefix|..] == e
    ensures AptListing(Raised(e)) == PackageInfo(name, Raised(e))
  {
  }

  /** `s[:n]` */
  function Truncate(s: string, n: nat): (r: string)
    ensures |r| <= n && |r| <= |s| && r == s[..|r|]
    ensures |s| <= n ==> r == s
    ensures |s| > n ==> |r| == n
  {
    if |s| <= n then s else s[..n]
  }

  // ---------------------------------------------------------------------
  // Messages, buttons and updates
  // ---------------------------------------------------------------------

  datatype InlineButton = InlineButton(caption: string, data: string)

  /** The inline keyboard `start_command` sends: all packages, package search. */
  const Options: seq<InlineButton> :=
    [InlineButton("Все пакеты", "all_packages"), InlineButton("Поиск пакета", "search_package")]

  const Choose := "Выберите опцию:"
  const Header := "Установленные пакеты:\n"
  const AskName := "Введите название пакета:"
  const Hint := "Используйте команду /get_apt_list для выбора действия."
  const Waiting := "WAITING_FOR_PACKAGE_NAME"

  /** What the bot does on the Telegram side. */
  datatype Effect =
    | Sent(chat: int, text: string, options: seq<InlineButton>)   // reply_text
    | Edited(chat: int, text: string)                             // query.edit_message_text
    | Answered(chat: int)                                         // query.answer

  /** An incoming text message (with the username of the bot that received it) or a press on an inline button. */
  datatype Update = Text(chat: int, user: int, text: string, bot: string) | Pressed(chat: int, user: int, data: string)

  /** Each user's `user_data['state']`, for users whose dictionary holds that key. */
  type UserData = map<int, Option<string>>

  /** `context.user_data.get('state')` */
  function StateOf(d: UserData, user: int): Option<string>
  {
    if user in d then d[user] else None
  }

  /** The remote side: `apt list --installed` and `apt show <name>`. */
  datatype Apt = Apt(list: AptRun, show: string -> AptRun)

  // ---------------------------------------------------------------------
  // The handlers as functions of the user data
  // ---------------------------------------------------------------------

  /** What a handler does: the effects that took place, the new user data, and what it returned. */
  datatype Step = Step(effects: seq<Effect>, userData: UserData, returned: Option<string>)

  /** A text sent only when the server accepts it; a rejected one raises and ends the handler. */
  function SendIf(e: Effect, text: string): seq<Effect>
  {
    if TelegramBot.Accepted(text) then [e] else []
  }

  function StartCommand(d: UserData, chat: int): Step
  {
    Step([Sent(chat, Choose, Options)], d, None)
  }

  /** What `button_handler` does on the Telegram side for the pressed button's data. */
  function ButtonEffects(apt: Apt, chat: int, data: string): seq<Effect>
  {
    if data == "all_packages" then
      var text := Header + Truncate(AptListing(apt.list), 4096);
      [Answered(chat)] + SendIf(Edited(chat, text), text)
    else if data == "search_package" then [Answered(chat), Edited(chat, AskName)]
    else [Answered(chat)]
  }

  /** `button_handler`: its return value goes nowhere, because the handler is in no conversation. */
  function ButtonHandler(apt: Apt, d: UserData, chat: int, data: string): Step
  {
    Step(ButtonEffects(apt, chat, data), d, if data == "search_package" then Some(Waiting) else None)
  }

  /** `handle_message`: the lookup when the user waits for a name, else the hint. */
  function HandleMessage(apt: Apt, d: UserData, chat: int, user: int, text: string): Step
  {
    if StateOf(d, user) == Some(Waiting) then
      var info := Truncate(PackageInfo(text, apt.show(text)), 4096);
      if TelegramBot.Accepted(info) then Step([Sent(chat, info, [])], d[user := None], None)
      else Step([], d, None)
    else Step([Sent(chat, Hint, [])], d, None)
  }

  /**
   * The dispatcher: the `/get_apt_list` command, then any button press,
   * then any text that is no command; other commands have no handler.
   */
  function StepOf(apt: Apt, d: UserData, u: Update): Step
  {
    match u
    case Pressed(chat, _, data) => ButtonHandler(apt, d, chat, data)
    case Text(chat, user, text, bot) =>
      if TelegramBot.CommandOf(text, bot) == Some("get_apt_list") then StartCommand(d, chat)
      else if !TelegramBot.IsCommand(text) then HandleMessage(apt, d, chat, user, text)
      else Step([], d, None)
  }

  // ---------------------------------------------------------------------
  // Properties
  // ---------------------------------------------------------------------

  /**
   * The "all packages" edit shows the header and at most 4096 characters
   * of the listing; since the header counts too, a listing longer than
   * 4074 characters makes the edit too long and it is rejected.
   */
  lemma {:induction false} AllPackagesEdit(apt: Apt, d: UserData, chat: int)
    ensures var listing := AptListing(apt.list);
      var text := Header + Truncate(listing, 4096);
      && ButtonHandler(apt, d, chat, "all_packages").effects ==
           [Answered(chat)] + (if |listing| <= 4074 then [Edited(chat, text)] else [])
      && text[..|Header|] == Header && |text| <= |Header| + 4096
  {
    assert |Header| == 22;
  }

  /** "search package" edits the message to the prompt and returns the waiting value, which nothing stores. */
  lemma {:induction false} SearchPackageReturnsWaiting(apt: Apt, d: UserData, chat: int, data: string)
    ensures data == "search_package" ==> ButtonHandler(apt, d, chat, data).returned == Some(Waiting)
    ensures data != "search_package" ==> ButtonHandler(apt, d, chat, data).returned == None
    ensures ButtonHandler(apt, d, chat, data).userData == d
  {
  }

  /** Nobody waits for a package name: every stored state is None. */
  ghost predicate NobodyWaits(d: UserData)
  {
    forall user :: user in d ==> d[user] == None
  }

  /** Every step keeps the user data free of the waiting value. */
  lemma {:induction false} StepKeepsNobodyWaiting(apt: Apt, d: UserData, u: Update)
    requires NobodyWaits(d)
    ensures NobodyWaits(StepOf(apt, d, u).userData)
  {
  }

  /** The user data after a run of updates. */
  function UserDataAfter(apt: Apt, d: UserData, us: seq<Update>): UserData
  {
    if |us| == 0 then d else UserDataAfter(apt, StepOf(apt, d, us[0]).userData, us[1..])
  }

  lemma {:induction false} NobodyEverWaits(apt: Apt, d: UserData, us: seq<Update>)
    requires NobodyWaits(d)
    ensures NobodyWaits(UserDataAfter(apt, d, us))
    decreases |us|
  {
    if |us| > 0 {
      StepKeepsNobodyWaiting(apt, d, us[0]);
      NobodyEverWaits(apt, StepOf(apt, d, us[0]).userData, us[1..]);
    }
  }

  /**
   * From a fresh start, whatever came before, a text that is no command
   * is answered with the hint: the package lookup is unreachable.
   */
  lemma {:induction false} LookupUnreachable(apt: Apt, us: seq<Update>, chat: int, user: int, text: string, bot: string)
    requires !TelegramBot.IsCommand(text)
    ensures var d := UserDataAfter(apt, map[], us);
      StepOf(apt, d, Text(chat, user, text, bot)) == Step([Sent(chat, Hint, [])], d, None)
  {
    NobodyEverWaits(apt, map[], us);
    var d := UserDataAfter(apt, map[], us);
    assert TelegramBot.CommandOf(text, bot).None?;
    assert StateOf(d, user) != Some(Waiting);
  }

  /** Were a user waiting, the reply would be the package info cut to 4096 characters and the state reset. */
  lemma {:induction false} WaitingLooksUp(apt: Apt, d: UserData, chat: int, user: int, text: string, bot: string)
    requires StateOf(d, user) == Some(Waiting) && !TelegramBot.IsCommand(text)
    requires 0 < |PackageInfo(text, apt.show(text))|
    ensures var info := PackageInfo(text, apt.show(text));
      var st := StepOf(apt, d, Text(chat, user, text, bot));
      && |st.effects| == 1 && st.effects[0].Sent?
      && st.effects[0].text == info[..|st.effects[0].text|]
      && |st.effects[0].text| == (if |info| <= 4096 then |info| else 4096)
      && st.userData == d[user := None]
  {
    assert TelegramBot.CommandOf(text, bot).None?;
  }

  // ---------------------------------------------------------------------
  // The bot
  // ---------------------------------------------------------------------

  class PackageBot {
    const apt: Apt
    var outbox: seq<Effect>
    var userData: UserData

    ghost predicate Valid()
      reads this
    {
      NobodyWaits(userData)
    }

    constructor(apt: Apt)
      ensures this.apt == apt && outbox == [] && userData == map[] && Valid()
    {
      this.apt := apt;
      outbox := [];
      userData := map[];
    }

    /** Sends or edits when the server accepts the text; `ok` is false when it raises BadRequest. */
    method Emit(e: Effect, text: string) returns (ok: bool)
      modifies this
      ensures ok == TelegramBot.Accepted(text)
      ensures outbox == old(outbox) + SendIf(e, text) && userData == old(userData)
    {
      ok := TelegramBot.Accepted(text);
      if ok {
        outbox := outbox + [e];
      }
    }

    method ButtonPressed(chat: int, data: string) returns (returned: Option<string>)
      modifies this
      ensures outbox == old(outbox) + ButtonHandler(apt, old(userData), chat, data).effects
      ensures returned == ButtonHandler(apt, old(userData), chat, data).returned
      ensures userData == old(userData)
    {
      outbox := outbox + [Answered(chat)];
      returned := None;
      if data == "all_packages" {
        var text := Header + Truncate(AptListing(apt.list), 4096);
        var ok := Emit(Edited(chat, text), text);
      } else if data == "search_package" {
        outbox := outbox + [Edited(chat, AskName)];
        returned := Some(Waiting);
      }
    }

    method MessageReceived(chat: int, user: int, text: string)
      modifies this
      ensures outbox == old(outbox) + HandleMessage(apt, old(userData), chat, user, text).effects
      ensures userData == HandleMessage(apt, old(userData), chat, user, text).userData
    {
      var state := if user in userData then userData[user] else None;
      if state == Some(Waiting) {
        var info := Truncate(PackageInfo(text, apt.show(text)), 4096);
        var ok := Emit(Sent(chat, info, []), info);
        if ok {
          userData := userData[user := None];
        }
      } else {
        outbox := outbox + [Sent(chat, Hint, [])];
      }
    }

    method HandleUpdate(u: Update)
      requires Valid()
      modifies this
      ensures Valid()
      ensures outbox == old(outbox) + StepOf(apt, old(userData), u).effects
      ensures userData == StepOf(apt, old(userData), u).userData
    {
      StepKeepsNobodyWaiting(apt, userData, u);
      match u
      case Pressed(chat, _, data) =>
        var _ := ButtonPressed(chat, data);
      case Text(chat, user, text, bot) =>
        if TelegramBot.CommandOf(text, bot) == Some("get_apt_list") {
          outbox := outbox + [Sent(chat, Choose, Options)];
        } else if !TelegramBot.IsCommand(text) {
          MessageReceived(chat, user, text);
        }
    }
  }
}
