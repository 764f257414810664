// The Telegram bot of functional_bot/telegram_bot.py: how an incoming text
// is routed to a handler (the handler order of `main`, lines 647-740), what
// each handler replies (lines 277-646), how the three search conversations
// keep their per-(chat, user) state, and how replies the Telegram server
// rejects end a handler.

module TelegramBot {
  import opened Strings
  import opened Regex
  import opened Registry
  import Emails
  import Phones
  import Passwords
  import opened RemoteOutput
  import AptList

  // ---------------------------------------------------------------------
  // Sending: the Telegram server's side
  // ---------------------------------------------------------------------

  /** The server accepts a message text of 1 to 4096 characters. */
  predicate Accepted(text: string)
  {
    0 < |text| <= MaxLength
  }

  /** `str(e)` of the BadRequest raised for a rejected text. */
  function Rejection(text: string): (r: string)
    requires !Accepted(text)
    ensures Accepted(r)
  {
    if |text| == 0 then "Message text is empty" else "Message is too long"
  }

  /** One `reply_text(text, reply_markup=keyboard)` call. */
  datatype Reply = Reply(text: string, keyboard: Keyboard)

  /** The replies that reached the chat, and whether a BadRequest ended the handler. */
  datatype Delivery = Delivery(sent: seq<Reply>, raised: bool)

  /**
   * Replies are sent in order until the first one the server rejects; its
   * BadRequest propagates and the handler runs no further.
   */
  function Deliver(rs: seq<Reply>): (d: Delivery)
    ensures |d.sent| <= |rs| && d.sent == rs[..|d.sent|]
    ensures forall k :: 0 <= k < |d.sent| ==> Accepted(d.sent[k].text)
    ensures d.raised <==> |d.sent| < |rs|
    ensures d.raised ==> !Accepted(rs[|d.sent|].text)
  {
    if |rs| == 0 then Delivery([], false)
    else if !Accepted(rs[0].text) then Delivery([], true)
    else
      var d := Deliver(rs[1..]);
      Delivery([rs[0]] + d.sent, d.raised)
  }

  /** When every reply is acceptable, all of them are sent. */
  lemma {:induction false} DeliverAll(rs: seq<Reply>)
    requires forall k :: 0 <= k < |rs| ==> Accepted(rs[k].text)
    ensures Deliver(rs) == Delivery(rs, false)
  {
    var d := Deliver(rs);
    if d.raised {
      assert false;
    }
  }

  /** The first rejected reply is where sending stops. */
  lemma {:induction false} DeliverStops(rs: seq<Reply>, i: nat)
    requires i < |rs| && !Accepted(rs[i].text)
    requires forall k :: 0 <= k < i ==> Accepted(rs[k].text)
    ensures Deliver(rs) == Delivery(rs[..i], true)
  {
    var d := Deliver(rs);
    if |d.sent| > i {
      assert false;
    }
    if |d.sent| < i {
      assert false;
    }
  }

  // ---------------------------------------------------------------------
  // Commands: what CommandHandler and Filters.command see in a text
  // ---------------------------------------------------------------------

  /** A character of a bot command: a Latin letter, a digit or `_`. */
  predicate IsCommandChar(c: char)
  {
    ('a' <= c <= 'z') || ('A' <= c <= 'Z') || ('0' <= c <= '9') || c == '_'
  }

  /** `str.lower` on a command character. */
  function Lower(c: char): char
  {
    if 'A' <= c <= 'Z' then (c as int + 32) as char else c
  }

  /** `Filters.command`: the text opens with a bot command. */
  predicate IsCommand(text: string)
  {
    |text| >= 2 && text[0] == '/' && IsCommandChar(text[1])
  }

  /** The command characters from `i` on, lower-cased. */
  function WordFrom(text: string, i: nat): (w: string)
    requires i <= |text|
    ensures |w| <= |text| - i
    decreases |text| - i
  {
    if i < |text| && IsCommandChar(text[i]) then [Lower(text[i])] + WordFrom(text, i + 1) else ""
  }

  /** `str.lower` on a text of command characters. */
  function LowerText(s: string): (r: string)
    ensures |r| == |s| && forall i :: 0 <= i < |s| ==> r[i] == Lower(s[i])
  {
    seq(|s|, i requires 0 <= i < |s| => Lower(s[i]))
  }

  /**
   * The command a CommandHandler compares with its own, if the text opens
   * with a command entity addressed to this bot. The entity is `/word` or
   * `/word@name`; the handler splits it at `@` and refuses it unless the
   * name is the username of the bot that received it, case aside.
   */
  function CommandOf(text: string, bot: string): Option<string>
  {
    if !IsCommand(text) then None
    else
      var w := WordFrom(text, 1);
      var j := 1 + |w|;
      if j + 1 < |text| && text[j] == '@' && IsCommandChar(text[j + 1]) then
        if WordFrom(text, j + 1) == LowerText(bot) then Some(w) else None
      else Some(w)
  }

  /** `CommandHandler(EntryOf(k).command, ...)` of the bot named `bot` takes the text. */
  predicate Invokes(text: string, bot: string, k: Key)
  {
    CommandOf(text, bot) == Some(EntryOf(k).command)
  }

  /** The text after a command word names no bot: it is not `@` followed by a command character. */
  predicate NoMention(rest: string)
  {
    !(|rest| >= 2 && rest[0] == '@' && IsCommandChar(rest[1]))
  }

  /** A command as the registry writes it: lower-case letters, digits and `_`. */
  predicate IsCommandWord(w: string)
  {
    |w| > 0 && forall i :: 0 <= i < |w| ==> ('a' <= w[i] <= 'z') || ('0' <= w[i] <= '9') || w[i] == '_'
  }

  /** A run of `n` command characters from `i`, ended by the text's end or another character, reads as that run lower-cased. */
  lemma {:induction false} WordFromRun(t: string, i: nat, n: nat)
    requires i + n <= |t|
    requires forall k :: i <= k < i + n ==> IsCommandChar(t[k])
    requires i + n == |t| || !IsCommandChar(t[i + n])
    ensures WordFrom(t, i) == LowerText(t[i..i + n])
    decreases n
  {
    if n > 0 {
      WordFromRun(t, i + 1, n - 1);
      assert LowerText(t[i..i + n]) == [Lower(t[i])] + LowerText(t[i + 1..i + n]);
    }
  }

  /** A command word is already lower-case. */
  lemma {:induction false} LowerWord(w: string)
    requires IsCommandWord(w)
    ensures LowerText(w) == w
  {
  }

  /**
   * A command word after a slash, alone or followed by text that neither
   * continues the word nor names a bot, invokes itself in every bot.
   */
  lemma {:induction false} CommandOfWord(w: string, rest: string, bot: string)
    requires IsCommandWord(w)
    requires |rest| == 0 || !IsCommandChar(rest[0])
    requires NoMention(rest)
    ensures CommandOf("/" + w + rest, bot) == Some(w)
  {
    var t := "/" + w + rest;
    assert t[1..1 + |w|] == w;
    WordFromRun(t, 1, |w|);
    LowerWord(w);
    assert t[1] == w[0];
    assert t[1 + |w|..] == rest;
  }

  /**
   * `/word@name`: the command is taken exactly by the bot whose username
   * is `name`, case aside; any other bot's handlers refuse it.
   */
  lemma {:induction false} CommandForBot(w: string, name: string, rest: string, bot: string)
    requires IsCommandWord(w)
    requires |name| > 0 && forall i :: 0 <= i < |name| ==> IsCommandChar(name[i])
    requires |rest| == 0 || !IsCommandChar(rest[0])
    ensures CommandOf("/" + w + "@" + name + rest, bot) ==
      (if LowerText(name) == LowerText(bot) then Some(w) else None)
  {
    var t := "/" + w + "@" + name + rest;
    var j := 1 + |w|;
    assert t[1..j] == w;
    WordFromRun(t, 1, |w|);
    LowerWord(w);
    assert t[1] == w[0] && t[j] == '@' && t[j + 1] == name[0];
    assert t[j + 1..j + 1 + |name|] == name;
    WordFromRun(t, j + 1, |name|);
  }

  /** Every registered command is a command word. */
  lemma {:induction false} CommandIsWord(k: Key)
    ensures IsCommandWord(EntryOf(k).command)
  {
    if k == Start || k == Cancel || k == Help || k == Echo || k == FindEmails {
      CommandIsWord0(k);
    } else if k == FindPhoneNumbers || k == VerifyPassword || k == GetRelease || k == GetUname {
      CommandIsWord1(k);
    } else if k == GetUptime || k == GetDF || k == GetFree || k == GetMpstat || k == GetW {
      CommandIsWord2(k);
    } else {
      CommandIsWord3(k);
    }
  }

  lemma {:induction false} CommandIsWord0(k: Key)
    requires k == Start || k == Cancel || k == Help || k == Echo || k == FindEmails
    ensures IsCommandWord(EntryOf(k).command)
  {
    match k
    case Start => assert IsCommandWord("start");
    case Cancel => assert IsCommandWord("cancel");
    case Help => assert IsCommandWord("help");
    case Echo => assert IsCommandWord("echo");
    case FindEmails => assert IsCommandWord("find_email");
  }

  lemma {:induction false} CommandIsWord1(k: Key)
    requires k == FindPhoneNumbers || k == VerifyPassword || k == GetRelease || k == GetUname
    ensures IsCommandWord(EntryOf(k).command)
  {
    match k
    case FindPhoneNumbers => assert IsCommandWord("find_phone_number");
    case VerifyPassword => assert IsCommandWord("verify_password");
    case GetRelease => assert IsCommandWord("get_release");
    case GetUname => assert IsCommandWord("get_uname");
  }

  lemma {:induction false} CommandIsWord2(k: Key)
    requires k == GetUptime || k == GetDF || k == GetFree || k == GetMpstat || k == GetW
    ensures IsCommandWord(EntryOf(k).command)
  {
    match k
    case GetUptime => assert IsCommandWord("get_uptime");
    case GetDF => assert IsCommandWord("get_df");
    case GetFree => assert IsCommandWord("get_free");
    case GetMpstat => assert IsCommandWord("get_mpstat");
    case GetW => assert IsCommandWord("get_w");
  }

  lemma {:induction false} CommandIsWord3(k: Key)
    requires k == GetAuths || k == GetCritical || k == GetPS || k == GetSS || k == GetAptList || k == GetServices
    ensures IsCommandWord(EntryOf(k).command)
  {
    match k
    case GetAuths => assert IsCommandWord("get_auths");
    case GetCritical => assert IsCommandWord("get_critical");
    case GetPS => assert IsCommandWord("get_ps");
    case GetSS => assert IsCommandWord("get_ss");
    case GetAptList => assert IsCommandWord("get_apt_list");
    case GetServices => assert IsCommandWord("get_services");
  }

  /** Pressing a keyboard button sends a text that invokes the button's own command. */
  lemma {:induction false} ButtonInvokes(k: Key, bot: string)
    ensures Invokes(EntryOf(k).button, bot, k)
  {
    ButtonIsCommand(k);
    CommandIsWord(k);
    CommandOfWord(EntryOf(k).command, "", bot);
    assert EntryOf(k).button == "/" + EntryOf(k).command + "";
  }

  /** No text invokes two registered commands. */
  lemma {:induction false} InvokesOne(text: string, bot: string, k: Key, l: Key)
    requires Invokes(text, bot, k) && Invokes(text, bot, l)
    ensures k == l
  {
    CommandsDistinct(k, l);
  }

  // ---------------------------------------------------------------------
  // Updates, conversations and routing
  // ---------------------------------------------------------------------

  /** The conversation key: chat id and user id (per_chat and per_user). */
  datatype Sender = Sender(chat: int, user: int)

  /** An incoming text message, with the username of the bot that received it (`message.bot.username`). */
  datatype Update = Update(sender: Sender, fullName: string, text: string, bot: string)

  /** The three ConversationHandlers, in the order `main` adds them. */
  datatype Conversation = EmailSearch | PhoneSearch | PasswordCheck

  const Conversations: seq<Conversation> := [EmailSearch, PhoneSearch, PasswordCheck]

  /** The registry entry whose handler opens the conversation. */
  function EntryKey(c: Conversation): Key
  {
    match c
    case EmailSearch => FindEmails
    case PhoneSearch => FindPhoneNumbers
    case PasswordCheck => VerifyPassword
  }

  /** The conversation's entry command, which is also the state its entry handler returns. */
  function StatePointOf(c: Conversation): string
  {
    EntryOf(EntryKey(c)).statePoint.value
  }

  /** Each ConversationHandler's `conversations` dictionary, keyed by conversation and sender. */
  type States = map<(Conversation, Sender), string>

  function StateOf(states: States, c: Conversation, s: Sender): Option<string>
  {
    if (c, s) in states then Some(states[(c, s)]) else None
  }

  /** The handler that takes an update. */
  datatype Route =
    | StartCommand                 // command_Start
    | HelpCommand                  // command_Help
    | Enter(c: Conversation)       // the conversation's entry point
    | Input(c: Conversation)       // the conversation's state handler
    | Leave(c: Conversation)       // the conversation's /cancel fallback
    | Monitor(k: Key)              // a monitoring command
    | EchoText                     // command_Echo on a non-command text
    | Unhandled                    // no handler matches

  /**
   * ConversationHandler.check_update: entry points only without a state;
   * with one, the state's handler (a non-command text), else the /cancel
   * fallback; `None` when the handler does not take the update.
   */
  function ConversationRoute(c: Conversation, text: string, bot: string, state: Option<string>): Option<Route>
  {
    if state.None? then
      if CommandOf(text, bot) == Some(StatePointOf(c)) then Some(Enter(c)) else None
    else if state.value == StatePointOf(c) && !IsCommand(text) then Some(Input(c))
    else if Invokes(text, bot, Cancel) then Some(Leave(c))
    else None
  }

  /** The first of the conversations from index `i` on that takes the update. */
  function FirstConversation(states: States, u: Update, i: nat): (r: Option<Route>)
    requires i <= |Conversations|
    ensures r.Some? ==>
      exists j :: i <= j < |Conversations| &&
        ConversationRoute(Conversations[j], u.text, u.bot, StateOf(states, Conversations[j], u.sender)) == r
    ensures r.None? ==> forall j :: i <= j < |Conversations| ==>
      ConversationRoute(Conversations[j], u.text, u.bot, StateOf(states, Conversations[j], u.sender)).None?
    decreases |Conversations| - i
  {
    if i == |Conversations| then None
    else
      var c := Conversations[i];
      var r := ConversationRoute(c, u.text, u.bot, StateOf(states, c, u.sender));
      if r.Some? then r else FirstConversation(states, u, i + 1)
  }

  /** The monitoring commands, in the order `main` adds their handlers. */
  const MonitorKeys: seq<Key> := [GetRelease, GetUname, GetUptime, GetDF, GetFree, GetMpstat,
    GetW, GetAuths, GetCritical, GetPS, GetSS, GetAptList, GetServices]

  /** The first monitoring command from index `i` on that the text invokes. */
  function FirstMonitor(text: string, bot: string, i: nat): (r: Option<Key>)
    requires i <= |MonitorKeys|
    ensures r.Some? ==> r.value in MonitorKeys && Invokes(text, bot, r.value)
    ensures r.None? ==> forall j :: i <= j < |MonitorKeys| ==> !Invokes(text, bot, MonitorKeys[j])
    decreases |MonitorKeys| - i
  {
    if i == |MonitorKeys| then None
    else if Invokes(text, bot, MonitorKeys[i]) then Some(MonitorKeys[i])
    else FirstMonitor(text, bot, i + 1)
  }

  /** The dispatcher tries the handlers of group 0 in order; the first that matches takes the update. */
  function RouteOf(states: States, u: Update): Route
  {
    if Invokes(u.text, u.bot, Start) then StartCommand
    else if Invokes(u.text, u.bot, Help) then HelpCommand
    else
      var conv := FirstConversation(states, u, 0);
      if conv.Some? then conv.value
      else
        var m := FirstMonitor(u.text, u.bot, 0);
        if m.Some? then Monitor(m.value)
        else if !IsCommand(u.text) then EchoText
        else Unhandled
  }

  /**
   * `update_state`: a completed entry handler stores the state it returns,
   * a completed /cancel (END) deletes the key, and every other handler
   * (returning None, or raising) leaves the states as they are.
   */
  function NextStates(states: States, s: Sender, r: Route, completed: bool): States
  {
    if !completed then states
    else match r
      case Enter(c) => states[(c, s) := StatePointOf(c)]
      case Leave(c) => states - {(c, s)}
      case _ => states
  }

  /** Every stored state is its conversation's state point. */
  ghost predicate WellFormed(states: States)
  {
    forall key :: key in states ==> states[key] == StatePointOf(key.0)
  }

  lemma {:induction false} NextStatesWellFormed(states: States, s: Sender, r: Route, completed: bool)
    requires WellFormed(states)
    ensures WellFormed(NextStates(states, s, r, completed))
  {
  }

  // ---------------------------------------------------------------------
  // What each handler replies
  // ---------------------------------------------------------------------

  /** The remote host: its character classes and the output (stdout then stderr) of a shell command. */
  datatype Host = Host(cc: CharClasses, output: string -> seq<byte>)

  /** The replies a handler tries, and whether it then fails on its own (IndexError on an empty list). */
  datatype Script = Script(replies: seq<Reply>, crashes: bool)

  /** The replies that reached the chat, and whether the handler ran to its end. */
  datatype Outcome = Outcome(sent: seq<Reply>, completed: bool)

  function Perform(sc: Script): (o: Outcome)
  {
    var d := Deliver(sc.replies);
    Outcome(d.sent, !d.raised && !sc.crashes)
  }

  function Greeting(fullName: string): string
  {
    "Привет " + fullName + "!"
  }

  const Cancelled := "Запрос отменен."

  function Prompt(c: Conversation): (p: string)
    ensures Accepted(p)
  {
    match c
    case EmailSearch => "Введите текст для поиска email-адресов: "
    case PhoneSearch => "Введите текст для поиска телефонных номеров: "
    case PasswordCheck => "Введите пароль для оценки сложности: "
  }

  /** The reply of the conversation's state handler to a text. */
  function InputReply(cc: CharClasses, c: Conversation, text: string): string
  {
    match c
    case EmailSearch => Emails.EmailReply(text)
    case PhoneSearch => Phones.PhoneReply(cc, text)
    case PasswordCheck => Passwords.PasswordReply(cc, text)
  }

  /** The shell command each monitoring handler runs over SSH. */
  function ShellCommand(k: Key): string
    requires k in MonitorKeys
  {
    match k
    case GetRelease => "lsb_release -a"
    case GetUname => "uname -nmr"
    case GetUptime => "uptime"
    case GetDF => "df -h"
    case GetFree => "free -h"
    case GetMpstat => "mpstat -P ALL 1 1"
    case GetW => "w"
    case GetAuths => "last -n 10"
    case GetCritical => "journalctl -p crit -n 5 | grep -E '^[A-Za-z]{3} [0-9]{2}'"
    case GetPS => "ps aux"
    case GetSS => "ss -tuln"
    case GetAptList => "dpkg -l | cat"
    case GetServices => "systemctl list-units --type=service --state=running"
  }

  /** Replies without a keyboard, one per text. */
  function Plain(texts: seq<string>): (rs: seq<Reply>)
    ensures |rs| == |texts|
    ensures forall k :: 0 <= k < |texts| ==> rs[k] == Reply(texts[k], NoKeyboard)
  {
    seq(|texts|, k requires 0 <= k < |texts| => Reply(texts[k], NoKeyboard))
  }

  /**
   * `for part in text[:-1:]: reply_text(part)` then
   * `reply_text(text[-1], reply_markup=main)`; `text[-1]` of an empty list
   * raises IndexError.
   */
  function PartsScript(parts: seq<string>): Script
  {
    if |parts| == 0 then Script([], true)
    else Script(Plain(parts[..|parts| - 1]) + [Reply(parts[|parts| - 1], MainKeyboard())], false)
  }

  /** `command_GetAptList`: the joined names, or the BadRequest's text when they are rejected. */
  function AptScript(host: Host): Script
  {
    var names := AptList.AptReply(host.cc, HostText(host.output(ShellCommand(GetAptList))));
    Script([Reply(if Accepted(names) then names else Rejection(names), MainKeyboard())], false)
  }

  /** `command_GetCritical`: the rewritten last part, line by line. */
  function CriticalScript(host: Host): Script
  {
    var pieces := CriticalPieces(HostParts(host.output(ShellCommand(GetCritical))));
    if pieces.None? then Script([], true) else PartsScript(pieces.value)
  }

  function MonitorScript(host: Host, k: Key): Script
    requires k in MonitorKeys
  {
    if k == GetAptList then AptScript(host)
    else if k == GetCritical then CriticalScript(host)
    else PartsScript(HostParts(host.output(ShellCommand(k))))
  }

  /** The replies the handler on route `r` tries. */
  function ScriptOf(host: Host, helpText: string, u: Update, r: Route): Script
  {
    match r
    case StartCommand => Script([Reply(Greeting(u.fullName), MainKeyboard())], false)
    case HelpCommand => Script([Reply(helpText, MainKeyboard())], false)
    case Enter(c) => Script([Reply(Prompt(c), CancelKeyboard())], false)
    case Input(c) => Script([Reply(InputReply(host.cc, c, u.text), CancelKeyboard())], false)
    case Leave(c) => Script([Reply(Cancelled, MainKeyboard())], false)
    case Monitor(k) => if k in MonitorKeys then MonitorScript(host, k) else Script([], false)
    case EchoText => Script([Reply(u.text, MainKeyboard())], false)
    case Unhandled => Script([], false)
  }

  lemma {:induction false} MonitorScriptOf(host: Host, helpText: string, u: Update, r: Route)
    requires r.Monitor? && r.k in MonitorKeys
    ensures ScriptOf(host, helpText, u, r) == MonitorScript(host, r.k)
  {
  }

  /** Every handler but the monitoring ones sends at most one reply and does not crash. */
  lemma {:induction false} ShortScriptOf(host: Host, helpText: string, u: Update, r: Route)
    requires !(r.Monitor? && r.k in MonitorKeys)
    ensures |ScriptOf(host, helpText, u, r).replies| <= 1 && !ScriptOf(host, helpText, u, r).crashes
  {
  }

  /** A message in the chat's history. */
  datatype Message = Message(chat: int, text: string, keyboard: Keyboard)

  function Stamp(chat: int, rs: seq<Reply>): (ms: seq<Message>)
    ensures |ms| == |rs|
    ensures forall k :: 0 <= k < |rs| ==> ms[k] == Message(chat, rs[k].text, rs[k].keyboard)
  {
    seq(|rs|, k requires 0 <= k < |rs| => Message(chat, rs[k].text, rs[k].keyboard))
  }

  /** Stamping one more reply adds its message at the end. */
  lemma {:induction false} StampStep(chat: int, rs: seq<Reply>, i: nat)
    requires i < |rs|
    ensures Stamp(chat, rs[..i + 1]) == Stamp(chat, rs[..i]) + [Message(chat, rs[i].text, rs[i].keyboard)]
  {
    var a, b := Stamp(chat, rs[..i + 1]), Stamp(chat, rs[..i]) + [Message(chat, rs[i].text, rs[i].keyboard)];
    assert |a| == |b|;
    forall k | 0 <= k < |a| ensures a[k] == b[k] {
      if k < i {
        assert rs[..i + 1][k] == rs[..i][k];
      }
    }
  }

  // ---------------------------------------------------------------------
  // Properties of the routing
  // ---------------------------------------------------------------------

  /** The conversation's entry command is its registry command. */
  lemma {:induction false} StatePointIsCommand(c: Conversation)
    ensures StatePointOf(c) == EntryOf(EntryKey(c)).command
  {
    StatePoint(EntryKey(c));
  }

  /** A text that invokes one registered command invokes no other. */
  lemma {:induction false} NotInvokes(text: string, bot: string, k: Key, l: Key)
    requires Invokes(text, bot, k) && k != l
    ensures !Invokes(text, bot, l)
  {
    if Invokes(text, bot, l) {
      InvokesOne(text, bot, k, l);
    }
  }

  /**
   * A monitoring button is always served by its own plain command handler,
   * whatever conversations the sender is in, and no conversation state
   * changes.
   */
  lemma {:induction false} MonitorButtonServed(states: States, u: Update, k: Key)
    requires k in MonitorKeys && u.text == EntryOf(k).button
    ensures RouteOf(states, u) == Monitor(k)
    ensures forall done :: NextStates(states, u.sender, Monitor(k), done) == states
  {
    MonitorKeyIsPlain(k);
    ButtonInvokes(k, u.bot);
    NotInvokes(u.text, u.bot, k, Start);
    NotInvokes(u.text, u.bot, k, Help);
    NoConversationTakes(states, u, k);
    MonitorFound(u.text, u.bot, k);
  }

  /** A monitoring command is none of the commands that open, leave or precede conversations. */
  lemma {:induction false} MonitorKeyIsPlain(k: Key)
    requires k in MonitorKeys
    ensures k != Start && k != Help && k != Cancel && k != Echo
    ensures k != FindEmails && k != FindPhoneNumbers && k != VerifyPassword
  {
  }

  /** A command that neither opens a conversation nor cancels one passes every conversation by. */
  lemma {:induction false} NoConversationTakes(states: States, u: Update, k: Key)
    requires Invokes(u.text, u.bot, k) && k != Cancel && k != FindEmails && k != FindPhoneNumbers && k != VerifyPassword
    ensures FirstConversation(states, u, 0).None?
  {
    NotInvokes(u.text, u.bot, k, Cancel);
    forall c | c in Conversations
      ensures ConversationRoute(c, u.text, u.bot, StateOf(states, c, u.sender)).None?
    {
      StatePointIsCommand(c);
      NotInvokes(u.text, u.bot, k, EntryKey(c));
    }
  }

  /** The first monitoring command a text invokes is the one it invokes. */
  lemma {:induction false} MonitorFound(text: string, bot: string, k: Key)
    requires k in MonitorKeys && Invokes(text, bot, k)
    ensures FirstMonitor(text, bot, 0) == Some(k)
  {
    var m := FirstMonitor(text, bot, 0);
    if m.Some? && m.value != k {
      NotInvokes(text, bot, k, m.value);
    }
  }

  /** No earlier conversation than `c` has a state for the sender. */
  predicate FirstActive(states: States, s: Sender, c: Conversation)
  {
    (c, s) in states &&
    forall j :: 0 <= j < |Conversations| && Conversations[j] != c && (Conversations[j], s) in states ==>
      exists i :: 0 <= i < j && Conversations[i] == c
  }

  /** The sender is in no conversation. */
  predicate Idle(states: States, s: Sender)
  {
    forall c: Conversation :: (c, s) !in states
  }

  /**
   * A text that is no command goes to the state handler of the first
   * conversation the sender is in; that handler answers with the search
   * result under the cancel button and the state stays.
   */
  lemma {:induction false} TextGoesToConversation(host: Host, helpText: string, states: States, u: Update, c: Conversation)
    requires WellFormed(states) && !IsCommand(u.text) && FirstActive(states, u.sender, c)
    ensures RouteOf(states, u) == Input(c)
    ensures ScriptOf(host, helpText, u, Input(c)).replies == [Reply(InputReply(host.cc, c, u.text), CancelKeyboard())]
    ensures forall done :: NextStates(states, u.sender, Input(c), done) == states
  {
    assert CommandOf(u.text, u.bot).None?;
  }

  /** Outside every conversation a text that is no command is echoed under the main keyboard. */
  lemma {:induction false} IdleTextEchoed(host: Host, helpText: string, states: States, u: Update)
    requires !IsCommand(u.text) && Idle(states, u.sender)
    ensures RouteOf(states, u) == EchoText
    ensures ScriptOf(host, helpText, u, EchoText).replies == [Reply(u.text, MainKeyboard())]
  {
    assert CommandOf(u.text, u.bot).None?;
  }

  /**
   * `/cancel` leaves the first conversation the sender is in, and only
   * that one: a state in a later conversation stays.
   */
  lemma {:induction false} CancelLeavesFirst(states: States, u: Update, c: Conversation)
    requires WellFormed(states) && Invokes(u.text, u.bot, Cancel) && FirstActive(states, u.sender, c)
    ensures RouteOf(states, u) == Leave(c)
    ensures NextStates(states, u.sender, Leave(c), true) == states - {(c, u.sender)}
  {
    NotInvokes(u.text, u.bot, Cancel, Start);
    NotInvokes(u.text, u.bot, Cancel, Help);
    forall c' | c' in Conversations
      ensures CommandOf(u.text, u.bot) != Some(StatePointOf(c'))
    {
      StatePointIsCommand(c');
      NotInvokes(u.text, u.bot, Cancel, EntryKey(c'));
    }
    assert IsCommand(u.text);
  }

  /** `/cancel` outside every conversation has no handler: nothing is sent and nothing changes. */
  lemma {:induction false} IdleCancelIgnored(host: Host, helpText: string, states: States, u: Update)
    requires Invokes(u.text, u.bot, Cancel) && Idle(states, u.sender)
    ensures RouteOf(states, u) == Unhandled
    ensures Perform(ScriptOf(host, helpText, u, Unhandled)).sent == []
    ensures NextStates(states, u.sender, Unhandled, true) == states
  {
    NotInvokes(u.text, u.bot, Cancel, Start);
    NotInvokes(u.text, u.bot, Cancel, Help);
    forall c' | c' in Conversations
      ensures CommandOf(u.text, u.bot) != Some(StatePointOf(c'))
    {
      StatePointIsCommand(c');
      NotInvokes(u.text, u.bot, Cancel, EntryKey(c'));
    }
    forall k | k in MonitorKeys ensures !Invokes(u.text, u.bot, k) {
      NotInvokes(u.text, u.bot, Cancel, k);
    }
    assert IsCommand(u.text);
  }

  /**
   * A conversation's entry button, pressed while the sender is not in it,
   * opens it: the prompt goes out under the cancel button and the state is
   * stored.
   */
  lemma {:induction false} EntryButtonOpens(host: Host, helpText: string, states: States, u: Update, c: Conversation)
    requires u.text == EntryOf(EntryKey(c)).button && (c, u.sender) !in states
    ensures RouteOf(states, u) == Enter(c)
    ensures Perform(ScriptOf(host, helpText, u, Enter(c))) == Outcome([Reply(Prompt(c), CancelKeyboard())], true)
    ensures NextStates(states, u.sender, Enter(c), true) == states[(c, u.sender) := StatePointOf(c)]
  {
    EntryButtonRoutes(states, u, c);
    DeliverAll([Reply(Prompt(c), CancelKeyboard())]);
  }

  /** The entry button of a conversation the sender is not in is routed to that conversation's entry. */
  lemma {:induction false} EntryButtonRoutes(states: States, u: Update, c: Conversation)
    requires u.text == EntryOf(EntryKey(c)).button && (c, u.sender) !in states
    ensures RouteOf(states, u) == Enter(c)
  {
    var k := EntryKey(c);
    ButtonInvokes(k, u.bot);
    NotInvokes(u.text, u.bot, k, Start);
    NotInvokes(u.text, u.bot, k, Help);
    NotInvokes(u.text, u.bot, k, Cancel);
    StatePointIsCommand(c);
    forall c' | c' in Conversations && c' != c
      ensures CommandOf(u.text, u.bot) != Some(StatePointOf(c'))
    {
      StatePointIsCommand(c');
      NotInvokes(u.text, u.bot, k, EntryKey(c'));
    }
  }

  /**
   * A session: `/find_email`, then any number of texts, each answered with
   * the addresses found; the sender stays in the conversation until
   * `/cancel`, which answers `Запрос отменен.` and leaves it.
   */
  lemma {:induction false} EmailSession(host: Host, helpText: string, s: Sender, name: string, bot: string, text: string)
    requires !IsCommand(text)
    ensures var open := Update(s, name, "/find_email", bot);
      var st1 := NextStates(map[], s, RouteOf(map[], open), true);
      var ask := Update(s, name, text, bot);
      var quit := Update(s, name, "/cancel", bot);
      && RouteOf(map[], open) == Enter(EmailSearch)
      && st1 == map[(EmailSearch, s) := "find_email"]
      && RouteOf(st1, ask) == Input(EmailSearch)
      && ScriptOf(host, helpText, ask, Input(EmailSearch)).replies == [Reply(Emails.EmailReply(text), CancelKeyboard())]
      && NextStates(st1, s, Input(EmailSearch), true) == st1
      && RouteOf(st1, quit) == Leave(EmailSearch)
      && NextStates(st1, s, Leave(EmailSearch), true) == map[]
  {
    var open := Update(s, name, "/find_email", bot);
    EntryButtonOpens(host, helpText, map[], open, EmailSearch);
    var st1 := map[(EmailSearch, s) := "find_email"];
    assert StatePointOf(EmailSearch) == "find_email";
    assert FirstActive(st1, s, EmailSearch);
    TextGoesToConversation(host, helpText, st1, Update(s, name, text, bot), EmailSearch);
    ButtonInvokes(Cancel, bot);
    CancelLeavesFirst(st1, Update(s, name, "/cancel", bot), EmailSearch);
    assert st1 - {(EmailSearch, s)} == map[];
  }

  /**
   * The three conversations are independent: from the email search,
   * `/find_phone_number` opens the phone search too, and the sender is then
   * in both.
   */
  lemma {:induction false} TwoConversationsAtOnce(host: Host, helpText: string, s: Sender, name: string, bot: string)
    ensures var st1 := map[(EmailSearch, s) := "find_email"];
      var u := Update(s, name, "/find_phone_number", bot);
      && RouteOf(st1, u) == Enter(PhoneSearch)
      && NextStates(st1, s, Enter(PhoneSearch), true) ==
           map[(EmailSearch, s) := "find_email", (PhoneSearch, s) := "find_phone_number"]
  {
    var st1 := map[(EmailSearch, s) := "find_email"];
    var u := Update(s, name, "/find_phone_number", bot);
    EntryButtonOpens(host, helpText, st1, u, PhoneSearch);
    assert StatePointOf(PhoneSearch) == "find_phone_number";
  }

  // ---------------------------------------------------------------------
  // Properties of the monitoring replies
  // ---------------------------------------------------------------------

  function ReplyTexts(rs: seq<Reply>): (ts: seq<string>)
    ensures |ts| == |rs|
    ensures forall k :: 0 <= k < |rs| ==> ts[k] == rs[k].text
  {
    seq(|rs|, k requires 0 <= k < |rs| => rs[k].text)
  }

  /**
   * Parts of 1 to 4096 characters all reach the chat, in order; only the
   * last carries the main keyboard. No parts at all sends nothing and the
   * handler fails.
   */
  lemma {:induction false} PartsDelivered(parts: seq<string>)
    requires forall k :: 0 <= k < |parts| ==> Accepted(parts[k])
    ensures var o := Perform(PartsScript(parts));
      && (o.completed <==> |parts| > 0)
      && ReplyTexts(o.sent) == parts
      && (forall k :: 0 <= k < |o.sent| - 1 ==> o.sent[k].keyboard == NoKeyboard)
      && (|o.sent| > 0 ==> o.sent[|o.sent| - 1].keyboard == MainKeyboard())
  {
    var rs := PartsScript(parts).replies;
    if |parts| > 0 {
      var n := |parts| - 1;
      assert forall k :: 0 <= k < n ==> rs[k] == Reply(parts[k], NoKeyboard);
      assert rs[n] == Reply(parts[n], MainKeyboard());
      assert forall k :: 0 <= k <= n ==> rs[k].text == parts[k];
      DeliverAll(rs);
    } else {
      DeliverAll(rs);
    }
  }

  /**
   * A monitoring command's output reaches the chat whole, in order, in
   * messages of at most 4096 characters; only the last carries the main
   * keyboard. Empty output sends nothing and the handler fails.
   */
  lemma {:induction false} MonitorDelivers(host: Host, k: Key)
    requires k in MonitorKeys && k != GetAptList && k != GetCritical
    ensures var data := HostText(host.output(ShellCommand(k)));
      var o := Perform(MonitorScript(host, k));
      && (o.completed <==> |data| > 0)
      && Join("", ReplyTexts(o.sent)) == data
      && (forall j :: 0 <= j < |o.sent| ==> |o.sent[j].text| <= MaxLength)
      && (forall j :: 0 <= j < |o.sent| - 1 ==> o.sent[j].keyboard == NoKeyboard)
      && (|o.sent| > 0 ==> o.sent[|o.sent| - 1].keyboard == MainKeyboard())
  {
    var data := HostText(host.output(ShellCommand(k)));
    var parts := Chunks(data);
    assert |parts| == 0 <==> |data| == 0 by {
      if |parts| == 0 {
        assert Join("", parts) == "";
      }
    }
    PartsDelivered(parts);
  }

  /**
   * `/get_apt_list` always sends exactly one message under the main
   * keyboard: the package names, or the server's complaint when they are
   * empty or too long.
   */
  lemma {:induction false} AptAlwaysAnswers(host: Host)
    ensures var names := AptList.AptReply(host.cc, HostText(host.output(ShellCommand(GetAptList))));
      var o := Perform(AptScript(host));
      && o.completed && |o.sent| == 1 && o.sent[0].keyboard == MainKeyboard()
      && (Accepted(names) ==> o.sent[0].text == names)
      && (|names| == 0 ==> o.sent[0].text == "Message text is empty")
      && (|names| > MaxLength ==> o.sent[0].text == "Message is too long")
  {
    DeliverAll(AptScript(host).replies);
  }

  /** With no package line in the listing, the one message is the server's complaint. */
  lemma {:induction false} NoPackagesComplains(host: Host)
    requires AptList.FindPackages(host.cc, HostText(host.output(ShellCommand(GetAptList)))) == []
    ensures Perform(AptScript(host)).sent == [Reply("Message text is empty", MainKeyboard())]
  {
    DeliverAll(AptScript(host).replies);
  }

  /**
   * `/get_critical` on output ending with a newline (as journal lines do)
   * sends the lines but never the closing message with the main keyboard:
   * the empty piece after the last newline is rejected.
   */
  lemma {:induction false} CriticalNewlineLosesKeyboard(host: Host)
    requires var parts := HostParts(host.output(ShellCommand(GetCritical)));
      |parts| > 0 && var last := parts[|parts| - 1]; |last| > 0 && last[|last| - 1] == '\n'
    ensures var o := Perform(CriticalScript(host));
      && !o.completed
      && forall j :: 0 <= j < |o.sent| ==> o.sent[j].keyboard == NoKeyboard
  {
    var parts := HostParts(host.output(ShellCommand(GetCritical)));
    var pieces := RewrittenLines(parts[|parts| - 1]);
    assert CriticalPieces(parts) == Some(pieces);
    assert CriticalScript(host) == PartsScript(pieces);
    EmptyLastPieceLosesKeyboard(pieces);
  }

  /** The last part, rewritten and cut at newlines, ends with an empty piece. */
  lemma {:induction false} RewrittenLines(last: string) returns (pieces: seq<string>)
    requires |last| > 0 && last[|last| - 1] == '\n'
    ensures pieces == Split(ReplaceAll(last, "nautilus", "sevsu"), '\n')
    ensures |pieces| > 0 && pieces[|pieces| - 1] == ""
  {
    assert '\n' !in "nautilus";
    ReplaceKeepsLast(last, "nautilus", "sevsu");
    var text := ReplaceAll(last, "nautilus", "sevsu");
    SplitEndingWithSeparator(text, '\n');
    pieces := Split(text, '\n');
  }

  /** An empty last piece is rejected, so the message with the main keyboard never goes out. */
  lemma {:induction false} EmptyLastPieceLosesKeyboard(pieces: seq<string>)
    requires |pieces| > 0 && pieces[|pieces| - 1] == ""
    ensures var o := Perform(PartsScript(pieces));
      && !o.completed
      && forall j :: 0 <= j < |o.sent| ==> o.sent[j].keyboard == NoKeyboard
  {
    var rs := PartsScript(pieces).replies;
    var n := |pieces| - 1;
    assert rs[n].text == "";
    assert forall k :: 0 <= k < n ==> rs[k].keyboard == NoKeyboard;
    var d := Deliver(rs);
    assert |d.sent| <= n;
  }

  /** `/get_critical` with no output at all sends nothing: `text[-1]` fails first. */
  lemma {:induction false} CriticalEmptySendsNothing(host: Host)
    requires |HostText(host.output(ShellCommand(GetCritical)))| == 0
    ensures Perform(CriticalScript(host)) == Outcome([], false)
  {
  }

  // ---------------------------------------------------------------------
  // The bot
  // ---------------------------------------------------------------------

  /** `TelegramBot`: the messages it has sent and the three conversations' states. */
  class Bot {
    const chatId: int
    const helpText: string
    const host: Host
    var outbox: seq<Message>
    var states: States

    ghost predicate Valid()
      reads this
    {
      WellFormed(states)
    }

    constructor(chatId: int, helpText: string, host: Host)
      ensures this.chatId == chatId && this.helpText == helpText && this.host == host
      ensures outbox == [] && states == map[]
      ensures Valid()
    {
      this.chatId := chatId;
      this.helpText := helpText;
      this.host := host;
      outbox := [];
      states := map[];
    }

    /** One `reply_text`/`send_message` call; `ok` is false when the server raises BadRequest. */
    method Send(chat: int, r: Reply) returns (ok: bool)
      modifies this
      ensures ok == Accepted(r.text)
      ensures outbox == old(outbox) + (if ok then [Message(chat, r.text, r.keyboard)] else [])
      ensures states == old(states)
    {
      ok := Accepted(r.text);
      if ok {
        outbox := outbox + [Message(chat, r.text, r.keyboard)];
      }
    }

    /** `command_Start(context=updater)` when polling starts. */
    method Launch()
      modifies this
      ensures outbox == old(outbox) + [Message(chatId, "Бот запущен!", MainKeyboard())]
      ensures states == old(states)
    {
      var ok := Send(chatId, Reply("Бот запущен!", MainKeyboard()));
    }

    /** The loop over `text[:-1:]`, then the last part with the main keyboard. */
    method SendParts(chat: int, parts: seq<string>) returns (completed: bool)
      modifies this
      ensures completed == Perform(PartsScript(parts)).completed
      ensures outbox == old(outbox) + Stamp(chat, Perform(PartsScript(parts)).sent)
      ensures states == old(states)
    {
      var sc := PartsScript(parts);
      var rs := sc.replies;
      if |parts| == 0 {
        DeliverAll(rs);
        return false;
      }
      assert |rs| == |parts| && !sc.crashes;
      var n := |rs| - 1;
      var ok := SendFirst(chat, rs, n);
      if !ok {
        return false;
      }
      completed := Send(chat, rs[n]);
      if completed {
        DeliverAll(rs);
        StampStep(chat, rs, n);
        assert rs[..n + 1] == rs;
      } else {
        DeliverStops(rs, n);
      }
    }

    /** Sends the first n replies one by one, stopping at the first the server rejects. */
    method SendFirst(chat: int, rs: seq<Reply>, n: nat) returns (ok: bool)
      requires n <= |rs|
      modifies this
      ensures ok ==> (forall k :: 0 <= k < n ==> Accepted(rs[k].text)) && outbox == old(outbox) + Stamp(chat, rs[..n])
      ensures !ok ==> Deliver(rs).raised && outbox == old(outbox) + Stamp(chat, Deliver(rs).sent)
      ensures states == old(states)
    {
      var i := 0;
      while i < n
        invariant 0 <= i <= n
        invariant forall k :: 0 <= k < i ==> Accepted(rs[k].text)
        invariant outbox == old(outbox) + Stamp(chat, rs[..i])
        invariant states == old(states)
      {
        ok := Send(chat, rs[i]);
        if !ok {
          DeliverStops(rs, i);
          return;
        }
        StampStep(chat, rs, i);
        i := i + 1;
      }
      ok := true;
    }

    /** `command_GetAptList`: the names, or on BadRequest its text. */
    method SendPackages(chat: int)
      modifies this
      ensures outbox == old(outbox) + Stamp(chat, Perform(AptScript(host)).sent)
      ensures Perform(AptScript(host)).completed
      ensures states == old(states)
    {
      var names := AptList.AptReply(host.cc, HostText(host.output(ShellCommand(GetAptList))));
      var ok := Send(chat, Reply(names, MainKeyboard()));
      if !ok {
        ok := Send(chat, Reply(Rejection(names), MainKeyboard()));
      }
      DeliverAll(AptScript(host).replies);
    }

    /** A monitoring handler: its command's output, in parts or as package names. */
    method SendMonitor(chat: int, k: Key) returns (completed: bool)
      requires k in MonitorKeys
      modifies this
      ensures completed == Perform(MonitorScript(host, k)).completed
      ensures outbox == old(outbox) + Stamp(chat, Perform(MonitorScript(host, k)).sent)
      ensures states == old(states)
    {
      if k == GetAptList {
        assert MonitorScript(host, k) == AptScript(host);
        SendPackages(chat);
        completed := true;
      } else if k == GetCritical {
        assert MonitorScript(host, k) == CriticalScript(host);
        var pieces := CriticalPieces(HostParts(host.output(ShellCommand(GetCritical))));
        if pieces.None? {
          completed := false;
          DeliverAll([]);
        } else {
          completed := SendParts(chat, pieces.value);
        }
      } else {
        assert MonitorScript(host, k) == PartsScript(HostParts(host.output(ShellCommand(k))));
        completed := SendParts(chat, HostParts(host.output(ShellCommand(k))));
      }
    }

    /** A handler that tries at most one reply. */
    method SendOne(chat: int, sc: Script) returns (completed: bool)
      requires |sc.replies| <= 1 && !sc.crashes
      modifies this
      ensures completed == Perform(sc).completed
      ensures outbox == old(outbox) + Stamp(chat, Perform(sc).sent)
      ensures states == old(states)
    {
      if |sc.replies| == 0 {
        completed := true;
        DeliverAll(sc.replies);
      } else {
        completed := Send(chat, sc.replies[0]);
        if completed {
          DeliverAll(sc.replies);
        } else {
          DeliverStops(sc.replies, 0);
        }
      }
    }

    /** The dispatcher handing one update to its handler. */
    method HandleUpdate(u: Update) returns (r: Route)
      requires Valid()
      modifies this
      ensures Valid()
      ensures r == RouteOf(old(states), u)
      ensures outbox == old(outbox) + Stamp(u.sender.chat, Perform(ScriptOf(host, helpText, u, r)).sent)
      ensures states == NextStates(old(states), u.sender, r, Perform(ScriptOf(host, helpText, u, r)).completed)
    {
      r := RouteOf(states, u);
      var sc := ScriptOf(host, helpText, u, r);
      var completed: bool;
      if r.Monitor? && r.k in MonitorKeys {
        MonitorScriptOf(host, helpText, u, r);
        completed := SendMonitor(u.sender.chat, r.k);
      } else {
        ShortScriptOf(host, helpText, u, r);
        completed := SendOne(u.sender.chat, sc);
      }
      NextStatesWellFormed(states, u.sender, r, completed);
      states := NextStates(states, u.sender, r, completed);
    }
  }
}
