// The second package-search bot, functional_bot/test_bot_2.py: the same
// apt helpers and buttons, but `/get_apt_list` is the entry point of a
// ConversationHandler whose one state (the integer 1) waits for a package
// name, while the button handler sits outside the conversation. The entry
// handler returns END, so the conversation never holds a state: its
// message handler, and with it the package lookup, is never reached.

module PackageBot2 {
  import opened Strings
  import TelegramBot
  import P = PackageBot

  /** `WAITING_FOR_PACKAGE_NAME` */
  const WaitingForPackageName := 1

  /** Each user's `user_data['state']`, for users whose dictionary holds that key. */
  type UserData = map<int, Option<int>>

  function StateOf(d: UserData, user: int): Option<int>
  {
    if user in d then d[user] else None
  }

  /** The ConversationHandler's states, keyed by (chat id, user id). */
  type Conversations = map<(int, int), int>

  /** The handler that takes an update. */
  datatype Route = StartCommand | HandleMessage | ButtonHandler | Unhandled

  /**
   * The conversation first (entry point without a state; the state's
   * message handler with one; no fallbacks), then the callback handler.
   */
  function RouteOf(conv: Conversations, u: P.Update): Route
  {
    match u
    case Pressed(_, _, _) => ButtonHandler
    case Text(chat, user, text, bot) =>
      if (chat, user) !in conv then
        if TelegramBot.CommandOf(text, bot) == Some("get_apt_list") then StartCommand else Unhandled
      else if conv[(chat, user)] == WaitingForPackageName && !TelegramBot.IsCommand(text) then HandleMessage
      else Unhandled
  }

  /** What a handler does: the effects that took place, the new user data, and whether it returned END. */
  datatype Step = Step(effects: seq<P.Effect>, userData: UserData, returned: Option<int>, ended: bool)

  /** `handle_message`: every path returns END. */
  function HandleMessageStep(apt: P.Apt, d: UserData, chat: int, user: int, text: string): Step
  {
    if StateOf(d, user) == Some(WaitingForPackageName) then
      var info := P.Truncate(P.PackageInfo(text, apt.show(text)), 4096);
      if TelegramBot.Accepted(info) then Step([P.Sent(chat, info, [])], d[user := None], None, true)
      else Step([], d, None, false)
    else Step([P.Sent(chat, P.Hint, [])], d, None, true)
  }

  function StepOf(apt: P.Apt, conv: Conversations, d: UserData, u: P.Update): Step
  {
    match RouteOf(conv, u)
    case StartCommand => Step([P.Sent(u.chat, P.Choose, P.Options)], d, None, true)
    case HandleMessage => HandleMessageStep(apt, d, u.chat, u.user, u.text)
    case ButtonHandler =>
      Step(P.ButtonEffects(apt, u.chat, u.data), d,
        if u.data == "search_package" then Some(WaitingForPackageName) else None, false)
    case Unhandled => Step([], d, None, false)
  }

  /**
   * `update_state` of the conversation: END deletes the key; the button
   * handler's return value is lost because it is no conversation handler.
   */
  function NextConversations(conv: Conversations, u: P.Update, st: Step): Conversations
  {
    if RouteOf(conv, u) != ButtonHandler && st.ended then conv - {(u.chat, u.user)}
    else conv
  }

  // ---------------------------------------------------------------------
  // Properties
  // ---------------------------------------------------------------------

  /** `/get_apt_list` replies with the two options and returns END. */
  lemma {:induction false} StartOffersTwoOptions(apt: P.Apt, d: UserData, chat: int, user: int, text: string, bot: string)
    requires TelegramBot.CommandOf(text, bot) == Some("get_apt_list")
    ensures var st := StepOf(apt, map[], d, P.Text(chat, user, text, bot));
      && st.effects == [P.Sent(chat, P.Choose, P.Options)]
      && |P.Options| == 2 && P.Options[0].data == "all_packages" && P.Options[1].data == "search_package"
      && st.ended
      && NextConversations(map[], P.Text(chat, user, text, bot), st) == map[]
  {
  }

  /** "search package" returns 1, "all packages" returns None after the header and at most 4096 characters. */
  lemma {:induction false} ButtonReturns(apt: P.Apt, conv: Conversations, d: UserData, chat: int, user: int, data: string)
    ensures var st := StepOf(apt, conv, d, P.Pressed(chat, user, data));
      && (data == "search_package" ==> st.returned == Some(WaitingForPackageName))
      && (data != "search_package" ==> st.returned == None)
      && st.userData == d
      && NextConversations(conv, P.Pressed(chat, user, data), st) == conv
  {
  }

  /** `handle_message` ends the conversation on every path; waiting, it answers with at most 4096 characters and resets the state. */
  lemma {:induction false} HandleMessageEnds(apt: P.Apt, d: UserData, chat: int, user: int, text: string)
    requires 0 < |P.PackageInfo(text, apt.show(text))|
    ensures var st := HandleMessageStep(apt, d, chat, user, text);
      && st.ended
      && (StateOf(d, user) == Some(WaitingForPackageName) ==>
            && |st.effects| == 1 && |st.effects[0].text| <= 4096
            && st.userData == d[user := None])
      && (StateOf(d, user) != Some(WaitingForPackageName) ==>
            st.effects == [P.Sent(chat, P.Hint, [])] && st.userData == d)
  {
  }

  /** The user data never holds 1: every write stores None. */
  ghost predicate NobodyWaits(d: UserData)
  {
    forall user :: user in d ==> d[user] == None
  }

  /** From an empty conversation and user data free of 1, one update keeps both so. */
  lemma {:induction false} StepKeepsIdle(apt: P.Apt, d: UserData, u: P.Update)
    requires NobodyWaits(d)
    ensures var st := StepOf(apt, map[], d, u);
      && NextConversations(map[], u, st) == map[]
      && NobodyWaits(st.userData)
      && RouteOf(map[], u) != HandleMessage
  {
  }

  /** The conversation and user data after a run of updates. */
  function After(apt: P.Apt, conv: Conversations, d: UserData, us: seq<P.Update>): (Conversations, UserData)
  {
    if |us| == 0 then (conv, d)
    else
      var st := StepOf(apt, conv, d, us[0]);
      After(apt, NextConversations(conv, us[0], st), st.userData, us[1..])
  }

  lemma {:induction false} AlwaysIdle(apt: P.Apt, d: UserData, us: seq<P.Update>)
    requires NobodyWaits(d)
    ensures After(apt, map[], d, us).0 == map[] && NobodyWaits(After(apt, map[], d, us).1)
    decreases |us|
  {
    if |us| > 0 {
      StepKeepsIdle(apt, d, us[0]);
      AlwaysIdle(apt, StepOf(apt, map[], d, us[0]).userData, us[1..]);
    }
  }

  /**
   * From a fresh start, whatever came before, a text that is no command
   * finds no handler: nothing is sent, the package lookup and even the
   * hint are unreachable.
   */
  lemma {:induction false} TextsGoUnanswered(apt: P.Apt, us: seq<P.Update>, chat: int, user: int, text: string, bot: string)
    requires !TelegramBot.IsCommand(text)
    ensures var (conv, d) := After(apt, map[], map[], us);
      && RouteOf(conv, P.Text(chat, user, text, bot)) == Unhandled
      && StepOf(apt, conv, d, P.Text(chat, user, text, bot)).effects == []
  {
    AlwaysIdle(apt, map[], us);
    assert TelegramBot.CommandOf(text, bot).None?;
  }

  // ---------------------------------------------------------------------
  // The bot
  // ---------------------------------------------------------------------

  class PackageBot2 {
    const apt: P.Apt
    var outbox: seq<P.Effect>
    var conversations: Conversations
    var userData: UserData

    ghost predicate Valid()
      reads this
    {
      conversations == map[] && NobodyWaits(userData)
    }

    constructor(apt: P.Apt)
      ensures this.apt == apt && outbox == [] && conversations == map[] && userData == map[] && Valid()
    {
      this.apt := apt;
      outbox := [];
      conversations := map[];
      userData := map[];
    }

    method MessageReceived(chat: int, user: int, text: string) returns (ended: bool)
      modifies this
      ensures outbox == old(outbox) + HandleMessageStep(apt, old(userData), chat, user, text).effects
      ensures userData == HandleMessageStep(apt, old(userData), chat, user, text).userData
      ensures ended == HandleMessageStep(apt, old(userData), chat, user, text).ended
      ensures conversations == old(conversations)
    {
      var state := if user in userData then userData[user] else None;
      if state == Some(WaitingForPackageName) {
        var info := P.Truncate(P.PackageInfo(text, apt.show(text)), 4096);
        ended := TelegramBot.Accepted(info);
        if ended {
          outbox := outbox + [P.Sent(chat, info, [])];
          userData := userData[user := None];
        }
      } else {
        outbox := outbox + [P.Sent(chat, P.Hint, [])];
        ended := true;
      }
    }

    method HandleUpdate(u: P.Update)
      modifies this
      ensures old(Valid()) ==> Valid()
      ensures outbox == old(outbox) + StepOf(apt, old(conversations), old(userData), u).effects
      ensures userData == StepOf(apt, old(conversations), old(userData), u).userData
      ensures conversations ==
        NextConversations(old(conversations), u, StepOf(apt, old(conversations), old(userData), u))
    {
      if Valid() {
        StepKeepsIdle(apt, userData, u);
      }
      var route := RouteOf(conversations, u);
      var ended := false;
      match route {
        case StartCommand =>
          outbox := outbox + [P.Sent(u.chat, P.Choose, P.Options)];
          ended := true;
        case HandleMessage =>
          ended := MessageReceived(u.chat, u.user, u.text);
        case ButtonHandler =>
          var text := P.Header + P.Truncate(P.AptListing(apt.list), 4096);
          outbox := outbox + [P.Answered(u.chat)];
          if u.data == "all_packages" {
            outbox := outbox + P.SendIf(P.Edited(u.chat, text), text);
          } else if u.data == "search_package" {
            outbox := outbox + [P.Edited(u.chat, P.AskName)];
          }
        case Unhandled =>
      }
      if route != ButtonHandler && ended {
        conversations := conversations - {(u.chat, u.user)};
      }
    }
  }
}
