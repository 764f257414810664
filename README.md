# PT-START DevOps bot and scripts, modelled in Dafny

This project models the text processing and the conversation logic of the
PT-START 2024.2 DevOps repository, and proves properties of that model.

- **`functional_bot/telegram_bot.py`**: a Telegram bot with a static command
  registry and two reply keyboards.
  - It has three conversations: e-mail search, phone-number search and
    password check.
  - It has thirteen monitoring commands that run a shell command on a remote
    host over SSH and send back the output, cut into parts of at most 4096
    characters. `/get_critical` rewrites the log first, and `/get_apt_list`
    sends installed package names.
- **`functional_bot/test_bot.py` and `functional_bot/test_bot_2.py`**: two
  package-search bots built on inline buttons and `apt`.
- **`task-1-3/data_preparation.py`**: a dataset line cleaner.
- **`task-1-3/get_ssh_ip_list.py`**: a summary of SSH logins from the system
  journal.

Regular expressions are modelled by one backtracking matcher (`regex.dfy`).
It covers the fragment every pattern here uses: a concatenation of character
classes, each repeated greedily between a minimum and an optional maximum.
The matcher is proved sound and complete against a declarative reading. Each
pattern's module then states what a match means without the matcher.

`\d` and `\s` match Unicode digits and whitespace in Python. They are
therefore parameters (`CharClasses`), constrained by `Regex.Sound`. `Sound`
says that on ASCII they agree with Python, and that no digit is whitespace.

Files:

- `strings.dfy`: `str.join`, `str.split`, `str.replace`, `str()` of an
  integer, and the order of `str`.
- `regex.dfy`: the matcher and `findall`.
- `registry.dfy`: the command registry and the keyboards.
- `listing.dfy`: the numbered-list replies.
- `emails.dfy`, `phones.dfy`, `passwords.dfy`: the three conversations'
  checks.
- `remote_output.dfy`: the SSH output normaliser and the chunker.
- `apt_list.dfy`: the package-name extraction.
- `telegram_bot.dfy`: routing, handler replies, and the `Bot` class with its
  outbox and conversation states.
- `package_bot.dfy`, `package_bot_2.dfy`: the two package bots.
- `data_preparation.dfy`: the dataset cleaner.
- `ssh_ip_list.dfy`: the login summary.

Where the repository's own description and its code differ, the model follows
the code:

- The three input handlers return `None`, with `ConversationHandler.END`
  commented out. The conversation therefore stays in its state until
  `/cancel`; it is not reset after one answer.
- The password check is `re.search`. Its lookaheads use `.`, so each one sees
  only the rest of the current line. It is not five independent tests of the
  whole text.
- The chunker gives no parts for an empty output. A monitoring handler then
  fails on `text[-1]` and sends nothing.
- `/cancel` outside a conversation has no handler. `/echo` is registered only
  as a handler of non-command texts, so the text `/echo` gets no reply.

## Model

| member | source | states |
|---|---|---|
| Strings.Split | functional_bot/telegram_bot.py:588 | `split('\n')` always yields at least one piece, and no piece holds the separator |
| Strings.JoinSplit | functional_bot/telegram_bot.py:588 | joining the pieces of a split with the separator gives the text back |
| Strings.SplitJoin | functional_bot/telegram_bot.py:394 | splitting a newline-join of newline-free lines gives back exactly those lines |
| Strings.SplitConcat | functional_bot/telegram_bot.py:588 | a separator between two texts splits exactly there |
| Strings.SplitNoSeparator | functional_bot/telegram_bot.py:588 | a text without the separator is one piece |
| Strings.SplitEndingWithSeparator | functional_bot/telegram_bot.py:588 | a text ending in the separator splits into at least two pieces, the last one empty |
| Strings.ReplaceTakes | functional_bot/telegram_bot.py:503 | `str.replace`: an occurrence at the scan position is replaced, and the scan resumes after it |
| Strings.ReplaceSkips | functional_bot/telegram_bot.py:503 | `str.replace`: a character that cannot start the pattern is copied, and the scan moves on |
| Strings.ReplaceAbsent | functional_bot/telegram_bot.py:587 | with no occurrence of the pattern, replacing changes nothing |
| Strings.ReplaceKeepsLast | functional_bot/telegram_bot.py:587 | a last character that is not in the pattern is still last after replacing |
| Strings.ReplaceLeavesNoPattern | functional_bot/telegram_bot.py:503 | when the replacement shares no character with the pattern, no occurrence of the pattern is left |
| Strings.ReplaceCreatesNoOccurrence | functional_bot/telegram_bot.py:503 | replacing cannot create an occurrence of a text that shares no character with the replacement |
| Strings.PrefixSurvives | functional_bot/telegram_bot.py:503 | a prefix of the replaced text that holds no character of the replacement was a prefix of the original |
| Strings.NatToString | functional_bot/telegram_bot.py:394 | `str(i + 1)` is non-empty, all decimal digits, with no leading zero |
| Strings.IntToString | task-1-3/data_preparation.py:29 | `str(n)` is digits, with a `-` only in front of a negative number |
| Strings.StrLeqTotal | task-1-3/get_ssh_ip_list.py:87 | any two `str` values are comparable |
| Strings.StrLeqTransitive | task-1-3/get_ssh_ip_list.py:87 | the `str` order is transitive |
| Strings.StrLeqAntisymmetric | task-1-3/get_ssh_ip_list.py:87 | two `str` values each at most the other are equal |
| Regex.AsciiClassesSound | functional_bot/telegram_bot.py:425 | `\d` and `\s` restricted to ASCII satisfy the constraints of `Sound` |
| Regex.Run | functional_bot/telegram_bot.py:386 | a greedy repetition takes a run of class characters within its limit, and stops only at the limit, the end of the text or a character outside the class |
| Regex.RunIsMaximal | functional_bot/telegram_bot.py:386 | no run of class characters within the limit is longer than the greedy one |
| Regex.MatchSound | functional_bot/telegram_bot.py:386-388 | the boundaries the backtracking matcher returns cut the text into one admissible piece per atom |
| Regex.MatchComplete | functional_bot/telegram_bot.py:386-388 | wherever such a cut exists, the matcher matches |
| Regex.MatchGreatest | functional_bot/telegram_bot.py:386-388 | the matcher returns the lexicographically greatest cut, which is the one `sre` backtracking reaches first |
| Regex.TryCountsSound | functional_bot/telegram_bot.py:386-388 | trying k, k-1, … repetitions of the first atom yields only admissible cuts |
| Regex.TryCountsComplete | functional_bot/telegram_bot.py:386-388 | trying counts from k down finds a match whenever a cut with at most k repetitions exists |
| Regex.TryCountsGreatest | functional_bot/telegram_bot.py:386-388 | the first count that succeeds gives the greatest such cut |
| Regex.FitsPieces | functional_bot/telegram_bot.py:386 | a cut that fits gives an admissible piece for every atom |
| Regex.PiecesFit | functional_bot/telegram_bot.py:386 | admissible pieces for every atom make a cut that fits |
| Regex.CountInFits | functional_bot/telegram_bot.py:425 | when each atom takes a fixed number of class characters or none, every match holds the same number of them |
| Regex.AllInFits | functional_bot/telegram_bot.py:615 | when every atom's class lies within f, every matched character is in f |
| Regex.CountConcat | functional_bot/telegram_bot.py:386 | counting class characters distributes over concatenation |
| Regex.CountAllOrNone | functional_bot/telegram_bot.py:386 | a text all of the class counts its length; one with none of it counts 0 |
| Regex.MatchEndSound | functional_bot/telegram_bot.py:388 | where `re.match` reports an end, a fitting cut ends there |
| Regex.FindAll | functional_bot/telegram_bot.py:388 | `findall` reports matches at or after the start, in order, non-overlapping, each a non-empty match at its start |
| Regex.FindAllLeftmost | functional_bot/telegram_bot.py:388 | a position inside no reported match holds no match: nothing is skipped |
| Regex.FindAllNone | functional_bot/telegram_bot.py:388 | with no match at any position, `findall` reports nothing |
| Registry.ButtonIsCommand | functional_bot/telegram_bot.py:44-240 | every button is `"/" + command` |
| Registry.StatePoint | functional_bot/telegram_bot.py:44-240 | `state_point` is `None` exactly for start, cancel, help and echo, and otherwise equals the command |
| Registry.KeyboardButtons | functional_bot/telegram_bot.py:245-275 | the main keyboard shows a key's button if and only if the key is neither cancel nor echo; the cancel keyboard is `/cancel` alone |
| Registry.ShownIsMainKey | functional_bot/telegram_bot.py:247-266 | a button on the main keyboard belongs to one of its keys |
| Registry.MainKeyShown | functional_bot/telegram_bot.py:247-266 | every main-keyboard key has its button shown |
| Registry.MainKeysAllButTwo | functional_bot/telegram_bot.py:247-266 | the main keyboard's keys are all keys but cancel and echo |
| Registry.ButtonsDistinct | functional_bot/telegram_bot.py:44-240 | no two keys share a button |
| Registry.CommandsDistinct | functional_bot/telegram_bot.py:44-240 | no two keys share a command |
| Listing.ListReplyLines | functional_bot/telegram_bot.py:390-396 | splitting a non-empty reply at newlines gives back one numbered line per item, ending with the item verbatim |
| Emails.FitsIsCut | functional_bot/telegram_bot.py:386 | a match of the e-mail pattern is local@domain.tld: local in `[a-zA-Z0-9._%+-]+`, domain in `[a-zA-Z0-9.-]+`, and a top-level domain of 2 or 3 letters |
| Emails.CutFits | functional_bot/telegram_bot.py:386 | every such address fits the pattern |
| Emails.CutHasOneAt | functional_bot/telegram_bot.py:386 | an address holds exactly one `@` |
| Emails.FoundAreEmails | functional_bot/telegram_bot.py:386-388 | every reported item is an address with exactly one `@` |
| Emails.NoEmailMissed | functional_bot/telegram_bot.py:388 | every address standing in the text starts inside a reported match |
| Emails.EmailHasNoNewline | functional_bot/telegram_bot.py:386 | an address holds no newline |
| Emails.EmailReplyIsList | functional_bot/telegram_bot.py:390-396 | with no address the reply is "Email-адреса не найдены"; otherwise its lines are `"i. address"` for i from 1, one per address in order |
| Emails.SampleCutsTopLevelDomain | functional_bot/emails_regex_test.py:3 | on the sample's first 29 characters, `kolbeev@example.compoiuytrewq`, the bot's pattern reports exactly `kolbeev@example.com` |
| Emails.OneAddressThenLetters | functional_bot/telegram_bot.py:386-388 | an address followed only by letters is reported alone, cut after a 3-letter top-level domain |
| Emails.SampleMatch | functional_bot/telegram_bot.py:386 | at the start of the sample the match ends after `.com`, since the greedy domain gives back to the last `.` and the top-level domain takes at most 3 letters |
| Phones.BodyHasTenDigits | functional_bot/telegram_bot.py:425 | whatever group 2 matches holds exactly ten digits, only separators besides, and ends with a digit |
| Phones.MatchIsPhone | functional_bot/telegram_bot.py:425 | every match is `+7` or `8` followed by such a ten-digit body |
| Phones.FoundArePhones | functional_bot/telegram_bot.py:425-434 | every reported number (group 1 + group 2, the whole match) is such a phone number |
| Phones.NoPhoneMissed | functional_bot/telegram_bot.py:427 | every position where `+7` or `8` is followed by a fitting body lies inside a reported number |
| Phones.PhoneReplyIsList | functional_bot/telegram_bot.py:429-435 | with no number the reply is "Телефонные номера не найдены"; otherwise one numbered line per number, in order |
| Passwords.LookaheadMeans | functional_bot/telegram_bot.py:468 | `(?=.*X)` holds exactly when a character of X follows on the same line |
| Passwords.Run8Means | functional_bot/telegram_bot.py:468 | `[A-Za-z\d@$!%*#?&]{8,}` matches exactly where eight password characters follow |
| Passwords.StrongAtMeans | functional_bot/telegram_bot.py:468 | the pattern matches at i exactly when eight password characters start there and the rest of the line holds an upper-case letter, a lower-case letter, a digit and a special character |
| Passwords.SearchFromMeans | functional_bot/telegram_bot.py:470 | `re.search` from i succeeds exactly when some position from i on is such a start |
| Passwords.StrongMeans | functional_bot/telegram_bot.py:470-476 | the reply is "Пароль сложный" if and only if the text holds such a position, else "Пароль простой" |
| Passwords.ShortIsWeak | functional_bot/telegram_bot.py:470-476 | a text of fewer than 8 characters is weak |
| Passwords.LackingIsWeak | functional_bot/telegram_bot.py:470-476 | a text without any upper-case letter, lower-case letter, digit or special character is weak |
| Passwords.EightAtStartIsStrong | functional_bot/telegram_bot.py:470-476 | a text meeting the conditions from its first character is strong |
| Passwords.StrongSampleJ | functional_bot/password_regex_test.py:6 | `J#eK8dP4` is strong |
| Passwords.StrongSampleG | functional_bot/password_regex_test.py:4 | `G4dL8pM*` is strong |
| Passwords.WeakSampleNoUpper | functional_bot/password_regex_test.py:5 | `g4dl8pm*` is weak |
| Passwords.WeakSampleNoSpecial | functional_bot/password_regex_test.py:7 | `J1eK8dP4` is weak |
| Passwords.WeakSampleNoDigit | functional_bot/password_regex_test.py:9 | `PfsS$eJe` is weak |
| Passwords.WeakSampleNoLower | functional_bot/password_regex_test.py:11 | `M8PL4DK*` is weak |
| Passwords.RunNeedNotHoldThem | functional_bot/telegram_bot.py:468-470 | the eight characters need not hold the four kinds themselves: `abcdefgh Aa1!` is strong |
| Passwords.BeforeRunDoesNotCount | functional_bot/telegram_bot.py:468-470 | characters before the run do not count: `Aa1! abcdefgh` is weak |
| RemoteOutput.NormaliseLength | functional_bot/telegram_bot.py:503 | the normalised text is three characters shorter than the text after the two replacements (none when that is shorter than 3) |
| RemoteOutput.NormaliseLeavesNoEscapes | functional_bot/telegram_bot.py:503 | no literal `\n` or `\t` escape remains after normalising |
| RemoteOutput.FirstPassHead | functional_bot/telegram_bot.py:503 | turning `\n` back into a newline restores a repr'd newline byte, keeps a tab escaped, and copies any other byte |
| RemoteOutput.FirstPass | functional_bot/telegram_bot.py:503 | on output of printable bytes, newlines and tabs, the first replacement restores every newline and leaves only tabs escaped |
| RemoteOutput.SecondPass | functional_bot/telegram_bot.py:503 | the second replacement then restores every tab, giving the bytes as characters |
| RemoteOutput.PlainQuote | functional_bot/telegram_bot.py:503 | for such output, `str(bytes)` quotes with `'` |
| RemoteOutput.PlainRepr | functional_bot/telegram_bot.py:503 | for such output, `str(bytes)` is `b'`, the escaped bytes and `'` |
| RemoteOutput.ReprFirstPass | functional_bot/telegram_bot.py:503 | the first replacement on the whole repr keeps the `b'` prefix and the quote |
| RemoteOutput.ReprSecondPass | functional_bot/telegram_bot.py:503 | the second replacement on the whole repr keeps the `b'` prefix and the quote |
| RemoteOutput.InnerOfWrapped | functional_bot/telegram_bot.py:503 | `[2:-1]` removes exactly the `b'` prefix and the closing quote |
| RemoteOutput.PlainOutputRoundTrip | functional_bot/telegram_bot.py:501-503 | output made only of printable ASCII other than `\` and `'`, newlines and tabs comes back exactly as sent |
| RemoteOutput.BackslashDoubled | functional_bot/telegram_bot.py:501-503 | a backslash in the output comes back doubled |
| RemoteOutput.BackslashBeforeN | functional_bot/telegram_bot.py:501-503 | a backslash followed by `n` in the output comes back as a backslash and a newline |
| RemoteOutput.QuoteStaysEscaped | functional_bot/telegram_bot.py:501-503 | a `'` in output that also holds a `"` comes back as `\'` |
| RemoteOutput.Chunks | functional_bot/telegram_bot.py:512-514 | the parts joined give the text back; there are ⌈n/4096⌉ of them, each of 1 to 4096 characters, all but the last exactly 4096 |
| RemoteOutput.CriticalPiecesRejoin | functional_bot/telegram_bot.py:585-588 | with no parts there is nothing to rewrite (`text[-1]` fails); otherwise the pieces joined with newlines are the last part with every `nautilus` replaced by `sevsu` |
| AptList.MatchShape | functional_bot/telegram_bot.py:615 | every match is `ii`, two whitespace characters, a run of package-name characters, and one whitespace character |
| AptList.GroupStandsAsName | functional_bot/telegram_bot.py:615 | group 1 of a match is a package name standing in the listing as the pattern requires |
| AptList.NamesAreGroups | functional_bot/telegram_bot.py:615 | every reported name is group 1 of a match, at that match's start |
| AptList.NoPackageMissed | functional_bot/telegram_bot.py:615 | every package line standing in the listing starts inside a reported match |
| AptList.AfterCommas | functional_bot/telegram_bot.py:620 | the pieces after a split at commas: the first name, then each later name after a blank |
| AptList.JoinCommaSpace | functional_bot/telegram_bot.py:620 | joining with `", "` is joining with `","` after putting a blank before every later name |
| AptList.ReplySplitsIntoNames | functional_bot/telegram_bot.py:615-620 | splitting the reply at commas gives back the names, each later one after a blank |
| TelegramBot.Rejection | functional_bot/telegram_bot.py:621-622 | the text of the BadRequest for a rejected message is itself acceptable |
| TelegramBot.Deliver | functional_bot/telegram_bot.py:522-524 | replies go out in order until the first one the server rejects, and the handler ends there exactly when one is rejected |
| TelegramBot.DeliverAll | functional_bot/telegram_bot.py:522-524 | when every reply is acceptable, all of them are sent |
| TelegramBot.DeliverStops | functional_bot/telegram_bot.py:522-524 | sending stops at the first rejected reply, and the handler raises |
| TelegramBot.CommandOfWord | functional_bot/telegram_bot.py:649 | a command word after a slash, alone or before text that neither continues the word nor names a bot, invokes that command in every bot |
| TelegramBot.CommandForBot | functional_bot/telegram_bot.py:649 | `/word@name` invokes `word` exactly in the bot whose username is `name`, case aside; every other bot's handlers refuse it |
| TelegramBot.CommandIsWord | functional_bot/telegram_bot.py:44-240 | every registered command is a valid command word |
| TelegramBot.ButtonInvokes | functional_bot/telegram_bot.py:245-267 | pressing a keyboard button sends a text that invokes the button's own command, whatever the bot's username |
| TelegramBot.InvokesOne | functional_bot/telegram_bot.py:649-730 | no text invokes two registered commands |
| TelegramBot.NotInvokes | functional_bot/telegram_bot.py:649-730 | a text that invokes one command invokes no other |
| TelegramBot.FirstConversation | functional_bot/telegram_bot.py:655-691 | the conversation found is the first, in registration order, that takes the update; when none is found, none takes it |
| TelegramBot.FirstMonitor | functional_bot/telegram_bot.py:694-730 | the monitoring command found is invoked by the text; when none is found, none is invoked |
| TelegramBot.NextStatesWellFormed | functional_bot/telegram_bot.py:297 | every stored conversation state stays its conversation's state point |
| TelegramBot.Prompt | functional_bot/telegram_bot.py:375 | each conversation's prompt is an acceptable message |
| TelegramBot.MonitorScriptOf | functional_bot/telegram_bot.py:694-730 | a monitoring route runs its command's handler |
| TelegramBot.ShortScriptOf | functional_bot/telegram_bot.py:277-480 | every handler but the monitoring ones tries at most one reply and does not crash |
| TelegramBot.StampStep | functional_bot/telegram_bot.py:522-524 | sending one more reply appends its message |
| TelegramBot.StatePointIsCommand | functional_bot/telegram_bot.py:656-660 | a conversation's entry command is also the state its entry handler returns |
| TelegramBot.MonitorKeyIsPlain | functional_bot/telegram_bot.py:694-730 | no monitoring command opens, leaves or precedes a conversation |
| TelegramBot.MonitorButtonServed | functional_bot/telegram_bot.py:694-730 | a monitoring button is always served by its own command handler, whatever conversation the sender is in, and no state changes |
| TelegramBot.NoConversationTakes | functional_bot/telegram_bot.py:655-691 | a command that neither opens nor cancels a conversation passes every conversation by |
| TelegramBot.MonitorFound | functional_bot/telegram_bot.py:694-730 | the first monitoring command a text invokes is the one it invokes |
| TelegramBot.TextGoesToConversation | functional_bot/telegram_bot.py:399 | a non-command text in a conversation gets that conversation's answer under the cancel keyboard, and the state is kept |
| TelegramBot.IdleTextEchoed | functional_bot/telegram_bot.py:633-636 | outside every conversation a non-command text is echoed under the main keyboard |
| TelegramBot.CancelLeavesFirst | functional_bot/telegram_bot.py:293-297 | `/cancel` leaves the first active conversation, and only that one |
| TelegramBot.IdleCancelIgnored | functional_bot/telegram_bot.py:663 | `/cancel` outside every conversation has no handler: nothing is sent and nothing changes |
| TelegramBot.EntryButtonOpens | functional_bot/telegram_bot.py:370-380 | a conversation's entry button prompts under the cancel keyboard and stores the conversation's state |
| TelegramBot.EntryButtonRoutes | functional_bot/telegram_bot.py:655-691 | the entry button of a conversation the sender is not in reaches that conversation's entry |
| TelegramBot.EmailSession | functional_bot/telegram_bot.py:655-665 | `/find_email`, a text, then `/cancel`: the prompt, the e-mail reply with the state kept, then the state removed |
| TelegramBot.TwoConversationsAtOnce | functional_bot/telegram_bot.py:655-691 | inside the e-mail search, `/find_phone_number` opens the phone search as well |
| TelegramBot.PartsDelivered | functional_bot/telegram_bot.py:522-524 | with acceptable parts, every part is sent in order, only the last with the main keyboard; nothing completes without parts |
| TelegramBot.MonitorDelivers | functional_bot/telegram_bot.py:519-525 | a monitoring handler's messages, joined, are the normalised output, each at most 4096 characters, the main keyboard only on the last; it completes exactly when there is output |
| TelegramBot.AptAlwaysAnswers | functional_bot/telegram_bot.py:619-622 | `/get_apt_list` always sends exactly one message with the main keyboard: the names, or the BadRequest text when they are empty or too long |
| TelegramBot.NoPackagesComplains | functional_bot/telegram_bot.py:619-622 | with no package line the one message is "Message text is empty" |
| TelegramBot.CriticalNewlineLosesKeyboard | functional_bot/telegram_bot.py:587-592 | when the last part ends with a newline, the empty last piece is rejected: the handler fails and no message carries the main keyboard |
| TelegramBot.RewrittenLines | functional_bot/telegram_bot.py:587-588 | a last part ending with a newline is rewritten and split into pieces ending with an empty one |
| TelegramBot.EmptyLastPieceLosesKeyboard | functional_bot/telegram_bot.py:590-592 | an empty last piece is rejected, so the message with the main keyboard never goes out |
| TelegramBot.CriticalEmptySendsNothing | functional_bot/telegram_bot.py:585-587 | `/get_critical` with no output sends nothing and fails |
| TelegramBot.Bot.constructor | functional_bot/telegram_bot.py:41-240 | a new bot has sent nothing and holds no conversation state |
| TelegramBot.Bot.Send | functional_bot/telegram_bot.py:281-284 | a message is added to the outbox exactly when the server accepts it |
| TelegramBot.Bot.Launch | functional_bot/telegram_bot.py:286-290 | at start-up "Бот запущен!" goes to the configured chat with the main keyboard |
| TelegramBot.Bot.SendParts | functional_bot/telegram_bot.py:522-524 | the loop over `text[:-1]` and the last part leave exactly the delivered messages in the outbox |
| TelegramBot.Bot.SendFirst | functional_bot/telegram_bot.py:522-523 | the first n replies are sent one by one, stopping at the first rejected one |
| TelegramBot.Bot.SendPackages | functional_bot/telegram_bot.py:611-623 | `/get_apt_list` adds its one message and completes |
| TelegramBot.Bot.SendMonitor | functional_bot/telegram_bot.py:519-631 | a monitoring handler adds exactly the messages of its script |
| TelegramBot.Bot.SendOne | functional_bot/telegram_bot.py:277-480 | a single-reply handler adds its reply if the server accepts it |
| TelegramBot.Bot.HandleUpdate | functional_bot/telegram_bot.py:646-733 | the update goes to the first handler that takes it; the outbox grows by what it delivers; the states change as its return value says, and stay well formed |
| PackageBot.NotFoundQuotesName | functional_bot/test_bot.py:25 | the not-found reply quotes the name verbatim |
| PackageBot.ErrorCarriesMessage | functional_bot/test_bot.py:14-15 | an exception in either apt helper gives the fixed prefix followed by its message |
| PackageBot.Truncate | functional_bot/test_bot.py:58 | `s[:4096]` is the longest prefix of s of at most 4096 characters |
| PackageBot.AllPackagesEdit | functional_bot/test_bot.py:45-47 | "all packages" edits the message to the header and at most 4096 characters of the listing, and the edit is rejected when that is too long |
| PackageBot.SearchPackageReturnsWaiting | functional_bot/test_bot.py:48-50 | "search package" returns the waiting value, any other data returns None, and the user data is untouched |
| PackageBot.StepKeepsNobodyWaiting | functional_bot/test_bot.py:55-61 | no handler stores the waiting value |
| PackageBot.NobodyEverWaits | functional_bot/test_bot.py:55-61 | after any run of updates, nobody waits for a package name |
| PackageBot.LookupUnreachable | functional_bot/test_bot.py:54-61 | from a fresh start, any non-command text is answered with the hint: the lookup never runs |
| PackageBot.WaitingLooksUp | functional_bot/test_bot.py:55-59 | a waiting user would get the package info cut to 4096 characters, and the state reset |
| PackageBot.PackageBot.constructor | functional_bot/test_bot.py:71-81 | a new bot has sent nothing and stores no state |
| PackageBot.PackageBot.Emit | functional_bot/test_bot.py:47 | a send or edit takes place exactly when the server accepts the text |
| PackageBot.PackageBot.ButtonPressed | functional_bot/test_bot.py:41-50 | a button press does what `button_handler` does and leaves the user data alone |
| PackageBot.PackageBot.MessageReceived | functional_bot/test_bot.py:54-61 | a text does what `handle_message` does to the outbox and the user data |
| PackageBot.PackageBot.HandleUpdate | functional_bot/test_bot.py:74-81 | the dispatcher runs the first handler that takes the update, and nobody starts waiting |
| PackageBot2.StartOffersTwoOptions | functional_bot/test_bot_2.py:31-38 | `/get_apt_list` offers exactly the two options and ends the conversation at once |
| PackageBot2.ButtonReturns | functional_bot/test_bot_2.py:42-51 | "search package" returns 1 and anything else returns None, but the return value changes no state |
| PackageBot2.HandleMessageEnds | functional_bot/test_bot_2.py:55-64 | `handle_message` ends on every path; waiting, it answers with at most 4096 characters and resets the state |
| PackageBot2.StepKeepsIdle | functional_bot/test_bot_2.py:74-84 | from an empty conversation with nobody waiting, every update keeps both so and never reaches `handle_message` |
| PackageBot2.AlwaysIdle | functional_bot/test_bot_2.py:74-84 | after any run of updates the conversation is empty and nobody waits |
| PackageBot2.TextsGoUnanswered | functional_bot/test_bot_2.py:74-84 | from a fresh start a non-command text finds no handler and gets no reply |
| PackageBot2.PackageBot2.constructor | functional_bot/test_bot_2.py:74-84 | a new bot has sent nothing and holds no state |
| PackageBot2.PackageBot2.MessageReceived | functional_bot/test_bot_2.py:55-64 | a text does what `handle_message` does, and the conversation is untouched |
| PackageBot2.PackageBot2.HandleUpdate | functional_bot/test_bot_2.py:74-84 | the conversation, then the button handler; END deletes the conversation's key, and the invariant is kept |
| DataPreparation.Leading | task-1-3/data_preparation.py:45 | the number of leading characters of a class, stopping at the first one outside it |
| DataPreparation.Trailing | task-1-3/data_preparation.py:45 | the number of trailing characters of a class, stopping at the last one outside it |
| DataPreparation.StripSlice | task-1-3/data_preparation.py:45 | `strip()` keeps a middle slice, cutting only whitespace, and what is left neither starts nor ends with whitespace |
| DataPreparation.StripKeeps | task-1-3/data_preparation.py:45 | a line whose ends are not whitespace is left as it is |
| DataPreparation.CommasKept | task-1-3/data_preparation.py:51 | the first substitution keeps the length, leaves only `[0-9-,]`, and keeps those characters where they were |
| DataPreparation.Collapse | task-1-3/data_preparation.py:55 | `(,+)` → `,` keeps the first and last character and never lengthens the line |
| DataPreparation.CollapseChars | task-1-3/data_preparation.py:55 | every character kept comes from the line |
| DataPreparation.CollapseNoDoubleComma | task-1-3/data_preparation.py:55 | after the second substitution no comma follows a comma |
| DataPreparation.CollapseKeeps | task-1-3/data_preparation.py:55 | a line without a doubled comma is left as it is |
| DataPreparation.TrimEdgesSlice | task-1-3/data_preparation.py:58 | `(^,)\|(,$)` cuts at most one comma at each end and nothing else |
| DataPreparation.Collapsed | task-1-3/data_preparation.py:45-55 | before the edges are trimmed, the line holds only `[0-9-,]` and no doubled comma |
| DataPreparation.CleanCharset | task-1-3/data_preparation.py:45-58 | a cleaned line holds only ASCII digits, `-` and `,` |
| DataPreparation.CleanNoDoubleComma | task-1-3/data_preparation.py:45-58 | a cleaned line has no two commas in a row |
| DataPreparation.CleanEdges | task-1-3/data_preparation.py:45-58 | a cleaned line neither starts nor ends with a comma |
| DataPreparation.CleanKeepsNumbers | task-1-3/data_preparation.py:45-58 | removing the commas from a cleaned line gives exactly the line's digits and minus signs, in order |
| DataPreparation.StripKeepsNumbers | task-1-3/data_preparation.py:45 | `strip()` loses no digit or minus sign |
| DataPreparation.NumericCommas | task-1-3/data_preparation.py:51 | the first substitution loses no digit or minus sign |
| DataPreparation.NumericCollapse | task-1-3/data_preparation.py:55 | the second substitution loses no digit or minus sign |
| DataPreparation.TrimKeepsNumbers | task-1-3/data_preparation.py:58 | the third substitution loses no digit or minus sign |
| DataPreparation.CleanIdempotent | task-1-3/data_preparation.py:45-58 | cleaning a cleaned line changes nothing |
| DataPreparation.CleanFixed | task-1-3/data_preparation.py:45-58 | a line of `[0-9-,]` with no doubled comma and no comma at either end is already clean |
| DataPreparation.CommasOfFields | task-1-3/data_preparation.py:31 | the first substitution turns every generated separator into a comma around its number |
| DataPreparation.CollapseWrapped | task-1-3/data_preparation.py:55 | wrapped numbers collapse to the numbers joined by commas, with one comma at each end |
| DataPreparation.FieldsUnstripped | task-1-3/data_preparation.py:31-32 | a generated line opens and closes with a separator, so `strip()` leaves it alone |
| DataPreparation.TrimWrapped | task-1-3/data_preparation.py:58 | the comma at each end goes, leaving the numbers joined by commas |
| DataPreparation.CleanRecord | task-1-3/data_preparation.py:23-32 | a line built as `create_err_file` builds it cleans to its numbers joined by `,` |
| DataPreparation.CleanAll | task-1-3/data_preparation.py:44-59 | one cleaned line per input line |
| DataPreparation.RenderSplits | task-1-3/data_preparation.py:61 | a file of newline-free lines, each followed by a newline, reads back as those lines |
| DataPreparation.CheckLines | task-1-3/data_preparation.py:37-62 | the file written reads back as exactly one cleaned line per input line, in order, then the empty rest |
| SshIpList.MatchTokens | task-1-3/get_ssh_ip_list.py:75 | a match of pattern pieces ends within the line |
| SshIpList.TokensAgree | task-1-3/get_ssh_ip_list.py:75 | where no group's class holds whitespace, the matcher finds exactly the declarative spellings of the pieces |
| SshIpList.PatternPossessive | task-1-3/get_ssh_ip_list.py:75 | no group of this pattern admits whitespace |
| SshIpList.LastMatch | task-1-3/get_ssh_ip_list.py:75 | the greedy `.*` tries the tail from the furthest position back |
| SshIpList.LastMatchIsLast | task-1-3/get_ssh_ip_list.py:75 | the tail is found at the last position where it matches, and nowhere when it matches nowhere |
| SshIpList.DotEnd | task-1-3/get_ssh_ip_list.py:75 | `.*` reaches at most the end of the line |
| SshIpList.SearchMeaning | task-1-3/get_ssh_ip_list.py:75-77 | the search finds groups g and h exactly when the declarative reading holds, the last complete `for … from … port …` on the line included |
| SshIpList.AssembleMeaning | task-1-3/get_ssh_ip_list.py:77-80 | the tuple built is (month, day) and the four groups exactly when the declarative match holds |
| SshIpList.ParseMeaning | task-1-3/get_ssh_ip_list.py:74-80 | a line yields a tuple exactly when it starts with the month, a whitespace, `str(day)`, a whitespace, a `[0-9:]+` time and a whitespace, and later holds ` for USER from IP port PORT ` with the last such triple captured |
| SshIpList.PaddedDayNeverMatches | task-1-3/get_ssh_ip_list.py:62-75 | a day padded with `0` or a blank never matches |
| SshIpList.HeadSpellsDay | task-1-3/get_ssh_ip_list.py:75 | a head match has the day right after the month and one whitespace |
| SshIpList.ParseUnambiguous | task-1-3/get_ssh_ip_list.py:75-88 | what a matching line yields can be written and read back unambiguously |
| SshIpList.KeyLeqTotal | task-1-3/get_ssh_ip_list.py:87 | any two tuples are comparable by (day, time) |
| SshIpList.KeyLeqTransitive | task-1-3/get_ssh_ip_list.py:87 | the (day, time) order is transitive |
| SshIpList.SmallestExists | task-1-3/get_ssh_ip_list.py:87 | every non-empty set of tuples has one with the smallest key |
| SshIpList.Logins | task-1-3/get_ssh_ip_list.py:64-84 | a tuple is collected exactly when some stripped line yields it |
| SshIpList.CollectedStep | task-1-3/get_ssh_ip_list.py:80-82 | one more line adds its tuple to the set when it matched |
| SshIpList.ReadLogins | task-1-3/get_ssh_ip_list.py:64-84 | the reading loop gathers exactly the tuples of the matching lines |
| SshIpList.TakeSmallest | task-1-3/get_ssh_ip_list.py:87 | appending the smallest remaining tuple keeps the output sorted and free of repeats |
| SshIpList.WriteSorted | task-1-3/get_ssh_ip_list.py:86-88 | every collected tuple is written exactly once, in (day, time) order, one formatted line each, and nothing is written for an empty set |
| SshIpList.CheckIpViaSsh | task-1-3/get_ssh_ip_list.py:50-90 | the lines written are exactly the distinct tuples of the matching lines, once each, in (day, time) order |
| SshIpList.CutAtFirst | task-1-3/get_ssh_ip_list.py:88 | a field followed by a separator it does not hold ends at that separator |
| SshIpList.CutAtLast | task-1-3/get_ssh_ip_list.py:88 | a field preceded by a separator it does not hold starts after that separator |
| SshIpList.FormatInjective | task-1-3/get_ssh_ip_list.py:88 | two tuples that give the same line are equal |
| SshIpList.PortAfterLastColon | task-1-3/get_ssh_ip_list.py:88 | the last `:` separates the address from the port |

## Left out

- SSH transport (paramiko), environment variables, `.env` loading, logging,
  file reading and writing, and polling are I/O. A host is a function from a
  shell command to the bytes it prints, stdout then stderr. Files are
  sequences of lines or a string.
- `datetime.now()` in `get_ssh_ip_list.py` reads the clock, so the month and
  day are parameters.
- The `apt` subprocesses in `test_bot.py` and `test_bot_2.py` are an input
  (`AptRun`): an exit status and the decoded stdout, or an exception message.
- The dispatch rules of python-telegram-bot are written into the routing
  functions as the library documents them; they are not derived from its
  code:
  - handlers of group 0 are tried in registration order;
  - a `ConversationHandler` keeps its state when a handler returns `None`;
  - `CommandHandler` compares the lower-cased command, and refuses a
    `/word@name` whose name is not the receiving bot's username;
  - the command entity Telegram marks is `/word` followed, when present, by
    `@` and a run of name characters.
- The Telegram server counts message length in UTF-16 code units. The model
  counts characters, with the 4096 limit on the same count.
- The formatting details of a BadRequest are reduced to two texts, "Message
  text is empty" and "Message is too long".
- `TelegramBot.Accepted` asks only for 1 to 4096 characters. The server also
  strips whitespace and rejects a text with nothing left ("Message text is
  empty"). Its exact whitespace set is not modelled, so the model treats a
  whitespace-only text as acceptable.
- TelegramBot.MonitorDelivers: "completes exactly when there is output" holds for
  the model's `Accepted`. A whitespace-only part, such as the output of a
  host that prints only `\n`, is rejected by the server. The source's
  `reply_text` then raises, so that message is not sent. The same holds for
  a whitespace-only last chunk, and for a whitespace-only line of the
  critical log.
- The help text (`telegram_bot.py:302-365`) is a parameter of the bot. Its
  contents are not modelled.
- `create_err_file` draws random numbers and separators. The model takes any
  sequence of fields, each a number with separators from `, ; .`, instead of
  numbers in [-100, 100]. This covers every line it can write.
- `get_usb_list.py` only repeats the normaliser over SSH and is not part of
  this model.
- The month in the login pattern comes from `strftime("%b")`, so it holds no
  regex metacharacters. The model matches it as literal text.
- `str(bytes)` is modelled for every byte. The round trip
  (`RemoteOutput.PlainOutputRoundTrip`) is proved for printable ASCII other
  than `\` and `'`, newlines and tabs. Other bytes come back changed, as in
  Python:
  - a backslash comes back doubled (`RemoteOutput.BackslashDoubled`);
  - a backslash followed by `n` or `t` comes back as a backslash and a newline
    or a tab (`RemoteOutput.BackslashBeforeN`);
  - a `'` comes back as `\'` when the output also holds `"`
    (`RemoteOutput.QuoteStaysEscaped`);
  - a carriage return and other control bytes come back as `\r` or `\xNN`
    escapes.
- `\d` and `\s` beyond ASCII are left open (`CharClasses` with `Sound`).
- Phones.PhoneReplyIsList: the line-per-number reading requires that no number
  spans a newline. `\s` matches a newline, so a number can span lines, and
  then the reply has more lines than numbers.
- SshIpList.CheckIpViaSsh: the order among tuples with the same (day, time)
  key follows the set's iteration order in Python. The model leaves it open:
  any order sorted by key is allowed.
- SshIpList.WriteSorted: the same open order among equal keys.
- Emails.SampleCutsTopLevelDomain: only the first address of the sample text
  is worked through. The sample's own pattern (`emails_regex_test.py:10`) is
  an older variant; the bot's pattern is the one applied.
- The keyboard layout (one button per row, `resize_keyboard`) is reduced to
  the list of buttons.
