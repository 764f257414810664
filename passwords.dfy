// Password strength check of the bot (telegram_bot.py:455-479): the reply is
// "strong" when `re.search` finds
//   (?=.*[A-Z])(?=.*[a-z])(?=.*\d)(?=.*[@$!%*#?&])[A-Za-z\d@$!%*#?&]{8,}
// anywhere in the message. `.` does not match a newline, so each lookahead
// only sees the rest of the current line.

module Passwords {
  import opened Strings
  import opened Regex

  predicate IsUpper(c: char)
  {
    'A' <= c <= 'Z'
  }

  predicate IsLower(c: char)
  {
    'a' <= c <= 'z'
  }

  /** `[@$!%*#?&]` */
  predicate IsSpecial(c: char)
  {
    c == '@' || c == '$' || c == '!' || c == '%' || c == '*' || c == '#' || c == '?' || c == '&'
  }

  /** `[A-Za-z\d@$!%*#?&]` */
  predicate IsPasswordChar(cc: CharClasses, c: char)
  {
    IsUpper(c) || IsLower(c) || cc.isDigit(c) || IsSpecial(c)
  }

  function PasswordChars(cc: CharClasses): char -> bool
  {
    c => IsPasswordChar(cc, c)
  }

  /** `.` */
  predicate NotNewline(c: char)
  {
    c != '\n'
  }

  /** `(?=.*X)` at position i. */
  function Lookahead(x: char -> bool, s: string, i: nat): bool
    requires i <= |s|
  {
    Match([Star(NotNewline), Atom(x, 1, Some(1))], s, i).Some?
  }

  /** `[A-Za-z\d@$!%*#?&]{8,}` */
  function Run8(cc: CharClasses): Pattern
  {
    [Atom(PasswordChars(cc), 8, None)]
  }

  /** The whole pattern matches at position i. */
  function StrongAt(cc: CharClasses, s: string, i: nat): bool
    requires i <= |s|
  {
    && Lookahead(IsUpper, s, i) && Lookahead(IsLower, s, i)
    && Lookahead(cc.isDigit, s, i) && Lookahead(IsSpecial, s, i)
    && Match(Run8(cc), s, i).Some?
  }

  /** `re.search` from position i: the positions i, i + 1, ..., |s| in turn. */
  function SearchFrom(cc: CharClasses, s: string, i: nat): bool
    requires i <= |s|
    decreases |s| - i
  {
    StrongAt(cc, s, i) || (i < |s| && SearchFrom(cc, s, i + 1))
  }

  function IsStrong(cc: CharClasses, s: string): bool
  {
    SearchFrom(cc, s, 0)
  }

  const Weak := "Пароль простой"
  const Strong := "Пароль сложный"

  /** The reply to a text sent in the `verify_password` state. */
  function PasswordReply(cc: CharClasses, s: string): string
  {
    if IsStrong(cc, s) then Strong else Weak
  }

  // The meaning of the check, stated without the matcher.

  /** Some character of class x follows position i on the same line. */
  ghost predicate OnRestOfLine(x: char -> bool, s: string, i: nat)
  {
    exists j :: i <= j < |s| && x(s[j]) && forall k :: i <= k < j ==> s[k] != '\n'
  }

  /** Eight password characters start at i. */
  predicate EightFrom(cc: CharClasses, s: string, i: nat)
  {
    i + 8 <= |s| && forall k :: i <= k < i + 8 ==> IsPasswordChar(cc, s[k])
  }

  ghost predicate StrongFrom(cc: CharClasses, s: string, i: nat)
  {
    && EightFrom(cc, s, i)
    && OnRestOfLine(IsUpper, s, i) && OnRestOfLine(IsLower, s, i)
    && OnRestOfLine(cc.isDigit, s, i) && OnRestOfLine(IsSpecial, s, i)
  }

  /**
   * A strong password: eight password characters in a row, from whose
   * start the rest of the line holds an upper-case letter, a lower-case
   * letter, a digit and a special character.
   */
  ghost predicate HasStrongPassword(cc: CharClasses, s: string)
  {
    StrongSomewhereFrom(cc, s, 0)
  }

  lemma {:induction false} LookaheadMeans(x: char -> bool, s: string, i: nat)
    requires i <= |s|
    ensures Lookahead(x, s, i) <==> OnRestOfLine(x, s, i)
  {
    var p := [Star(NotNewline), Atom(x, 1, Some(1))];
    if Lookahead(x, s, i) {
      MatchSound(p, s, i);
      var b := Match(p, s, i).value;
      FitsPieces(p, s, i, b);
      assert PieceFits(p[0], s, i, b[0]) && PieceFits(p[1], s, b[0], b[1]);
      assert x(s[b[0]]);
    }
    if OnRestOfLine(x, s, i) {
      var j :| i <= j < |s| && x(s[j]) && forall k :: i <= k < j ==> s[k] != '\n';
      var b := [j, j + 1];
      assert PieceFits(p[0], s, PieceStart(i, b, 0), b[0]);
      assert PieceFits(p[1], s, PieceStart(i, b, 1), b[1]);
      PiecesFit(p, s, i, b);
      MatchComplete(p, s, i, b);
    }
  }

  lemma {:induction false} Run8Means(cc: CharClasses, s: string, i: nat)
    requires i <= |s|
    ensures Match(Run8(cc), s, i).Some? <==> EightFrom(cc, s, i)
  {
    var p := Run8(cc);
    if Match(p, s, i).Some? {
      MatchSound(p, s, i);
      var b := Match(p, s, i).value;
      FitsPieces(p, s, i, b);
      assert PieceFits(p[0], s, i, b[0]);
    }
    if EightFrom(cc, s, i) {
      var b := [i + 8];
      assert PieceFits(p[0], s, PieceStart(i, b, 0), b[0]);
      PiecesFit(p, s, i, b);
      MatchComplete(p, s, i, b);
    }
  }

  lemma {:induction false} StrongAtMeans(cc: CharClasses, s: string, i: nat)
    requires i <= |s|
    ensures StrongAt(cc, s, i) <==> StrongFrom(cc, s, i)
  {
    LookaheadMeans(IsUpper, s, i);
    LookaheadMeans(IsLower, s, i);
    LookaheadMeans(cc.isDigit, s, i);
    LookaheadMeans(IsSpecial, s, i);
    Run8Means(cc, s, i);
  }

  /** Some position from i on starts a strong password. */
  ghost predicate StrongSomewhereFrom(cc: CharClasses, s: string, i: nat)
  {
    exists j :: i <= j <= |s| && StrongFrom(cc, s, j)
  }

  lemma {:induction false} SearchFromMeans(cc: CharClasses, s: string, i: nat)
    requires i <= |s|
    ensures SearchFrom(cc, s, i) <==> StrongSomewhereFrom(cc, s, i)
    decreases |s| - i
  {
    StrongAtMeans(cc, s, i);
    if i < |s| {
      SearchFromMeans(cc, s, i + 1);
      if StrongSomewhereFrom(cc, s, i) && !StrongFrom(cc, s, i) {
        var j :| i <= j <= |s| && StrongFrom(cc, s, j);
        assert StrongSomewhereFrom(cc, s, i + 1);
      }
      if StrongSomewhereFrom(cc, s, i + 1) {
        var j :| i + 1 <= j <= |s| && StrongFrom(cc, s, j);
        assert StrongSomewhereFrom(cc, s, i);
      }
    }
  }

  /** The bot calls a text strong exactly when it holds a strong password. */
  lemma {:induction false} StrongMeans(cc: CharClasses, s: string)
    ensures IsStrong(cc, s) <==> HasStrongPassword(cc, s)
    ensures PasswordReply(cc, s) == (if HasStrongPassword(cc, s) then Strong else Weak)
  {
    SearchFromMeans(cc, s, 0);
  }

  /** Fewer than eight characters are always weak. */
  lemma {:induction false} ShortIsWeak(cc: CharClasses, s: string)
    requires |s| < 8
    ensures PasswordReply(cc, s) == Weak
  {
    StrongMeans(cc, s);
  }

  /** A text lacking one of the four kinds of character altogether is weak. */
  lemma {:induction false} LackingIsWeak(cc: CharClasses, s: string, x: char -> bool)
    requires x == IsUpper || x == IsLower || x == cc.isDigit || x == IsSpecial
    requires forall k :: 0 <= k < |s| ==> !x(s[k])
    ensures PasswordReply(cc, s) == Weak
  {
    forall i | 0 <= i <= |s| ensures !StrongFrom(cc, s, i) {
      assert !OnRestOfLine(x, s, i);
    }
    StrongMeans(cc, s);
  }

  /** A text whose first eight characters are a strong password is strong. */
  lemma {:induction false} EightAtStartIsStrong(cc: CharClasses, s: string)
    requires StrongFrom(cc, s, 0)
    ensures PasswordReply(cc, s) == Strong
  {
    StrongMeans(cc, s);
  }

  /** Lines of the sample text of password_regex_test.py, each checked on its own. */
  lemma {:induction false} StrongSampleJ(cc: CharClasses)
    requires Sound(cc)
    ensures PasswordReply(cc, "J#eK8dP4") == Strong
  {
    var s := "J#eK8dP4";
    assert cc.isDigit(s[4]) && IsUpper(s[0]) && IsSpecial(s[1]) && IsLower(s[2]);
    assert EightFrom(cc, s, 0);
    EightAtStartIsStrong(cc, s);
  }

  lemma {:induction false} StrongSampleG(cc: CharClasses)
    requires Sound(cc)
    ensures PasswordReply(cc, "G4dL8pM*") == Strong
  {
    var t := "G4dL8pM*";
    assert cc.isDigit(t[1]) && cc.isDigit(t[4]) && IsUpper(t[0]) && IsLower(t[2]) && IsSpecial(t[7]);
    assert EightFrom(cc, t, 0);
    EightAtStartIsStrong(cc, t);
  }

  lemma {:induction false} WeakSampleNoUpper(cc: CharClasses)
    ensures PasswordReply(cc, "g4dl8pm*") == Weak
  {
    LackingIsWeak(cc, "g4dl8pm*", IsUpper);
  }

  lemma {:induction false} WeakSampleNoSpecial(cc: CharClasses)
    ensures PasswordReply(cc, "J1eK8dP4") == Weak
  {
    LackingIsWeak(cc, "J1eK8dP4", IsSpecial);
  }

  lemma {:induction false} WeakSampleNoDigit(cc: CharClasses)
    requires Sound(cc)
    ensures PasswordReply(cc, "PfsS$eJe") == Weak
  {
    var u := "PfsS$eJe";
    assert forall k :: 0 <= k < |u| ==> u[k] < '\U{80}' && !IsAsciiDigit(u[k]);
    LackingIsWeak(cc, u, cc.isDigit);
  }

  lemma {:induction false} WeakSampleNoLower(cc: CharClasses)
    ensures PasswordReply(cc, "M8PL4DK*") == Weak
  {
    LackingIsWeak(cc, "M8PL4DK*", IsLower);
  }

  /**
   * `search` with lookaheads: the four kinds of character need only follow
   * the start of the run on the same line, not lie inside the eight
   * characters ...
   */
  lemma {:induction false} RunNeedNotHoldThem(cc: CharClasses)
    requires Sound(cc)
    ensures PasswordReply(cc, "abcdefgh Aa1!") == Strong
  {
    var s := "abcdefgh Aa1!";
    assert EightFrom(cc, s, 0);
    assert forall k :: 0 <= k < |s| ==> s[k] != '\n';
    SeenOnLine(IsUpper, s, 0, 9);
    SeenOnLine(IsLower, s, 0, 0);
    SeenOnLine(cc.isDigit, s, 0, 11);
    SeenOnLine(IsSpecial, s, 0, 12);
    EightAtStartIsStrong(cc, s);
  }

  /** A character of class x at j, with no newline between i and j. */
  lemma {:induction false} SeenOnLine(x: char -> bool, s: string, i: nat, j: nat)
    requires i <= j < |s| && x(s[j]) && forall k :: i <= k < j ==> s[k] != '\n'
    ensures OnRestOfLine(x, s, i)
  {
  }

  /** A character outside the class inside the eight breaks the run. */
  lemma {:induction false} GapBreaksRun(cc: CharClasses, s: string, i: nat, g: nat)
    requires i <= g < |s| && g < i + 8 && !IsPasswordChar(cc, s[g])
    ensures !EightFrom(cc, s, i)
  {
  }

  /** No character of class x from `from` on: no lookahead for x succeeds there. */
  lemma {:induction false} NoneOnRestOfLine(x: char -> bool, s: string, from: nat, i: nat)
    requires from <= i && forall j :: from <= j < |s| ==> !x(s[j])
    ensures !OnRestOfLine(x, s, i)
  {
  }

  /** ... and characters before the run do not count. */
  lemma {:induction false} BeforeRunDoesNotCount(cc: CharClasses)
    requires Sound(cc)
    ensures PasswordReply(cc, "Aa1! abcdefgh") == Weak
  {
    var t := "Aa1! abcdefgh";
    assert !cc.isDigit(' ') && !IsPasswordChar(cc, t[4]);
    assert forall j :: 5 <= j < |t| ==> !IsUpper(t[j]);
    forall i | 0 <= i <= |t| ensures !StrongFrom(cc, t, i) {
      if i < 5 {
        GapBreaksRun(cc, t, i, 4);
      } else {
        NoneOnRestOfLine(IsUpper, t, 5, i);
      }
    }
    StrongMeans(cc, t);
  }
}
