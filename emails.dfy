// Email extraction of the bot (telegram_bot.py:382-399): every non-overlapping
// match of `[a-zA-Z0-9._%+-]+@[a-zA-Z0-9.-]+\.[a-zA-Z]{2,3}`, left to right,
// listed in a numbered reply.

module Emails {
  import opened Strings
  import opened Regex
  import opened Listing

  predicate IsAsciiLetter(c: char)
  {
    'a' <= c <= 'z' || 'A' <= c <= 'Z'
  }

  /** `[a-zA-Z0-9._%+-]` */
  predicate IsLocalChar(c: char)
  {
    IsAsciiLetter(c) || IsAsciiDigit(c) || c == '.' || c == '_' || c == '%' || c == '+' || c == '-'
  }

  /** `[a-zA-Z0-9.-]` */
  predicate IsDomainChar(c: char)
  {
    IsAsciiLetter(c) || IsAsciiDigit(c) || c == '.' || c == '-'
  }

  function EmailPattern(): Pattern
  {
    [Plus(IsLocalChar), Lit('@'), Plus(IsDomainChar), Lit('.'), Atom(IsAsciiLetter, 2, Some(3))]
  }

  function EmailAt(s: string, i: nat): Option<nat>
  {
    MatchEnd(EmailPattern(), s, i)
  }

  /** `re.findall(pattern, text)`: the pattern has no group, so the whole matches. */
  function FindEmails(text: string): seq<string>
  {
    Texts(text, FindAll(EmailAt, text, 0))
  }

  const NotFound := "Email-адреса не найдены"

  /** The reply to a text sent in the `find_email` state. */
  function EmailReply(text: string): string
  {
    ListReply(FindEmails(text), NotFound)
  }

  /**
   * w is an address in the pattern's sense, with its '@' at `at` and the
   * last '.' before the top-level domain at `dot`.
   */
  predicate EmailCut(w: string, at: nat, dot: nat)
  {
    && 0 < at && at + 1 < dot && dot + 3 <= |w| <= dot + 4
    && w[at] == '@' && w[dot] == '.'
    && (forall k :: 0 <= k < at ==> IsLocalChar(w[k]))
    && (forall k :: at < k < dot ==> IsDomainChar(w[k]))
    && (forall k :: dot < k < |w| ==> IsAsciiLetter(w[k]))
  }

  ghost predicate IsEmail(w: string)
  {
    exists at: nat, dot: nat :: EmailCut(w, at, dot)
  }

  /** The boundaries of a match and the cut of the matched text are the same thing. */
  lemma {:induction false} FitsIsCut(s: string, i: nat, b: seq<nat>)
    requires i <= |s| && Fits(EmailPattern(), s, i, b)
    ensures b[1] == b[0] + 1 && b[3] == b[2] + 1 && i < b[0] && b[4] <= |s|
    ensures EmailCut(s[i..b[4]], b[0] - i, b[2] - i)
  {
    var p := EmailPattern();
    FitsPieces(p, s, i, b);
    assert PieceFits(p[0], s, i, b[0]);
    assert PieceFits(p[1], s, b[0], b[1]);
    assert PieceFits(p[2], s, b[1], b[2]);
    assert PieceFits(p[3], s, b[2], b[3]);
    assert PieceFits(p[4], s, b[3], b[4]);
  }

  /** A run of characters of one class inside s[i..j], read in s. */
  lemma {:induction false} RunShifts(cls: char -> bool, s: string, i: nat, j: nat, lo: nat, hi: nat)
    requires i <= j <= |s| && lo <= hi <= j - i
    requires forall k :: lo <= k < hi ==> cls(s[i..j][k])
    ensures forall k :: i + lo <= k < i + hi ==> cls(s[k])
  {
    forall k | i + lo <= k < i + hi ensures cls(s[k]) {
      assert s[k] == s[i..j][k - i];
    }
  }

  lemma {:induction false} CutFits(s: string, i: nat, j: nat, at: nat, dot: nat)
    requires i <= j <= |s| && EmailCut(s[i..j], at, dot)
    ensures Fits(EmailPattern(), s, i, [i + at, i + at + 1, i + dot, i + dot + 1, j])
  {
    var p := EmailPattern();
    var b := [i + at, i + at + 1, i + dot, i + dot + 1, j];
    var w := s[i..j];
    RunShifts(IsLocalChar, s, i, j, 0, at);
    RunShifts(IsDomainChar, s, i, j, at + 1, dot);
    RunShifts(IsAsciiLetter, s, i, j, dot + 1, j - i);
    assert s[i + at] == w[at] && s[i + dot] == w[dot];
    assert PieceFits(p[0], s, PieceStart(i, b, 0), b[0]);
    assert PieceFits(p[1], s, PieceStart(i, b, 1), b[1]);
    assert PieceFits(p[2], s, PieceStart(i, b, 2), b[2]);
    assert PieceFits(p[3], s, PieceStart(i, b, 3), b[3]);
    assert PieceFits(p[4], s, PieceStart(i, b, 4), b[4]);
    PiecesFit(p, s, i, b);
  }

  predicate IsAtSign(c: char)
  {
    c == '@'
  }

  /** An address holds exactly one '@', the one at its cut. */
  lemma {:induction false} CutHasOneAt(w: string, at: nat, dot: nat)
    requires EmailCut(w, at, dot)
    ensures forall k :: 0 <= k < |w| ==> (w[k] == '@' <==> k == at)
    ensures CountWhere(IsAtSign, w) == 1
  {
    assert w == w[..at] + [w[at]] + w[at + 1..];
    CountConcat(IsAtSign, w[..at] + [w[at]], w[at + 1..]);
    CountConcat(IsAtSign, w[..at], [w[at]]);
    CountAllOrNone(IsAtSign, w[..at], false);
    CountAllOrNone(IsAtSign, w[at + 1..], false);
    CountAllOrNone(IsAtSign, [w[at]], true);
  }

  /** Every reported item is an address, with exactly one '@'. */
  lemma {:induction false} FoundAreEmails(text: string)
    ensures forall k :: 0 <= k < |FindEmails(text)| ==> IsEmail(FindEmails(text)[k])
    ensures forall k :: 0 <= k < |FindEmails(text)| ==> CountWhere(IsAtSign, FindEmails(text)[k]) == 1
  {
    var r := FindAll(EmailAt, text, 0);
    var items := FindEmails(text);
    forall k | 0 <= k < |items|
      ensures IsEmail(items[k])
      ensures CountWhere(IsAtSign, items[k]) == 1
    {
      var i := r[k].start;
      MatchEndSound(EmailPattern(), text, i);
      var b := Match(EmailPattern(), text, i).value;
      FitsIsCut(text, i, b);
      assert items[k] == text[i..b[4]];
      CutHasOneAt(items[k], b[0] - i, b[2] - i);
    }
  }

  /**
   * Nothing is missed: every address standing in the text starts inside one
   * of the reported matches.
   */
  lemma {:induction false} NoEmailMissed(text: string, i: nat, j: nat)
    requires i <= j <= |text| && IsEmail(text[i..j])
    ensures Covered(FindAll(EmailAt, text, 0), i)
  {
    var at: nat, dot: nat :| EmailCut(text[i..j], at, dot);
    CutFits(text, i, j, at, dot);
    MatchComplete(EmailPattern(), text, i, [i + at, i + at + 1, i + dot, i + dot + 1, j]);
    MatchEndSound(EmailPattern(), text, i);
    FitsIsCut(text, i, Match(EmailPattern(), text, i).value);
    assert Hit(EmailAt, text, i);
    if !Covered(FindAll(EmailAt, text, 0), i) {
      FindAllLeftmost(EmailAt, text, 0, i);
      assert false;
    }
  }

  lemma {:induction false} EmailHasNoNewline(w: string)
    requires IsEmail(w)
    ensures '\n' !in w
  {
    var at: nat, dot: nat :| EmailCut(w, at, dot);
    forall k | 0 <= k < |w| ensures w[k] != '\n' {
      if k < at {
        assert IsLocalChar(w[k]);
      } else if at < k < dot {
        assert IsDomainChar(w[k]);
      } else if dot < k {
        assert IsAsciiLetter(w[k]);
      }
    }
  }

  /** The reply lists the addresses one per line, numbered from 1, or says none were found. */
  lemma {:induction false} EmailReplyIsList(text: string)
    ensures |FindEmails(text)| == 0 ==> EmailReply(text) == NotFound
    ensures |FindEmails(text)| > 0 ==>
      && |Split(EmailReply(text), '\n')| == |FindEmails(text)|
      && forall k :: 0 <= k < |FindEmails(text)| ==>
        Split(EmailReply(text), '\n')[k] == NatToString(k + 1) + ". " + FindEmails(text)[k]
  {
    var items := FindEmails(text);
    if |items| > 0 {
      FoundAreEmails(text);
      forall k | 0 <= k < |items| ensures '\n' !in items[k] {
        EmailHasNoNewline(items[k]);
      }
      ListReplyLines(items, NotFound);
    }
  }

  /**
   * The sample text of emails_regex_test.py, first address: the greedy
   * top-level domain stops after three letters, so the letters glued to it
   * are not part of the address, and the rest of the text holds no '@'.
   */
  lemma {:induction false} SampleCutsTopLevelDomain(s: string)
    requires s == "kolbeev@example.compoiuytrewq"
    ensures FindEmails(s) == ["kolbeev@example.com"]
  {
    SampleShape(s);
    OneAddressThenLetters(s);
  }

  /**
   * A text made of one address of 19 characters with its '.' at 15, followed
   * by letters only, yields exactly that address.
   */
  lemma {:induction false} OneAddressThenLetters(s: string)
    requires |s| == 29 && EmailCut(s[0..19], 7, 15)
    requires forall k :: 16 <= k < |s| ==> IsAsciiLetter(s[k])
    ensures FindEmails(s) == [s[0..19]]
  {
    SampleMatch(s);
    assert EmailAt(s, 0) == Some(19);
    forall q | 19 <= q < |s| ensures !Hit(EmailAt, s, q) {
      SampleNoHitAfter(s, q);
    }
    FindAllNone(EmailAt, s, 19);
    assert FindAll(EmailAt, s, 0) == [Span(0, 19)];
  }

  /** The sample is an address of 19 characters followed by letters only. */
  lemma {:induction false} SampleShape(s: string)
    requires s == "kolbeev@example.compoiuytrewq"
    ensures |s| == 29 && s[0..19] == "kolbeev@example.com"
    ensures EmailCut(s[0..19], 7, 15)
    ensures forall k :: 16 <= k < |s| ==> IsAsciiLetter(s[k])
  {
  }

  /** The match at the start: '@' at 7, '.' at 15, end at 19. */
  lemma {:induction false} SampleMatch(s: string)
    requires |s| == 29 && EmailCut(s[0..19], 7, 15)
    requires forall k :: 16 <= k < |s| ==> IsAsciiLetter(s[k])
    ensures Match(EmailPattern(), s, 0) == Some([7, 8, 15, 16, 19])
  {
    var p := EmailPattern();
    var b: seq<nat> := [7, 8, 15, 16, 19];
    CutFits(s, 0, 19, 7, 15);
    MatchComplete(p, s, 0, b);
    MatchGreatest(p, s, 0, b);
    MatchSound(p, s, 0);
    GreatestSampleCut(s, Match(p, s, 0).value);
  }

  /**
   * The only cut of the sample that is lexicographically at least the one
   * ending at 19 is that one.
   */
  lemma {:induction false} GreatestSampleCut(s: string, m: seq<nat>)
    requires |s| == 29 && EmailCut(s[0..19], 7, 15)
    requires forall k :: 16 <= k < |s| ==> IsAsciiLetter(s[k])
    requires Fits(EmailPattern(), s, 0, m) && |m| == 5 && LexLeq([7, 8, 15, 16, 19], m)
    ensures m == [7, 8, 15, 16, 19]
  {
    FitsIsCut(s, 0, m);
    var b: seq<nat> := [7, 8, 15, 16, 19];
    // Position 7 holds '@', which is no local character, so the local part
    // ends there; after 15 there are only letters, so no later '.'.
    assert s[0..m[4]][7] == s[7] == s[0..19][7];
    assert m[0] == 7;
    assert LexLeq(b[1..], m[1..]) && LexLeq(b[2..], m[2..]);
    assert s[0..m[4]][m[2]] == s[m[2]];
    assert m[2] == 15;
    assert LexLeq(b[3..], m[3..]) && LexLeq(b[4..], m[4..]);
    assert m == [m[0], m[1], m[2], m[3], m[4]];
  }

  lemma {:induction false} SampleNoHitAfter(s: string, q: nat)
    requires 19 <= q < |s| && forall k :: 16 <= k < |s| ==> IsAsciiLetter(s[k])
    ensures !Hit(EmailAt, s, q)
  {
    if Hit(EmailAt, s, q) {
      MatchEndSound(EmailPattern(), s, q);
      var m := Match(EmailPattern(), s, q).value;
      FitsIsCut(s, q, m);
      assert false;
    }
  }
}
