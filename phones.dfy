// Phone number extraction of the bot (telegram_bot.py:412-441): every
// non-overlapping match of
//   (\+7|8)(\s?[(-]?\d{3}[)-]?\s?\d{3}-?\s?\d{2}-?\s?\d{2})
// left to right; each finding is group 1 followed by group 2. The two groups
// are adjacent and together span the whole match, so a finding is exactly the
// matched text.

module Phones {
  import opened Strings
  import opened Regex
  import opened Listing

  /** `[(-]` */
  predicate IsOpening(c: char)
  {
    c == '(' || c == '-'
  }

  /** `[)-]` */
  predicate IsClosing(c: char)
  {
    c == ')' || c == '-'
  }

  predicate IsDash(c: char)
  {
    c == '-'
  }

  /** `\d{n}` */
  function Digits(cc: CharClasses, n: nat): Atom
  {
    Atom(cc.isDigit, n, Some(n))
  }

  /** Group 2: the ten digits with their optional separators. */
  function Body(cc: CharClasses): Pattern
  {
    [ Opt(cc.isSpace), Opt(IsOpening), Digits(cc, 3), Opt(IsClosing), Opt(cc.isSpace), Digits(cc, 3),
      Opt(IsDash), Opt(cc.isSpace), Digits(cc, 2), Opt(IsDash), Opt(cc.isSpace), Digits(cc, 2) ]
  }

  /** Which atoms of the body are digit runs. */
  const DigitAtoms := [false, false, true, false, false, true, false, false, true, false, false, true]

  /**
   * Where a match starting at i ends. Group 1 tries `+7` first; when the body
   * fails after it, the alternative `8` cannot match at a '+', so there is no
   * match at i.
   */
  function PhoneAt(cc: CharClasses, s: string, i: nat): Option<nat>
  {
    if i + 2 <= |s| && s[i] == '+' && s[i + 1] == '7' then MatchEnd(Body(cc), s, i + 2)
    else if i < |s| && s[i] == '8' then MatchEnd(Body(cc), s, i + 1)
    else None
  }

  function PhoneMatcher(cc: CharClasses): (string, nat) -> Option<nat>
  {
    (s: string, i: nat) => PhoneAt(cc, s, i)
  }

  /** `[g1 + g2 for g1, g2 in re.findall(pattern, text)]` */
  function FindPhones(cc: CharClasses, text: string): seq<string>
  {
    Texts(text, FindAll(PhoneMatcher(cc), text, 0))
  }

  const NotFound := "Телефонные номера не найдены"

  /** The reply to a text sent in the `find_phone_number` state. */
  function PhoneReply(cc: CharClasses, text: string): string
  {
    ListReply(FindPhones(cc, text), NotFound)
  }

  /** A separator the body may hold between digits: whitespace, a parenthesis or a dash. */
  predicate IsSeparator(cc: CharClasses, c: char)
  {
    cc.isSpace(c) || c == '(' || c == ')' || c == '-'
  }

  /**
   * A number body as the pattern promises it: exactly ten digits, nothing
   * but digits and separators, and a digit last.
   */
  predicate TenDigits(cc: CharClasses, body: string)
  {
    && CountWhere(cc.isDigit, body) == 10
    && (forall k :: 0 <= k < |body| ==> cc.isDigit(body[k]) || IsSeparator(cc, body[k]))
    && |body| > 0 && cc.isDigit(body[|body| - 1])
  }

  /** A reported number: `+7` or `8`, then a ten-digit body. */
  predicate IsPhone(cc: CharClasses, w: string)
  {
    || (|w| >= 2 && w[..2] == "+7" && TenDigits(cc, w[2..]))
    || (|w| >= 1 && w[0] == '8' && TenDigits(cc, w[1..]))
  }

  /** Each atom of the body is a fixed digit run or takes no digit at all. */
  lemma {:induction false} BodyDigitAtoms(cc: CharClasses)
    requires Sound(cc)
    ensures forall k :: 0 <= k < |Body(cc)| ==>
      if DigitAtoms[k] then CountsExactly(cc.isDigit, Body(cc)[k]) else Avoids(cc.isDigit, Body(cc)[k])
  {
    var p := Body(cc);
    assert !cc.isDigit('(') && !cc.isDigit(')') && !cc.isDigit('-');
    assert Avoids(cc.isDigit, Opt(cc.isSpace));
    assert Avoids(cc.isDigit, Opt(IsOpening));
    assert Avoids(cc.isDigit, Opt(IsClosing));
    assert Avoids(cc.isDigit, Opt(IsDash));
    assert CountsExactly(cc.isDigit, Digits(cc, 3)) && CountsExactly(cc.isDigit, Digits(cc, 2));
  }

  lemma {:induction false} BodyWeight(cc: CharClasses)
    ensures Weight(Body(cc), DigitAtoms) == 10
  {
    var p := Body(cc);
    var m := DigitAtoms;
    assert Weight(p[12..], m[12..]) == 0;
    assert Weight(p[11..], m[11..]) == 2;
    assert Weight(p[10..], m[10..]) == 2;
    assert Weight(p[9..], m[9..]) == 2;
    assert Weight(p[8..], m[8..]) == 4;
    assert Weight(p[7..], m[7..]) == 4;
    assert Weight(p[6..], m[6..]) == 4;
    assert Weight(p[5..], m[5..]) == 7;
    assert Weight(p[4..], m[4..]) == 7;
    assert Weight(p[3..], m[3..]) == 7;
    assert Weight(p[2..], m[2..]) == 10;
    assert Weight(p[1..], m[1..]) == 10;
    assert p[0..] == p && m[0..] == m;
  }

  /** Every atom of the body takes digits or separators only. */
  lemma {:induction false} BodyClasses(cc: CharClasses)
    ensures forall k :: 0 <= k < |Body(cc)| ==>
      forall c :: Body(cc)[k].cls(c) ==> cc.isDigit(c) || IsSeparator(cc, c)
  {
  }

  /** Every text the body pattern fits holds ten digits among separators. */
  lemma {:induction false} BodyHasTenDigits(cc: CharClasses, s: string, i: nat, b: seq<nat>)
    requires Sound(cc) && i <= |s| && Fits(Body(cc), s, i, b)
    ensures i < End(i, b) <= |s|
    ensures TenDigits(cc, s[i..End(i, b)])
  {
    var p := Body(cc);
    var e := End(i, b);
    BodyDigitAtoms(cc);
    CountInFits(cc.isDigit, p, s, i, b, DigitAtoms);
    BodyWeight(cc);
    BodyClasses(cc);
    AllInFits(c => cc.isDigit(c) || IsSeparator(cc, c), p, s, i, b);
    FitsPieces(p, s, i, b);
    assert PieceFits(p[11], s, b[10], b[11]);
    assert e == b[11] && b[10] + 2 <= e;
    assert s[i..e][e - 1 - i] == s[e - 1];
  }

  /** A match at i is `+7` or `8` followed by ten digits among separators. */
  lemma {:induction false} MatchIsPhone(cc: CharClasses, text: string, i: nat)
    requires Sound(cc) && PhoneAt(cc, text, i).Some?
    ensures i < PhoneAt(cc, text, i).value <= |text|
    ensures IsPhone(cc, text[i..PhoneAt(cc, text, i).value])
  {
    var e := PhoneAt(cc, text, i).value;
    if i + 2 <= |text| && text[i] == '+' && text[i + 1] == '7' {
      MatchEndSound(Body(cc), text, i + 2);
      BodyHasTenDigits(cc, text, i + 2, Match(Body(cc), text, i + 2).value);
      var w := text[i..e];
      assert w[..2] == "+7" && w[2..] == text[i + 2..e];
    } else {
      MatchEndSound(Body(cc), text, i + 1);
      BodyHasTenDigits(cc, text, i + 1, Match(Body(cc), text, i + 1).value);
      var w := text[i..e];
      assert w[0] == '8' && w[1..] == text[i + 1..e];
    }
  }

  /** Every reported number is `+7` or `8` followed by ten digits among separators. */
  lemma {:induction false} FoundArePhones(cc: CharClasses, text: string)
    requires Sound(cc)
    ensures forall k :: 0 <= k < |FindPhones(cc, text)| ==> IsPhone(cc, FindPhones(cc, text)[k])
  {
    var r := FindAll(PhoneMatcher(cc), text, 0);
    var items := FindPhones(cc, text);
    forall k | 0 <= k < |items| ensures IsPhone(cc, items[k]) {
      MatchIsPhone(cc, text, r[k].start);
    }
  }

  /**
   * Nothing is missed: wherever `+7` or `8` is followed by a text the body
   * pattern fits, that position lies inside a reported number.
   */
  lemma {:induction false} NoPhoneMissed(cc: CharClasses, text: string, i: nat, b: seq<nat>)
    requires Sound(cc)
    requires || (i + 2 <= |text| && text[i..i + 2] == "+7" && Fits(Body(cc), text, i + 2, b))
             || (i < |text| && text[i] == '8' && Fits(Body(cc), text, i + 1, b))
    ensures Covered(FindAll(PhoneMatcher(cc), text, 0), i)
  {
    var j := if i + 2 <= |text| && text[i] == '+' && text[i + 1] == '7' then i + 2 else i + 1;
    assert text[i] == '+' ==> text[i..i + 2][0] == '+' && text[i..i + 2][1] == '7';
    MatchComplete(Body(cc), text, j, b);
    MatchEndSound(Body(cc), text, j);
    BodyHasTenDigits(cc, text, j, Match(Body(cc), text, j).value);
    assert Hit(PhoneMatcher(cc), text, i);
    if !Covered(FindAll(PhoneMatcher(cc), text, 0), i) {
      FindAllLeftmost(PhoneMatcher(cc), text, 0, i);
      assert false;
    }
  }

  /**
   * The reply lists the numbers one per line, numbered from 1, or says none
   * were found. `\s` also matches a newline, so a number may span lines; the
   * line-per-number reading holds when none does.
   */
  lemma {:induction false} PhoneReplyIsList(cc: CharClasses, text: string)
    requires forall k :: 0 <= k < |FindPhones(cc, text)| ==> '\n' !in FindPhones(cc, text)[k]
    ensures |FindPhones(cc, text)| == 0 ==> PhoneReply(cc, text) == NotFound
    ensures |FindPhones(cc, text)| > 0 ==>
      && |Split(PhoneReply(cc, text), '\n')| == |FindPhones(cc, text)|
      && forall k :: 0 <= k < |FindPhones(cc, text)| ==>
        Split(PhoneReply(cc, text), '\n')[k] == NatToString(k + 1) + ". " + FindPhones(cc, text)[k]
  {
    var items := FindPhones(cc, text);
    if |items| > 0 {
      ListReplyLines(items, NotFound);
    }
  }
}
