// Installed-package extraction of /get_apt_list (telegram_bot.py:611-623):
// group 1 of every non-overlapping match of `ii\s\s([a-z:.0-9-]+)\s` in the
// `dpkg -l` listing, joined with ", ".

module AptList {
  import opened Strings
  import opened Regex

  /** `[a-z:.0-9-]` */
  predicate IsPackageChar(c: char)
  {
    ('a' <= c <= 'z') || c == ':' || c == '.' || ('0' <= c <= '9') || c == '-'
  }

  function Space(cc: CharClasses): Atom
  {
    Atom(cc.isSpace, 1, Some(1))
  }

  function AptPattern(cc: CharClasses): Pattern
  {
    [Lit('i'), Lit('i'), Space(cc), Space(cc), Plus(IsPackageChar), Space(cc)]
  }

  function AptMatcher(cc: CharClasses): (string, nat) -> Option<nat>
  {
    (s: string, i: nat) => MatchEnd(AptPattern(cc), s, i)
  }

  /**
   * Group 1 of a match from `start` to `end`: the match less the four
   * characters `ii\s\s` before it and the whitespace after it.
   */
  function Group(text: string, sp: Span): string
    requires sp.start + 5 <= sp.end <= |text|
  {
    text[sp.start + 4..sp.end - 1]
  }

  /** Every match spans at least `ii`, two blanks, one name character and a blank. */
  lemma {:induction false} MatchShape(cc: CharClasses, text: string, i: nat)
    requires MatchEnd(AptPattern(cc), text, i).Some?
    ensures var e := MatchEnd(AptPattern(cc), text, i).value;
      && i + 6 <= e <= |text|
      && text[i] == 'i' && text[i + 1] == 'i'
      && cc.isSpace(text[i + 2]) && cc.isSpace(text[i + 3]) && cc.isSpace(text[e - 1])
      && Match(AptPattern(cc), text, i).Some? && |Match(AptPattern(cc), text, i).value| == 6
      && Match(AptPattern(cc), text, i).value[3] == i + 4
      && Match(AptPattern(cc), text, i).value[4] == e - 1
      && forall k :: i + 4 <= k < e - 1 ==> IsPackageChar(text[k])
  {
    var p := AptPattern(cc);
    MatchEndSound(p, text, i);
    var b := Match(p, text, i).value;
    FitsPieces(p, text, i, b);
    assert PieceFits(p[0], text, i, b[0]);
    assert PieceFits(p[1], text, b[0], b[1]);
    assert PieceFits(p[2], text, b[1], b[2]);
    assert PieceFits(p[3], text, b[2], b[3]);
    assert PieceFits(p[4], text, b[3], b[4]);
    assert PieceFits(p[5], text, b[4], b[5]);
  }

  function Names(text: string, r: seq<Span>): seq<string>
    requires forall k :: 0 <= k < |r| ==> r[k].start + 5 <= r[k].end <= |text|
  {
    seq(|r|, k requires 0 <= k < |r| => Group(text, r[k]))
  }

  /** `re.compile(pattern).findall(text)`: the pattern has one group, so its texts. */
  function FindPackages(cc: CharClasses, text: string): seq<string>
  {
    var r := FindAll(AptMatcher(cc), text, 0);
    assert forall k :: 0 <= k < |r| ==> r[k].start + 5 <= r[k].end <= |text| by {
      forall k | 0 <= k < |r| ensures r[k].start + 5 <= r[k].end <= |text| {
        MatchShape(cc, text, r[k].start);
      }
    }
    Names(text, r)
  }

  /** The message text `', '.join(names)`. */
  function AptReply(cc: CharClasses, text: string): string
  {
    Join(", ", FindPackages(cc, text))
  }

  /**
   * `name` is a non-empty run of package characters that in the listing
   * stands at i after `ii` and two blanks and before a blank.
   */
  predicate StandsAsName(cc: CharClasses, text: string, i: nat, name: string)
  {
    && |name| > 0 && (forall j :: 0 <= j < |name| ==> IsPackageChar(name[j]))
    && i + 4 + |name| < |text|
    && text[i..i + 2] == "ii" && cc.isSpace(text[i + 2]) && cc.isSpace(text[i + 3])
    && text[i + 4..i + 4 + |name|] == name && cc.isSpace(text[i + 4 + |name|])
  }

  lemma {:induction false} GroupStandsAsName(cc: CharClasses, text: string, sp: Span)
    requires MatchEnd(AptPattern(cc), text, sp.start) == Some(sp.end)
    ensures sp.start + 5 <= sp.end <= |text|
    ensures StandsAsName(cc, text, sp.start, Group(text, sp))
  {
    MatchShape(cc, text, sp.start);
    assert text[sp.start..sp.start + 2] == ['i', 'i'];
    var name := Group(text, sp);
    assert forall j :: 0 <= j < |name| ==> name[j] == text[sp.start + 4 + j];

  }

  /** Each name is group 1 of the match it comes from, in the order of the matches. */
  lemma {:induction false} NamesAreGroups(cc: CharClasses, text: string)
    ensures var r := FindAll(AptMatcher(cc), text, 0);
      && |FindPackages(cc, text)| == |r|
      && forall k :: 0 <= k < |r| ==> StandsAsName(cc, text, r[k].start, FindPackages(cc, text)[k])
  {
    var r := FindAll(AptMatcher(cc), text, 0);
    forall k | 0 <= k < |r| ensures StandsAsName(cc, text, r[k].start, FindPackages(cc, text)[k]) {
      GroupStandsAsName(cc, text, r[k]);
    }
  }

  /**
   * Nothing is missed: wherever the listing holds `ii`, two blanks, a name
   * and a blank, that position lies inside a reported match.
   */
  lemma {:induction false} NoPackageMissed(cc: CharClasses, text: string, i: nat, name: string)
    requires StandsAsName(cc, text, i, name)
    ensures Covered(FindAll(AptMatcher(cc), text, 0), i)
  {
    var p := AptPattern(cc);
    var n := |name|;
    assert text[i] == text[i..i + 2][0] && text[i + 1] == text[i..i + 2][1];
    assert forall k :: i + 4 <= k < i + 4 + n ==> text[k] == name[k - i - 4];
    var b := [i + 1, i + 2, i + 3, i + 4, i + 4 + n, i + 5 + n];
    assert PieceFits(p[0], text, PieceStart(i, b, 0), b[0]);
    assert PieceFits(p[1], text, PieceStart(i, b, 1), b[1]);
    assert PieceFits(p[2], text, PieceStart(i, b, 2), b[2]);
    assert PieceFits(p[3], text, PieceStart(i, b, 3), b[3]);
    assert PieceFits(p[4], text, PieceStart(i, b, 4), b[4]);
    assert PieceFits(p[5], text, PieceStart(i, b, 5), b[5]);
    PiecesFit(p, text, i, b);
    MatchComplete(p, text, i, b);
    MatchShape(cc, text, i);
    assert Hit(AptMatcher(cc), text, i);
    if !Covered(FindAll(AptMatcher(cc), text, 0), i) {
      FindAllLeftmost(AptMatcher(cc), text, 0, i);
      assert false;
    }
  }

  /** The names with a blank before each but the first: the reply cut at its commas. */
  function AfterCommas(names: seq<string>): (r: seq<string>)
    ensures |r| == |names|
  {
    seq(|names|, k requires 0 <= k < |names| => if k == 0 then names[0] else " " + names[k])
  }

  lemma {:induction false} JoinCommaSpace(names: seq<string>)
    ensures Join(", ", names) == Join(",", AfterCommas(names))
    decreases |names|
  {
    if |names| > 1 {
      JoinCommaSpace(names[1..]);
      var a := AfterCommas(names);
      var t := AfterCommas(names[1..]);
      assert a[1..] == [" " + names[1]] + t[1..];
      if |names| == 2 {
        assert Join(",", a[1..]) == " " + names[1];
      } else {
        assert Join(",", a[1..]) == " " + names[1] + "," + Join(",", t[1..]);
        assert Join(",", t) == names[1] + "," + Join(",", t[1..]);
      }
    }
  }

  /** Cutting a non-empty reply at its commas gives the names back, each after a blank but the first. */
  lemma {:induction false} ReplySplitsIntoNames(cc: CharClasses, text: string)
    requires |FindPackages(cc, text)| > 0
    ensures Split(AptReply(cc, text), ',') == AfterCommas(FindPackages(cc, text))
  {
    var names := FindPackages(cc, text);
    NamesAreGroups(cc, text);
    JoinCommaSpace(names);
    var a := AfterCommas(names);
    forall k | 0 <= k < |a| ensures ',' !in a[k] {
      assert StandsAsName(cc, text, FindAll(AptMatcher(cc), text, 0)[k].start, names[k]);
      assert forall j :: 0 <= j < |names[k]| ==> names[k][j] != ',';
      if k > 0 {
        assert a[k] == " " + names[k];
      }
    }
    SplitJoin(a, ',');
    assert Join(",", a) == Join([','], a);
  }
}
