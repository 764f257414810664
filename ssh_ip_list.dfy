// The SSH login summary of task-1-3/get_ssh_ip_list.py. `check_ip_via_ssh`
// reads the saved `journalctl | grep sshd` output line by line, matches each
// stripped line against
//   ^(MONTH)\s(DAY)\s([0-9:]+)\s.*\sfor\s([a-z0-9-_]+)\sfrom\s([0-9:.]+)\sport\s([0-9]+)\s
// collects the six groups of every matching line in a set, and writes the
// set sorted by (day, time), one `month-day-time, user@ip:port` line each.
// The month and day come from the clock; here they are parameters.

module SshIpList {
  import opened Strings
  import opened Regex
  import D = DataPreparation
  import RemoteOutput

  /**
   * `create_journalctl_file` saves stdout followed by stderr through the
   * same expression the bot uses to read a host's output (line 42 there,
   * `getStrHostInfo` in the bot).
   */
  function JournalText(stdout: seq<RemoteOutput.byte>, stderr: seq<RemoteOutput.byte>): string
  {
    RemoteOutput.HostText(stdout + stderr)
  }

  // ---------------------------------------------------------------------
  // The pattern
  // ---------------------------------------------------------------------

  /** `[0-9:]` */
  predicate IsTimeChar(c: char) { IsAsciiDigit(c) || c == ':' }

  /** `[a-z0-9-_]` */
  predicate IsUserChar(c: char) { ('a' <= c <= 'z') || IsAsciiDigit(c) || c == '-' || c == '_' }

  /** `[0-9:.]` */
  predicate IsIpChar(c: char) { IsAsciiDigit(c) || c == ':' || c == '.' }

  /** `.`: anything but a newline. */
  predicate NotNewline(c: char) { c != '\n' }

  /**
   * A piece of the pattern: one `\s`, a literal text, or a group `[...]+`
   * together with the `\s` that follows it (in this pattern every group is
   * followed by one). A group whose class holds no whitespace can only end
   * where its run of characters ends: backtracking into it never helps.
   */
  datatype Token = Ws | Text(w: string) | Group(cls: char -> bool)

  /** `^(MONTH)\s(DAY)\s([0-9:]+)\s`, with the day written as `str(dt.day)`. */
  function Head(month: string, day: nat): seq<Token>
  {
    [Text(month), Ws, Text(NatToString(day)), Ws, Group(IsTimeChar)]
  }

  /** `\sfor\s([a-z0-9-_]+)\sfrom\s([0-9:.]+)\sport\s([0-9]+)\s` */
  function Tail(): seq<Token>
  {
    [Ws, Text("for"), Ws, Group(IsUserChar), Text("from"), Ws, Group(IsIpChar),
     Text("port"), Ws, Group(IsAsciiDigit)]
  }

  /** Matching tokens from i: the groups' texts and where the match ends. */
  function MatchTokens(cc: CharClasses, ts: seq<Token>, s: string, i: nat): (r: Option<(seq<string>, nat)>)
    ensures r.Some? ==> i <= r.value.1 <= |s|
    decreases |ts|
  {
    if i > |s| then None
    else if |ts| == 0 then Some(([], i))
    else match ts[0]
      case Ws => if i < |s| && cc.isSpace(s[i]) then MatchTokens(cc, ts[1..], s, i + 1) else None
      case Text(w) => if i + |w| <= |s| && s[i..i + |w|] == w then MatchTokens(cc, ts[1..], s, i + |w|) else None
      case Group(f) =>
        var n := Run(f, s, i, |s| - i);
        if n == 0 || i + n == |s| || !cc.isSpace(s[i + n]) then None
        else match MatchTokens(cc, ts[1..], s, i + n + 1)
          case Some((gs, j)) => Some(([s[i..i + n]] + gs, j))
          case None => None
  }

  /**
   * The declarative reading: s[i..j] is the tokens spelled out, each `\s`
   * one whitespace character, each text itself, each group a non-empty
   * run of its class and a whitespace, and gs the groups' texts.
   */
  predicate TokensFit(cc: CharClasses, ts: seq<Token>, s: string, i: nat, gs: seq<string>, j: nat)
    decreases |ts|
  {
    if |ts| == 0 then gs == [] && j == i && i <= |s|
    else match ts[0]
      case Ws => i < |s| && cc.isSpace(s[i]) && TokensFit(cc, ts[1..], s, i + 1, gs, j)
      case Text(w) => i + |w| <= |s| && s[i..i + |w|] == w && TokensFit(cc, ts[1..], s, i + |w|, gs, j)
      case Group(f) =>
        && |gs| > 0 && |gs[0]| > 0 && i + |gs[0]| < |s| && s[i..i + |gs[0]|] == gs[0]
        && (forall k :: 0 <= k < |gs[0]| ==> f(gs[0][k]))
        && cc.isSpace(s[i + |gs[0]|])
        && TokensFit(cc, ts[1..], s, i + |gs[0]| + 1, gs[1..], j)
  }

  /** No group's class holds whitespace. */
  ghost predicate Possessive(cc: CharClasses, ts: seq<Token>)
  {
    forall k :: 0 <= k < |ts| && ts[k].Group? ==> forall c :: ts[k].cls(c) ==> !cc.isSpace(c)
  }

  /** Where every group is possessive, the matcher finds exactly the declarative fits. */
  lemma {:induction false} TokensAgree(cc: CharClasses, ts: seq<Token>, s: string, i: nat, gs: seq<string>, j: nat)
    requires Possessive(cc, ts)
    ensures MatchTokens(cc, ts, s, i) == Some((gs, j)) <==> TokensFit(cc, ts, s, i, gs, j)
    decreases |ts|
  {
    if |ts| > 0 {
      assert Possessive(cc, ts[1..]) by {
        forall k | 0 <= k < |ts[1..]| && ts[1..][k].Group?
          ensures forall c :: ts[1..][k].cls(c) ==> !cc.isSpace(c)
        {
          assert ts[1..][k] == ts[k + 1];
        }
      }
      match ts[0]
      case Ws =>
        TokensAgree(cc, ts[1..], s, i + 1, gs, j);
      case Text(w) =>
        TokensAgree(cc, ts[1..], s, i + |w|, gs, j);
      case Group(f) =>
        if MatchTokens(cc, ts, s, i) == Some((gs, j)) {
          GroupMatchFits(cc, ts, s, i, gs, j);
        }
        if TokensFit(cc, ts, s, i, gs, j) {
          GroupFitMatches(cc, ts, s, i, gs, j);
        }
    }
  }

  /** The matcher's group is a maximal run followed by a whitespace: one way to spell the group out. */
  lemma {:induction false} GroupMatchFits(cc: CharClasses, ts: seq<Token>, s: string, i: nat, gs: seq<string>, j: nat)
    requires |ts| > 0 && ts[0].Group?
    requires Possessive(cc, ts[1..])
    requires MatchTokens(cc, ts, s, i) == Some((gs, j))
    ensures TokensFit(cc, ts, s, i, gs, j)
    decreases |ts|, 0
  {
    var f := ts[0].cls;
    var n := Run(f, s, i, |s| - i);
    assert n > 0 && i + n < |s| && cc.isSpace(s[i + n]);
    assert MatchTokens(cc, ts[1..], s, i + n + 1) == Some((gs[1..], j)) && gs[0] == s[i..i + n];
    TokensAgree(cc, ts[1..], s, i + n + 1, gs[1..], j);
    assert forall k :: 0 <= k < |gs[0]| ==> f(gs[0][k]) by {
      forall k | 0 <= k < |gs[0]| ensures f(gs[0][k]) {
        assert gs[0][k] == s[i + k];
      }
    }
  }

  /**
   * A spelled-out group is followed by a whitespace its class excludes, so
   * it is the whole run: the matcher takes the same group.
   */
  lemma {:induction false} GroupFitMatches(cc: CharClasses, ts: seq<Token>, s: string, i: nat, gs: seq<string>, j: nat)
    requires |ts| > 0 && ts[0].Group?
    requires Possessive(cc, ts) && Possessive(cc, ts[1..])
    requires TokensFit(cc, ts, s, i, gs, j)
    ensures MatchTokens(cc, ts, s, i) == Some((gs, j))
    decreases |ts|, 0
  {
    var f := ts[0].cls;
    var m := |gs[0]|;
    var n := Run(f, s, i, |s| - i);
    assert n == m by {
      assert forall k :: i <= k < i + m ==> f(s[k]) by {
        forall k | i <= k < i + m ensures f(s[k]) {
          assert s[k] == gs[0][k - i];
        }
      }
      RunIsMaximal(f, s, i, |s| - i, m);
      assert !f(s[i + m]) by {
        assert forall c :: ts[0].cls(c) ==> !cc.isSpace(c);
      }
    }
    TokensAgree(cc, ts[1..], s, i + m + 1, gs[1..], j);
    assert gs == [s[i..i + n]] + gs[1..];
  }

  /** The ASCII classes of the pattern hold no whitespace, so both parts of the pattern are possessive. */
  lemma {:induction false} PatternPossessive(cc: CharClasses, month: string, day: nat)
    requires Sound(cc)
    ensures Possessive(cc, Head(month, day)) && Possessive(cc, Tail())
  {
    forall c | IsTimeChar(c) || IsUserChar(c) || IsIpChar(c) || IsAsciiDigit(c)
      ensures !cc.isSpace(c)
    {
      assert c < '\U{80}';
    }
  }

  /** No group's class admits c. */
  ghost predicate Avoids(ts: seq<Token>, c: char)
  {
    forall k :: 0 <= k < |ts| && ts[k].Group? ==> !ts[k].cls(c)
  }

  /** A character no group's class admits appears in no group's text. */
  lemma {:induction false} GroupsAvoid(cc: CharClasses, ts: seq<Token>, s: string, i: nat, c: char)
    requires Avoids(ts, c)
    ensures MatchTokens(cc, ts, s, i).Some? ==>
      forall k :: 0 <= k < |MatchTokens(cc, ts, s, i).value.0| ==> c !in MatchTokens(cc, ts, s, i).value.0[k]
    decreases |ts|
  {
    if i <= |s| && |ts| > 0 && MatchTokens(cc, ts, s, i).Some? {
      assert Avoids(ts[1..], c) by {
        assert forall k :: 0 <= k < |ts[1..]| ==> ts[1..][k] == ts[k + 1];
      }
      if ts[0].Group? {
        var n := Run(ts[0].cls, s, i, |s| - i);
        GroupsAvoid(cc, ts[1..], s, i + n + 1, c);
        var rest := MatchTokens(cc, ts[1..], s, i + n + 1).value.0;
        assert MatchTokens(cc, ts, s, i).value.0 == [s[i..i + n]] + rest;
        assert !ts[0].cls(c);
      } else {
        var i' := if ts[0].Ws? then i + 1 else i + |ts[0].w|;
        assert MatchTokens(cc, ts, s, i) == MatchTokens(cc, ts[1..], s, i');
        GroupsAvoid(cc, ts[1..], s, i', c);
      }
    }
  }

  /** Every character of w is in the class f. */
  predicate AllIn(f: char -> bool, w: string)
  {
    forall k :: 0 <= k < |w| ==> f(w[k])
  }

  /** A pattern ending in a group: the last text found is a run of that group's class. */
  lemma {:induction false} LastGroupIn(cc: CharClasses, ts: seq<Token>, s: string, i: nat, f: char -> bool)
    requires |ts| > 0 && ts[|ts| - 1] == Group(f)
    ensures var r := MatchTokens(cc, ts, s, i);
      r.Some? ==> |r.value.0| > 0 && AllIn(f, r.value.0[|r.value.0| - 1])
    decreases |ts|
  {
    if i <= |s| && MatchTokens(cc, ts, s, i).Some? {
      if ts[0].Group? {
        LastGroupAfterGroup(cc, ts, s, i, f);
      } else {
        var i' := if ts[0].Ws? then i + 1 else i + |ts[0].w|;
        assert MatchTokens(cc, ts, s, i) == MatchTokens(cc, ts[1..], s, i');
        assert ts[1..][|ts[1..]| - 1] == ts[|ts| - 1];
        LastGroupIn(cc, ts[1..], s, i', f);
      }
    }
  }

  lemma {:induction false} LastGroupAfterGroup(cc: CharClasses, ts: seq<Token>, s: string, i: nat, f: char -> bool)
    requires |ts| > 0 && ts[|ts| - 1] == Group(f) && ts[0].Group?
    requires MatchTokens(cc, ts, s, i).Some?
    ensures var r := MatchTokens(cc, ts, s, i);
      |r.value.0| > 0 && AllIn(f, r.value.0[|r.value.0| - 1])
    decreases |ts|, 0
  {
    var n := Run(ts[0].cls, s, i, |s| - i);
    var rest := MatchTokens(cc, ts[1..], s, i + n + 1).value.0;
    assert MatchTokens(cc, ts, s, i).value.0 == [s[i..i + n]] + rest;
    if |ts| > 1 {
      assert ts[1..][|ts[1..]| - 1] == ts[|ts| - 1];
      LastGroupIn(cc, ts[1..], s, i + n + 1, f);
      assert ([s[i..i + n]] + rest)[|rest|] == rest[|rest| - 1];
    } else {
      assert AllIn(f, s[i..i + n]);
    }
  }



  // ---------------------------------------------------------------------
  // One line
  // ---------------------------------------------------------------------

  /**
   * The greedy `.*` tries its longest piece first: the tail is tried at e,
   * e - 1, ..., lo, and the first place where it matches is taken.
   */
  function LastMatch(cc: CharClasses, tl: seq<Token>, s: string, lo: nat, e: nat): (r: Option<nat>)
    requires lo <= e
    ensures r.Some? ==> lo <= r.value <= e
    decreases e - lo
  {
    if MatchTokens(cc, tl, s, e).Some? then Some(e)
    else if e == lo then None
    else LastMatch(cc, tl, s, lo, e - 1)
  }

  /** LastMatch finds the last place in lo..e where the tail matches, and None where there is none. */
  lemma {:induction false} LastMatchIsLast(cc: CharClasses, tl: seq<Token>, s: string, lo: nat, e: nat)
    requires lo <= e
    ensures var r := LastMatch(cc, tl, s, lo, e);
      && (r.Some? ==> MatchTokens(cc, tl, s, r.value).Some?)
      && (r.Some? ==> forall k :: r.value < k <= e ==> MatchTokens(cc, tl, s, k).None?)
      && (r.None? ==> forall k :: lo <= k <= e ==> MatchTokens(cc, tl, s, k).None?)
    decreases e - lo
  {
    if MatchTokens(cc, tl, s, e).Some? {
      assert LastMatch(cc, tl, s, lo, e) == Some(e);
    } else if e == lo {
      assert LastMatch(cc, tl, s, lo, e) == None;
    } else {
      LastMatchIsLast(cc, tl, s, lo, e - 1);
      assert LastMatch(cc, tl, s, lo, e) == LastMatch(cc, tl, s, lo, e - 1);
    }
  }

  /** Where the greedy `.*` from p can reach at the most: the end of the line. */
  function DotEnd(s: string, p: nat): (e: nat)
    requires p <= |s|
    ensures p <= e <= |s|
    ensures NoNewline(s, p, e)
  {
    p + Run(NotNewline, s, p, |s| - p)
  }

  /**
   * A successful search: the head's groups and where the head ended, and
   * where the tail began, its groups and where it ended.
   */
  datatype Hit = Hit(head: seq<string>, headEnd: nat, tailStart: nat, tail: seq<string>, tailEnd: nat)

  /**
   * `re.search` for `^` head `.*` tail: the groups of the head and of the
   * tail, where the `.*` between them (no newline) is as long as the tail
   * allows.
   */
  function Search(cc: CharClasses, hd: seq<Token>, tl: seq<Token>, s: string): (r: Option<Hit>)
    ensures r.Some? ==>
      && r.value.headEnd <= |s|
      && MatchTokens(cc, hd, s, 0) == Some((r.value.head, r.value.headEnd))
      && LastMatch(cc, tl, s, r.value.headEnd, DotEnd(s, r.value.headEnd))
         == Some(r.value.tailStart)
      && MatchTokens(cc, tl, s, r.value.tailStart) == Some((r.value.tail, r.value.tailEnd))
    ensures r.None? ==>
      || MatchTokens(cc, hd, s, 0).None?
      || LastMatch(cc, tl, s, MatchTokens(cc, hd, s, 0).value.1,
           DotEnd(s, MatchTokens(cc, hd, s, 0).value.1))
         .None?
  {
    var m := MatchTokens(cc, hd, s, 0);
    if m.None? then None
    else
      var p := m.value.1;
      var e := LastMatch(cc, tl, s, p, DotEnd(s, p));
      if e.None? then None
      else
        LastMatchIsLast(cc, tl, s, p, DotEnd(s, p));
        var t := MatchTokens(cc, tl, s, e.value).value;
        Some(Hit(m.value.0, p, e.value, t.0, t.1))
  }

  /** No newline between a and b. */
  predicate NoNewline(s: string, a: nat, b: nat)
  {
    forall k :: a <= k < b && k < |s| ==> s[k] != '\n'
  }

  /**
   * The declarative reading of a search with groups g and h: the head fits
   * from the start of the line up to p; the tail fits from some e at or
   * after p with no newline in between; and the tail fits nowhere further
   * on before a newline, since `.*` is greedy.
   */
  ghost predicate Found(cc: CharClasses, hd: seq<Token>, tl: seq<Token>, s: string, g: seq<string>, h: seq<string>)
  {
    exists p: nat, e: nat, j: nat ::
      && TokensFit(cc, hd, s, 0, g, p)
      && p <= e <= |s| && NoNewline(s, p, e)
      && TokensFit(cc, tl, s, e, h, j)
      && forall e2: nat, gs: seq<string>, j2: nat ::
           e < e2 <= |s| && NoNewline(s, p, e2) ==> !TokensFit(cc, tl, s, e2, gs, j2)
  }

  /** The search finds exactly the declarative match. */
  lemma {:induction false} SearchMeaning(cc: CharClasses, hd: seq<Token>, tl: seq<Token>, s: string, g: seq<string>, h: seq<string>)
    requires Possessive(cc, hd) && Possessive(cc, tl)
    ensures (var r := Search(cc, hd, tl, s); r.Some? && r.value.head == g && r.value.tail == h) <==>
            Found(cc, hd, tl, s, g, h)
  {
    var r := Search(cc, hd, tl, s);
    if r.Some? && r.value.head == g && r.value.tail == h {
      SearchFound(cc, hd, tl, s, g, r.value.headEnd, r.value.tailStart, h, r.value.tailEnd);
    }
    if Found(cc, hd, tl, s, g, h) {
      var p: nat, e: nat, j: nat :|
        && TokensFit(cc, hd, s, 0, g, p)
        && p <= e <= |s| && NoNewline(s, p, e)
        && TokensFit(cc, tl, s, e, h, j)
        && forall e2: nat, gs: seq<string>, j2: nat ::
             e < e2 <= |s| && NoNewline(s, p, e2) ==> !TokensFit(cc, tl, s, e2, gs, j2);
      SearchOfFit(cc, hd, tl, s, g, h, p, e, j);
    }
  }

  lemma {:induction false} SearchFound(cc: CharClasses, hd: seq<Token>, tl: seq<Token>, s: string, g: seq<string>, p: nat, e: nat,
                    h: seq<string>, j: nat)
    requires Possessive(cc, hd) && Possessive(cc, tl)
    requires p <= |s| && MatchTokens(cc, hd, s, 0) == Some((g, p))
    requires LastMatch(cc, tl, s, p, DotEnd(s, p)) == Some(e)
    requires MatchTokens(cc, tl, s, e) == Some((h, j))
    ensures Found(cc, hd, tl, s, g, h)
  {
    TokensAgree(cc, hd, s, 0, g, p);
    TokensAgree(cc, tl, s, e, h, j);
    RunNoNewline(s, p);
    NoLaterFit(cc, tl, s, p, e);
    FoundOf(cc, hd, tl, s, g, h, p, e, j);
  }

  /** The tail found by LastMatch fits nowhere further on before a newline. */
  lemma {:induction false} NoLaterFit(cc: CharClasses, tl: seq<Token>, s: string, p: nat, e: nat)
    requires Possessive(cc, tl) && p <= |s|
    requires LastMatch(cc, tl, s, p, DotEnd(s, p)) == Some(e)
    ensures forall e2: nat, gs: seq<string>, j2: nat ::
              e < e2 <= |s| && NoNewline(s, p, e2) ==> !TokensFit(cc, tl, s, e2, gs, j2)
  {
    RunNoNewline(s, p);
    LastMatchIsLast(cc, tl, s, p, DotEnd(s, p));
    forall k: nat | e < k <= |s| && NoNewline(s, p, k)
      ensures MatchTokens(cc, tl, s, k).None?
    {
      assert k <= DotEnd(s, p);
    }
    LaterMatchesAreFits(cc, tl, s, p, e);
  }

  /** The witnesses of a declarative match. */
  lemma {:induction false} FoundOf(cc: CharClasses, hd: seq<Token>, tl: seq<Token>, s: string, g: seq<string>, h: seq<string>,
                p: nat, e: nat, j: nat)
    requires TokensFit(cc, hd, s, 0, g, p)
    requires p <= e <= |s| && NoNewline(s, p, e)
    requires TokensFit(cc, tl, s, e, h, j)
    requires forall e2: nat, gs: seq<string>, j2: nat ::
               e < e2 <= |s| && NoNewline(s, p, e2) ==> !TokensFit(cc, tl, s, e2, gs, j2)
    ensures Found(cc, hd, tl, s, g, h)
  {
  }

  lemma {:induction false} SearchOfFit(cc: CharClasses, hd: seq<Token>, tl: seq<Token>, s: string, g: seq<string>, h: seq<string>,
                    p: nat, e: nat, j: nat)
    requires Possessive(cc, hd) && Possessive(cc, tl)
    requires TokensFit(cc, hd, s, 0, g, p)
    requires p <= e <= |s| && NoNewline(s, p, e)
    requires TokensFit(cc, tl, s, e, h, j)
    requires forall e2: nat, gs: seq<string>, j2: nat ::
               e < e2 <= |s| && NoNewline(s, p, e2) ==> !TokensFit(cc, tl, s, e2, gs, j2)
    ensures var r := Search(cc, hd, tl, s); r.Some? && r.value.head == g && r.value.tail == h
  {
    TokensAgree(cc, hd, s, 0, g, p);
    TokensAgree(cc, tl, s, e, h, j);
    LaterMatchesAreFits(cc, tl, s, p, e);
    RunNoNewline(s, p);
    LastMatchIs(cc, tl, s, p, DotEnd(s, p), e);
    SearchIs(cc, hd, tl, s, g, p, e, h, j);
  }

  /** Where the head matches to p and the last tail match is at e, the search reports them. */
  lemma {:induction false} SearchIs(cc: CharClasses, hd: seq<Token>, tl: seq<Token>, s: string, g: seq<string>, p: nat, e: nat,
                 h: seq<string>, j: nat)
    requires p <= |s| && MatchTokens(cc, hd, s, 0) == Some((g, p))
    requires LastMatch(cc, tl, s, p, DotEnd(s, p)) == Some(e)
    requires MatchTokens(cc, tl, s, e) == Some((h, j))
    ensures Search(cc, hd, tl, s) == Some(Hit(g, p, e, h, j))
  {
  }

  /** Where the tail matches is where it fits, so "no later match" and "no later fit" agree. */
  lemma {:induction false} LaterMatchesAreFits(cc: CharClasses, tl: seq<Token>, s: string, p: nat, e: nat)
    requires Possessive(cc, tl)
    ensures (forall k: nat :: e < k <= |s| && NoNewline(s, p, k) ==> MatchTokens(cc, tl, s, k).None?) <==>
            (forall e2: nat, gs: seq<string>, j2: nat ::
               e < e2 <= |s| && NoNewline(s, p, e2) ==> !TokensFit(cc, tl, s, e2, gs, j2))
  {
    forall k: nat, gs: seq<string>, j2: nat
      ensures MatchTokens(cc, tl, s, k) == Some((gs, j2)) <==> TokensFit(cc, tl, s, k, gs, j2)
    {
      TokensAgree(cc, tl, s, k, gs, j2);
    }
    if !forall k: nat :: e < k <= |s| && NoNewline(s, p, k) ==> MatchTokens(cc, tl, s, k).None? {
      var k: nat :| e < k <= |s| && NoNewline(s, p, k) && MatchTokens(cc, tl, s, k).Some?;
      var (gs, j2) := MatchTokens(cc, tl, s, k).value;
      assert TokensFit(cc, tl, s, k, gs, j2);
    }
  }

  /** The `.*` from p may end exactly up to DotEnd(s, p). */
  lemma {:induction false} RunNoNewline(s: string, p: nat)
    requires p <= |s|
    ensures forall k :: p <= k <= |s| ==> (NoNewline(s, p, k) <==> k <= DotEnd(s, p))
  {
    forall k | p <= k <= |s| && NoNewline(s, p, k)
      ensures k <= DotEnd(s, p)
    {
      RunIsMaximal(NotNewline, s, p, |s| - p, k - p);
    }
  }

  /** The last place in lo..hi where the tail matches is the one LastMatch finds. */
  lemma {:induction false} LastMatchIs(cc: CharClasses, tl: seq<Token>, s: string, lo: nat, hi: nat, e: nat)
    requires lo <= e <= hi
    requires MatchTokens(cc, tl, s, e).Some?
    requires forall k :: e < k <= hi ==> MatchTokens(cc, tl, s, k).None?
    ensures LastMatch(cc, tl, s, lo, hi) == Some(e)
  {
    LastMatchIsLast(cc, tl, s, lo, hi);
  }

  /** The six groups of a matching line. */
  datatype Login = Login(month: string, day: string, time: string, user: string, ip: string, port: string)

  /** `template.search(line).groups()`, or None where the search finds nothing. */
  function Parse(cc: CharClasses, month: string, day: nat, s: string): Option<Login>
  {
    Assemble(month, NatToString(day), Search(cc, Head(month, day), Tail(), s))
  }

  /** `(month, day) + groups`: the one group of the head, then the three of the tail. */
  function Assemble(month: string, day: string, r: Option<Hit>): Option<Login>
  {
    if r.Some? && |r.value.head| == 1 && |r.value.tail| == 3 then
      Some(Login(month, day, r.value.head[0], r.value.tail[0], r.value.tail[1], r.value.tail[2]))
    else None
  }

  lemma {:induction false} AssembleMeaning(cc: CharClasses, hd: seq<Token>, tl: seq<Token>, s: string, month: string, day: string, t: Login)
    requires Possessive(cc, hd) && Possessive(cc, tl)
    ensures Assemble(month, day, Search(cc, hd, tl, s)) == Some(t) <==>
      && t.month == month && t.day == day
      && Found(cc, hd, tl, s, [t.time], [t.user, t.ip, t.port])
  {
    SearchMeaning(cc, hd, tl, s, [t.time], [t.user, t.ip, t.port]);
    var r := Search(cc, hd, tl, s);
    if Assemble(month, day, r) == Some(t) {
      assert r.value.head == [t.time] && r.value.tail == [t.user, t.ip, t.port];
    }
  }

  /**
   * What makes a line match, with what groups: the line opens with the
   * month, a whitespace, the day, a whitespace, the time and a whitespace;
   * further on, with no newline in between, stands ` for USER from IP port
   * PORT ` (each blank any one whitespace character); and no such text
   * starts later before a newline, since `.*` is greedy.
   */
  lemma {:induction false} ParseMeaning(cc: CharClasses, month: string, day: nat, s: string, t: Login)
    requires Sound(cc)
    ensures Parse(cc, month, day, s) == Some(t) <==>
      && t.month == month && t.day == NatToString(day)
      && Found(cc, Head(month, day), Tail(), s, [t.time], [t.user, t.ip, t.port])
  {
    PatternPossessive(cc, month, day);
    AssembleMeaning(cc, Head(month, day), Tail(), s, month, NatToString(day), t);
  }

  /**
   * `str(dt.day)` has no leading zero, while the log may pad the day
   * (`Oct 05`, or `Oct  5` in the syslog style): then the line never
   * matches, whatever follows.
   */
  lemma {:induction false} PaddedDayNeverMatches(cc: CharClasses, month: string, day: nat, s: string)
    requires 1 <= day
    requires |month| + 1 < |s| && (s[|month| + 1] == '0' || cc.isSpace(s[|month| + 1]))
    requires Sound(cc)
    ensures Parse(cc, month, day, s) == None
  {
    var d := NatToString(day);
    assert d[0] != '0' && !cc.isSpace(d[0]) by {
      if day < 10 {
        assert d == [DigitChar(day)];
      }
      assert d[0] < '\U{80}' && IsAsciiDigit(d[0]);
    }
    HeadSpellsDay(cc, month, day, s);
  }

  /** A head match has the day right after the month and one whitespace. */
  lemma {:induction false} HeadSpellsDay(cc: CharClasses, month: string, day: nat, s: string)
    ensures var d := NatToString(day);
      MatchTokens(cc, Head(month, day), s, 0).Some? ==>
        |month| + 1 + |d| <= |s| && s[|month| + 1..|month| + 1 + |d|] == d && s[|month| + 1] == d[0]
  {
    var d := NatToString(day);
    var hd := Head(month, day);
    if MatchTokens(cc, hd, s, 0).Some? {
      assert hd[0] == Text(month);
      assert MatchTokens(cc, hd[1..], s, |month|).Some?;
      assert hd[1..][0] == Ws;
      assert MatchTokens(cc, hd[1..][1..], s, |month| + 1).Some?;
      assert hd[1..][1..][0] == Text(d);
      assert s[|month| + 1..|month| + 1 + |d|][0] == s[|month| + 1];
    }
  }
  /**
   * What a matching line yields can be written and read back: the time
   * holds no ',', the user no '@', the port no ':', and the day, being
   * digits, no '-' (the month is the clock's abbreviation).
   */
  lemma {:induction false} ParseUnambiguous(cc: CharClasses, month: string, day: nat, s: string, t: Login)
    requires '-' !in month
    requires Parse(cc, month, day, s) == Some(t)
    ensures Unambiguous(t)
  {
    var hd, tl := Head(month, day), Tail();
    PatternAvoids(month, day);
    HitGroups(cc, hd, tl, s, ',', '@', IsAsciiDigit);
    AssembleGroups(month, NatToString(day), Search(cc, hd, tl, s), t);
    assert forall k :: 0 <= k < |NatToString(day)| ==> NatToString(day)[k] != '-';
  }

  /** No group of the head admits ',', none of the tail '@', and the tail ends in a run of digits. */
  lemma {:induction false} PatternAvoids(month: string, day: nat)
    ensures Avoids(Head(month, day), ',') && Avoids(Tail(), '@')
    ensures Tail()[|Tail()| - 1] == Group(IsAsciiDigit)
  {
  }

  /** What Assemble builds a login from. */
  lemma {:induction false} AssembleGroups(month: string, day: string, r: Option<Hit>, t: Login)
    requires Assemble(month, day, r) == Some(t)
    ensures t.month == month && t.day == day
    ensures r.Some? && r.value.head == [t.time] && r.value.tail == [t.user, t.ip, t.port]
  {
  }


  /**
   * The groups a search finds avoid what their classes avoid: c1 is in no
   * group of the head, c2 in no group of the tail, and the tail's last
   * group is a run of f.
   */
  lemma {:induction false} HitGroups(cc: CharClasses, hd: seq<Token>, tl: seq<Token>, s: string, c1: char, c2: char,
                  f: char -> bool)
    requires Avoids(hd, c1) && Avoids(tl, c2)
    requires |tl| > 0 && tl[|tl| - 1] == Group(f)
    ensures var r := Search(cc, hd, tl, s);
      r.Some? ==>
        && (forall k :: 0 <= k < |r.value.head| ==> c1 !in r.value.head[k])
        && (forall k :: 0 <= k < |r.value.tail| ==> c2 !in r.value.tail[k])
        && |r.value.tail| > 0 && AllIn(f, r.value.tail[|r.value.tail| - 1])
  {
    var r := Search(cc, hd, tl, s);
    if r.Some? {
      GroupsAvoid(cc, hd, s, 0, c1);
      GroupsAvoid(cc, tl, s, r.value.tailStart, c2);
      LastGroupIn(cc, tl, s, r.value.tailStart, f);
    }
  }



  // ---------------------------------------------------------------------
  // Order and output
  // ---------------------------------------------------------------------

  /** `key=lambda tpl: (tpl[1], tpl[2])` compared as Python compares tuples of str. */
  predicate KeyLeq(a: Login, b: Login)
  {
    StrLeq(a.day, b.day) && (a.day == b.day ==> StrLeq(a.time, b.time))
  }

  lemma {:induction false} KeyLeqTotal(a: Login, b: Login)
    ensures KeyLeq(a, b) || KeyLeq(b, a)
  {
    StrLeqTotal(a.day, b.day);
    StrLeqTotal(a.time, b.time);
  }

  lemma {:induction false} KeyLeqTransitive(a: Login, b: Login, c: Login)
    requires KeyLeq(a, b) && KeyLeq(b, c)
    ensures KeyLeq(a, c)
  {
    StrLeqTransitive(a.day, b.day, c.day);
    if a.day == c.day {
      StrLeqAntisymmetric(a.day, b.day);
      StrLeqTransitive(a.time, b.time, c.time);
    }
  }

  /** Every non-empty set of logins has one whose key is smallest. */
  lemma {:induction false} SmallestExists(s: set<Login>) returns (m: Login)
    requires s != {}
    ensures m in s && forall u :: u in s ==> KeyLeq(m, u)
    decreases |s|
  {
    var x :| x in s;
    KeyLeqTotal(x, x);
    if s == {x} {
      m := x;
    } else {
      var m2 := SmallestExists(s - {x});
      KeyLeqTotal(x, m2);
      if KeyLeq(x, m2) {
        m := x;
        forall u | u in s ensures KeyLeq(m, u) {
          if u != x {
            KeyLeqTransitive(x, m2, u);
          }
        }
      } else {
        m := m2;
      }
    }
  }

  /** Output lines in key order. */
  predicate Sorted(order: seq<Login>)
  {
    forall i, j :: 0 <= i < j < |order| ==> KeyLeq(order[i], order[j])
  }

  /** No login twice. */
  predicate Distinct(order: seq<Login>)
  {
    forall i, j :: 0 <= i < j < |order| ==> order[i] != order[j]
  }

  /** `f"{tpl[0]}-{tpl[1]}-{tpl[2]}, {tpl[3]}@{tpl[4]}:{tpl[5]}\n"` */
  function Format(t: Login): string
  {
    t.month + "-" + (t.day + "-" + (t.time + ", " + (t.user + "@" + (t.ip + ":" + t.port + "\n"))))
  }

  /** The file written: the logins' lines one after another. */
  function Report(order: seq<Login>): string
  {
    if |order| == 0 then "" else Report(order[..|order| - 1]) + Format(order[|order| - 1])
  }

  /** What each line's search gives, line by line. */
  function Matches(cc: CharClasses, month: string, day: nat, lines: seq<string>): (ps: seq<Option<Login>>)
    ensures |ps| == |lines|
    ensures forall k :: 0 <= k < |lines| ==> ps[k] == Parse(cc, month, day, D.Strip(cc, lines[k]))
  {
    seq(|lines|, k requires 0 <= k < |lines| => Parse(cc, month, day, D.Strip(cc, lines[k])))
  }

  /** The distinct groups found. */
  function Collected(ps: seq<Option<Login>>): set<Login>
  {
    set k | 0 <= k < |ps| && ps[k].Some? :: ps[k].value
  }

  /** The distinct groups of every matching line: `main_info` after the reading loop. */
  function Logins(cc: CharClasses, month: string, day: nat, lines: seq<string>): (r: set<Login>)
    ensures forall t :: t in r <==> exists k :: 0 <= k < |lines| && Parse(cc, month, day, D.Strip(cc, lines[k])) == Some(t)
  {
    var ps := Matches(cc, month, day, lines);
    assert forall t :: t in Collected(ps) <==> exists k :: 0 <= k < |ps| && ps[k] == Some(t);
    Collected(ps)
  }

  /** One more search result: its groups join the set when it found any. */
  lemma {:induction false} CollectedStep(ps: seq<Option<Login>>, i: nat)
    requires i < |ps|
    ensures Collected(ps[..i + 1]) == Collected(ps[..i]) + (if ps[i].Some? then {ps[i].value} else {})
  {
    var a := Collected(ps[..i + 1]);
    var b := Collected(ps[..i]) + (if ps[i].Some? then {ps[i].value} else {});
    forall t | t in a ensures t in b {
      var k :| 0 <= k < i + 1 && ps[..i + 1][k].Some? && ps[..i + 1][k].value == t;
      if k < i {
        assert ps[..i + 1][k] == ps[..i][k];
      }
    }
    forall t | t in b ensures t in a {
      if t in Collected(ps[..i]) {
        var k :| 0 <= k < i && ps[..i][k].Some? && ps[..i][k].value == t;
        assert ps[..i + 1][k] == ps[..i][k];
      } else {
        assert ps[..i + 1][i] == ps[i];
      }
    }
  }

  /**
   * `check_ip_via_ssh`: every stripped line that matches adds its groups to
   * `main_info`; then the set is written in key order. The logins written
   * are exactly the set, each once, in key order (the order among equal
   * keys follows the set's iteration order, which is left open here), and
   * the file holds one formatted line per login, nothing when no line
   * matched.
   */
  method CheckIpViaSsh(cc: CharClasses, month: string, day: nat, lines: seq<string>)
    returns (order: seq<Login>, written: string)
    ensures forall t :: t in order <==> t in Logins(cc, month, day, lines)
    ensures Distinct(order) && |order| == |Logins(cc, month, day, lines)|
    ensures Sorted(order)
    ensures written == Report(order)
    ensures |Logins(cc, month, day, lines)| == 0 ==> written == ""
  {
    var mainInfo := ReadLogins(cc, month, day, lines);
    order, written := WriteSorted(mainInfo);
  }

  /** The reading loop: `main_info` gathers the groups of every matching stripped line. */
  method ReadLogins(cc: CharClasses, month: string, day: nat, lines: seq<string>) returns (mainInfo: set<Login>)
    ensures mainInfo == Logins(cc, month, day, lines)
  {
    ghost var ps := Matches(cc, month, day, lines);
    mainInfo := {};
    var i := 0;
    while i < |lines|
      invariant 0 <= i <= |lines|
      invariant mainInfo == Collected(ps[..i])
    {
      CollectedStep(ps, i);
      var found := Parse(cc, month, day, D.Strip(cc, lines[i]));
      assert found == ps[i];
      if found.Some? && found.value !in mainInfo {
        mainInfo := mainInfo + {found.value};
      }
      i := i + 1;
    }
    assert ps[..i] == ps;
  }

  /** Appending the smallest of the logins still to write keeps the output sorted and distinct. */
  lemma {:induction false} TakeSmallest(order: seq<Login>, rest: set<Login>, t: Login)
    requires Sorted(order) && Distinct(order)
    requires forall k :: 0 <= k < |order| ==> order[k] !in rest
    requires forall k, u :: 0 <= k < |order| && u in rest ==> KeyLeq(order[k], u)
    requires t in rest && forall u :: u in rest ==> KeyLeq(t, u)
    ensures Sorted(order + [t]) && Distinct(order + [t])
    ensures forall k, u :: 0 <= k < |order| + 1 && u in rest - {t} ==> KeyLeq((order + [t])[k], u)
  {
    var o := order + [t];
    forall i, j | 0 <= i < j < |o| ensures KeyLeq(o[i], o[j]) && o[i] != o[j] {
      if j < |order| {
        assert o[i] == order[i] && o[j] == order[j];
      } else {
        assert o[i] == order[i] && o[j] == t;
      }
    }
    forall k, u | 0 <= k < |o| && u in rest - {t} ensures KeyLeq(o[k], u) {
      if k < |order| {
        assert o[k] == order[k];
      }
    }
  }

  /**
   * The writing loop over `sorted(main_info, key=...)`: the logins taken
   * smallest key first, each written as one formatted line.
   */
  method WriteSorted(mainInfo: set<Login>) returns (order: seq<Login>, written: string)
    ensures forall t :: t in order <==> t in mainInfo
    ensures Distinct(order) && |order| == |mainInfo|
    ensures Sorted(order)
    ensures written == Report(order)
    ensures |mainInfo| == 0 ==> written == ""
  {
    order, written := [], "";
    var rest := mainInfo;
    while rest != {}
      invariant rest <= mainInfo
      invariant forall t :: t in order <==> t in mainInfo && t !in rest
      invariant Distinct(order) && |order| + |rest| == |mainInfo|
      invariant Sorted(order)
      invariant forall k, u :: 0 <= k < |order| && u in rest ==> KeyLeq(order[k], u)
      invariant written == Report(order)
      decreases |rest|
    {
      var smallest := SmallestExists(rest);
      var t :| t in rest && forall u :: u in rest ==> KeyLeq(t, u);
      TakeSmallest(order, rest, t);
      assert order + [t] == (order + [t])[..|order|] + [t];
      order := order + [t];
      rest := rest - {t};
      written := written + Format(t);
    }
  }

  // ---------------------------------------------------------------------
  // The lines read back
  // ---------------------------------------------------------------------

  lemma {:induction false} SeparatorAt(a: string, c: char, b: string)
    ensures (a + [c] + b)[|a|] == c
  {
  }

  /** A piece followed by a separator it does not hold: the separator marks where it ends. */
  lemma {:induction false} CutAtFirst(x: string, y: string, x2: string, y2: string, c: char)
    requires c !in x && c !in x2
    requires x + [c] + y == x2 + [c] + y2
    ensures x == x2 && y == y2
  {
    var s := x + [c] + y;
    if |x| < |x2| {
      SeparatorAt(x, c, y);
      assert false;
    } else if |x2| < |x| {
      SeparatorAt(x2, c, y2);
      assert false;
    }
    assert x == s[..|x|] && x2 == (x2 + [c] + y2)[..|x2|];
    assert y == s[|x| + 1..] && y2 == (x2 + [c] + y2)[|x2| + 1..];
  }

  /** A piece preceded by a separator it does not hold: the separator marks where it starts. */
  lemma {:induction false} CutAtLast(x: string, y: string, x2: string, y2: string, c: char)
    requires c !in y && c !in y2
    requires x + [c] + y == x2 + [c] + y2
    ensures x == x2 && y == y2
  {
    var s := x + [c] + y;
    if |y| < |y2| {
      SeparatorAt(x, c, y);
      assert false;
    } else if |y2| < |y| {
      SeparatorAt(x2, c, y2);
      assert false;
    }
    assert x == s[..|x|] && x2 == (x2 + [c] + y2)[..|x2|];
    assert y == s[|x| + 1..] && y2 == (x2 + [c] + y2)[|x2| + 1..];
  }

  /**
   * The separators of a written line cannot occur inside the field before
   * them (the port holds no ':', read from the right since the address may).
   */
  predicate Unambiguous(t: Login)
  {
    '-' !in t.month && '-' !in t.day && ',' !in t.time && '@' !in t.user && ':' !in t.port
  }

  /** A written line names one login: two logins with the same line are the same. */
  lemma {:induction false} FormatInjective(t: Login, t2: Login)
    requires Unambiguous(t) && Unambiguous(t2)
    requires Format(t) == Format(t2)
    ensures t == t2
  {
    var r4, r4' := t.ip + ":" + t.port + "\n", t2.ip + ":" + t2.port + "\n";
    var r3, r3' := t.user + "@" + r4, t2.user + "@" + r4';
    var r2, r2' := t.time + ", " + r3, t2.time + ", " + r3';
    CutAtFirst(t.month, t.day + "-" + r2, t2.month, t2.day + "-" + r2', '-');
    CutAtFirst(t.day, r2, t2.day, r2', '-');
    assert r2 == t.time + "," + (" " + r3) && r2' == t2.time + "," + (" " + r3');
    CutAtFirst(t.time, " " + r3, t2.time, " " + r3', ',');
    assert r3 == (" " + r3)[1..] && r3' == (" " + r3')[1..];
    CutAtFirst(t.user, r4, t2.user, r4', '@');
    PortAfterLastColon(t.ip, t.port, t2.ip, t2.port);
  }

  /** `ip:port` and its newline: the port holds no ':', so the last ':' splits the two. */
  lemma {:induction false} PortAfterLastColon(ip: string, port: string, ip2: string, port2: string)
    requires ':' !in port && ':' !in port2
    requires ip + ":" + port + "\n" == ip2 + ":" + port2 + "\n"
    ensures ip == ip2 && port == port2
  {
    assert ':' !in port + "\n" && ':' !in port2 + "\n";
    assert ip + ":" + port + "\n" == ip + ":" + (port + "\n");
    assert ip2 + ":" + port2 + "\n" == ip2 + ":" + (port2 + "\n");
    CutAtLast(ip, port + "\n", ip2, port2 + "\n", ':');
    assert port == (port + "\n")[..|port|] && port2 == (port2 + "\n")[..|port2|];
  }

}
