// Python string primitives used by every part of the model: str.join,
// str.split on one character, str.replace, str() of an integer and the
// lexicographic order of str.

module Strings {

  datatype Option<+T> = None | Some(value: T)

  /** `sep.join(parts)`. */
  function Join(sep: string, parts: seq<string>): string
  {
    if |parts| == 0 then ""
    else if |parts| == 1 then parts[0]
    else parts[0] + sep + Join(sep, parts[1..])
  }

  /** `s.split(sep)` for a one-character separator: always at least one piece. */
  function Split(s: string, sep: char): (r: seq<string>)
    ensures |r| >= 1
    ensures forall k :: 0 <= k < |r| ==> sep !in r[k]
    decreases |s|
  {
    if |s| == 0 then [""]
    else
      var rest := Split(s[1..], sep);
      if s[0] == sep then [""] + rest
      else [[s[0]] + rest[0]] + rest[1..]
  }

  /** Joining the pieces of a split with the separator gives the text back. */
  lemma {:induction false} JoinSplit(s: string, sep: char)
    ensures Join([sep], Split(s, sep)) == s
    decreases |s|
  {
    if |s| > 0 {
      var rest := Split(s[1..], sep);
      JoinSplit(s[1..], sep);
      if s[0] == sep {
        assert Split(s, sep) == [""] + rest;
        if |rest| == 1 {
          assert Join([sep], [""] + rest) == "" + [sep] + rest[0];
        } else {
          assert ([""] + rest)[1..] == rest;
          assert Join([sep], [""] + rest) == "" + [sep] + Join([sep], rest);
        }
        assert s == [sep] + s[1..];
      } else {
        var r := [[s[0]] + rest[0]] + rest[1..];
        assert Split(s, sep) == r;
        if |rest| == 1 {
          assert Join([sep], r) == [s[0]] + rest[0];
        } else {
          assert r[1..] == rest[1..];
          assert Join([sep], rest) == rest[0] + [sep] + Join([sep], rest[1..]);
          assert Join([sep], r) == [s[0]] + rest[0] + [sep] + Join([sep], rest[1..]);
        }
        assert s == [s[0]] + s[1..];
      }
    }
  }

  /** Splitting a join of separator-free pieces gives the pieces back. */
  lemma {:induction false} SplitJoin(parts: seq<string>, sep: char)
    requires |parts| >= 1
    requires forall k :: 0 <= k < |parts| ==> sep !in parts[k]
    ensures Split(Join([sep], parts), sep) == parts
    decreases |parts|, |parts[0]|
  {
    var p := parts[0];
    if |p| == 0 {
      if |parts| > 1 {
        SplitJoin(parts[1..], sep);
        assert Join([sep], parts) == [sep] + Join([sep], parts[1..]);
        assert ([sep] + Join([sep], parts[1..]))[1..] == Join([sep], parts[1..]);
        assert parts == [""] + parts[1..];
      }
    } else {
      var tail := [p[1..]] + parts[1..];
      assert tail[0] == p[1..] && tail[1..] == parts[1..];
      assert forall k :: 0 <= k < |tail| ==> sep !in tail[k] by {
        forall k | 0 <= k < |tail| ensures sep !in tail[k] {
          if k == 0 {
            assert forall c :: c in p[1..] ==> c in p;
          } else {
            assert tail[k] == parts[k];
          }
        }
      }
      SplitJoin(tail, sep);
      var j := Join([sep], parts);
      if |parts| == 1 {
        assert j == p && Join([sep], tail) == p[1..];
      } else {
        assert j == p + [sep] + Join([sep], parts[1..]);
        assert Join([sep], tail) == p[1..] + [sep] + Join([sep], parts[1..]);
      }
      assert j[0] == p[0] && j[1..] == Join([sep], tail);
      assert p[0] != sep by { assert p[0] in p; }
      assert [p[0]] + tail[0] == p;
      assert parts == [[p[0]] + tail[0]] + tail[1..];
    }
  }

  /** A separator between two texts splits exactly there. */
  lemma {:induction false} SplitConcat(a: string, sep: char, b: string)
    ensures Split(a + [sep] + b, sep) == Split(a, sep) + Split(b, sep)
    decreases |a|
  {
    var s := a + [sep] + b;
    if |a| == 0 {
      assert s == [sep] + b && s[1..] == b;
    } else {
      assert s[0] == a[0] && s[1..] == a[1..] + [sep] + b;
      SplitConcat(a[1..], sep, b);
      var x := Split(a[1..], sep);
      var rest := Split(s[1..], sep);
      assert rest == x + Split(b, sep);
      if a[0] != sep {
        assert rest[0] == x[0] && rest[1..] == x[1..] + Split(b, sep);
        assert Split(a, sep) == [[a[0]] + x[0]] + x[1..];
      }
    }
  }

  /** A text without the separator is a single piece. */
  lemma {:induction false} SplitNoSeparator(s: string, sep: char)
    requires sep !in s
    ensures Split(s, sep) == [s]
    decreases |s|
  {
    if |s| > 0 {
      assert sep !in s[1..] by { assert forall c :: c in s[1..] ==> c in s; }
      SplitNoSeparator(s[1..], sep);
      assert s[0] != sep by { assert s[0] in s; }
      assert s == [s[0]] + s[1..];
    }
  }

  /** A text ending with the separator splits into a last piece that is empty. */
  lemma {:induction false} SplitEndingWithSeparator(s: string, sep: char)
    requires |s| > 0 && s[|s| - 1] == sep
    ensures |Split(s, sep)| >= 2 && Split(s, sep)[|Split(s, sep)| - 1] == ""
    decreases |s|
  {
    if |s| > 1 {
      SplitEndingWithSeparator(s[1..], sep);
    }
  }

  /** `pat` occurs somewhere in `s`. */
  ghost predicate Occurs(s: string, pat: string)
  {
    exists k: nat :: OccursAt(s, pat, k)
  }

  /** `pat` occurs in `s` starting at index `k`. */
  predicate OccursAt(s: string, pat: string, k: nat)
  {
    k + |pat| <= |s| && s[k..k + |pat|] == pat
  }

  /**
   * `s.replace(pat, rep)`: occurrences of `pat` are replaced left to right,
   * never overlapping; `re.sub` with a pattern free of metacharacters does
   * the same.
   */
  function ReplaceAll(s: string, pat: string, rep: string): string
    requires |pat| > 0
    decreases |s|
  {
    if |s| < |pat| then s
    else if s[..|pat|] == pat then rep + ReplaceAll(s[|pat|..], pat, rep)
    else [s[0]] + ReplaceAll(s[1..], pat, rep)
  }

  /** A last character that does not occur in the pattern is still last after the replacement. */
  lemma {:induction false} ReplaceKeepsLast(s: string, pat: string, rep: string)
    requires |pat| > 0 && |s| > 0 && s[|s| - 1] !in pat
    ensures var r := ReplaceAll(s, pat, rep); |r| > 0 && r[|r| - 1] == s[|s| - 1]
    decreases |s|
  {
    if |s| < |pat| {
    } else if s[..|pat|] == pat {
      if |s| == |pat| {
        assert false;
      }
      ReplaceKeepsLast(s[|pat|..], pat, rep);
    } else if |s| > 1 {
      ReplaceKeepsLast(s[1..], pat, rep);
    }
  }

  /** A character that cannot start the pattern is copied and the scan moves on. */
  lemma {:induction false} ReplaceSkips(c: char, t: string, pat: string, rep: string)
    requires |pat| > 0 && c != pat[0]
    ensures ReplaceAll([c] + t, pat, rep) == [c] + ReplaceAll(t, pat, rep)
  {
    var s := [c] + t;
    assert s[1..] == t;
    if |s| < |pat| {
      assert ReplaceAll(t, pat, rep) == t;
    } else {
      assert s[..|pat|][0] == c;
    }
  }

  /** An occurrence at the start is replaced and the scan resumes after it. */
  lemma {:induction false} ReplaceTakes(t: string, pat: string, rep: string)
    requires |pat| > 0
    ensures ReplaceAll(pat + t, pat, rep) == rep + ReplaceAll(t, pat, rep)
  {
    var s := pat + t;
    assert s[..|pat|] == pat && s[|pat|..] == t;
  }

  /** With no occurrence of the pattern, replacing changes nothing. */
  lemma {:induction false} ReplaceAbsent(s: string, pat: string, rep: string)
    requires |pat| > 0
    requires !Occurs(s, pat)
    ensures ReplaceAll(s, pat, rep) == s
    decreases |s|
  {
    if |s| >= |pat| {
      assert !OccursAt(s, pat, 0);
      assert s[0..0 + |pat|] == s[..|pat|];
      assert !Occurs(s[1..], pat) by {
        forall k: nat | k + |pat| <= |s[1..]| ensures !OccursAt(s[1..], pat, k) {
          assert !OccursAt(s, pat, k + 1);
          assert s[1..][k..k + |pat|] == s[k + 1..k + 1 + |pat|];
        }
      }
      ReplaceAbsent(s[1..], pat, rep);
      assert s == [s[0]] + s[1..];
    }
  }

  /** Characters of `rep` that also appear in `t`. */
  predicate Disjoint(rep: string, t: string)
  {
    forall c :: c in rep ==> c !in t
  }

  /**
   * If the replaced text starts with `u`, and `u` holds no character of the
   * replacement, the original text starts with `u` too.
   */
  lemma {:induction false} PrefixSurvives(t: string, pat: string, rep: string, u: string)
    requires |pat| > 0 && |rep| > 0 && Disjoint(rep, u)
    requires |u| <= |ReplaceAll(t, pat, rep)| && ReplaceAll(t, pat, rep)[..|u|] == u
    ensures |u| <= |t| && t[..|u|] == u
    decreases |t|
  {
    if |u| > 0 {
      var r := ReplaceAll(t, pat, rep);
      assert r[0] == u[0] && u[0] in u;
      assert r[0] !in rep;
      if |t| < |pat| {
      } else if t[..|pat|] == pat {
        // the replaced text would start with rep[0]
        assert false;
      } else {
        assert r == [t[0]] + ReplaceAll(t[1..], pat, rep);
        assert Disjoint(rep, u[1..]) by {
          assert forall c :: c in u[1..] ==> c in u;
        }
        assert ReplaceAll(t[1..], pat, rep)[..|u| - 1] == r[1..][..|u| - 1] == u[1..];
        PrefixSurvives(t[1..], pat, rep, u[1..]);
        assert t[..|u|] == [t[0]] + t[1..][..|u| - 1];
      }
    }
  }

  /**
   * Replacing cannot create an occurrence of a text `q` that shares no
   * character with the (non-empty) replacement.
   */
  lemma {:induction false} ReplaceCreatesNoOccurrence(s: string, pat: string, rep: string, q: string)
    requires |pat| > 0 && |rep| > 0 && |q| > 0 && Disjoint(rep, q)
    requires !Occurs(s, q)
    ensures !Occurs(ReplaceAll(s, pat, rep), q)
    decreases |s|
  {
    var r := ReplaceAll(s, pat, rep);
    if |s| < |pat| {
    } else if s[..|pat|] == pat {
      var rest := s[|pat|..];
      SliceKeepsAbsence(s, |pat|, |s|, q);
      assert s[|pat|..|s|] == rest;
      ReplaceCreatesNoOccurrence(rest, pat, rep, q);
      var tail := ReplaceAll(rest, pat, rep);
      assert r == rep + tail;
      forall k: nat | k + |q| <= |r| ensures !OccursAt(r, q, k) {
        if k < |rep| {
          assert r[k] == rep[k] && rep[k] in rep;
          assert r[k..k + |q|][0] == r[k];
          assert q[0] in q && rep[k] !in q;
        } else {
          assert r[k..k + |q|] == tail[k - |rep|..k - |rep| + |q|];
          assert !OccursAt(tail, q, k - |rep|);
        }
      }
    } else {
      var tail := ReplaceAll(s[1..], pat, rep);
      SliceKeepsAbsence(s, 1, |s|, q);
      assert s[1..|s|] == s[1..];
      ReplaceCreatesNoOccurrence(s[1..], pat, rep, q);
      assert r == [s[0]] + tail;
      forall k: nat | k + |q| <= |r| ensures !OccursAt(r, q, k) {
        if k == 0 {
          assert !OccursAt(s, q, 0);
          if r[..|q|] == q {
            assert tail[..|q| - 1] == q[1..];
            assert Disjoint(rep, q[1..]) by {
              assert forall c :: c in q[1..] ==> c in q;
            }
            PrefixSurvives(s[1..], pat, rep, q[1..]);
            assert false;
          }
        } else {
          assert r[k..k + |q|] == tail[k - 1..k - 1 + |q|];
          assert !OccursAt(tail, q, k - 1);
        }
      }
    }
  }

  /**
   * After replacing, no occurrence of the pattern is left when the
   * replacement shares no character with the pattern.
   */
  lemma {:induction false} ReplaceLeavesNoPattern(s: string, pat: string, rep: string)
    requires |pat| > 0 && |rep| > 0 && Disjoint(rep, pat)
    ensures !Occurs(ReplaceAll(s, pat, rep), pat)
    decreases |s|
  {
    var r := ReplaceAll(s, pat, rep);
    if |s| < |pat| {
    } else if s[..|pat|] == pat {
      ReplaceLeavesNoPattern(s[|pat|..], pat, rep);
      var tail := ReplaceAll(s[|pat|..], pat, rep);
      forall k: nat | k + |pat| <= |r| ensures !OccursAt(r, pat, k) {
        if k < |rep| {
          assert r[k] == rep[k] && rep[k] in rep;
          assert pat[0] in pat && rep[k] !in pat;
        } else {
          assert r[k..k + |pat|] == tail[k - |rep|..k - |rep| + |pat|];
          assert !OccursAt(tail, pat, k - |rep|);
        }
      }
    } else {
      ReplaceLeavesNoPattern(s[1..], pat, rep);
      var tail := ReplaceAll(s[1..], pat, rep);
      forall k: nat | k + |pat| <= |r| ensures !OccursAt(r, pat, k) {
        if k == 0 {
          if r[..|pat|] == pat {
            assert tail[..|pat| - 1] == pat[1..];
            assert Disjoint(rep, pat[1..]) by {
              assert forall c :: c in pat[1..] ==> c in pat;
            }
            PrefixSurvives(s[1..], pat, rep, pat[1..]);
            assert false;
          }
        } else {
          assert r[k..k + |pat|] == tail[k - 1..k - 1 + |pat|];
          assert !OccursAt(tail, pat, k - 1);
        }
      }
    }
  }

  /** A text that does not contain `q` has no slice that contains it. */
  lemma {:induction false} SliceKeepsAbsence(s: string, lo: nat, hi: nat, q: string)
    requires lo <= hi <= |s| && !Occurs(s, q)
    ensures !Occurs(s[lo..hi], q)
  {
    if Occurs(s[lo..hi], q) {
      var k: nat :| OccursAt(s[lo..hi], q, k);
      assert k + |q| <= hi - lo;
      forall j | 0 <= j < |q| ensures s[lo + k..lo + k + |q|][j] == q[j] {
        assert s[lo..hi][k..k + |q|][j] == q[j];
      }
      assert OccursAt(s, q, lo + k);
    }
  }

  function DigitChar(d: nat): (c: char)
    requires d < 10
    ensures '0' <= c <= '9'
  {
    "0123456789"[d]
  }

  predicate IsAsciiDigit(c: char)
  {
    '0' <= c <= '9'
  }

  /** `str(n)` for a natural number: decimal digits, no sign, no leading zero. */
  function NatToString(n: nat): (r: string)
    ensures |r| >= 1
    ensures forall k :: 0 <= k < |r| ==> IsAsciiDigit(r[k])
    ensures |r| > 1 ==> r[0] != '0'
    decreases n
  {
    if n < 10 then [DigitChar(n)]
    else NatToString(n / 10) + [DigitChar(n % 10)]
  }

  /** `str(n)` for an integer: a `-` before the digits of a negative number. */
  function IntToString(n: int): (r: string)
    ensures |r| >= 1
    ensures forall k :: 0 <= k < |r| ==> IsAsciiDigit(r[k]) || (k == 0 && r[k] == '-' && n < 0)
  {
    if n < 0 then "-" + NatToString(-n) else NatToString(n)
  }

  /** Python's `a <= b` on str: lexicographic by code point. */
  predicate StrLeq(a: string, b: string)
    decreases |a|
  {
    |a| == 0 || (|b| > 0 && (a[0] < b[0] || (a[0] == b[0] && StrLeq(a[1..], b[1..]))))
  }

  lemma {:induction false} StrLeqTotal(a: string, b: string)
    ensures StrLeq(a, b) || StrLeq(b, a)
    decreases |a|
  {
    if |a| > 0 && |b| > 0 && a[0] == b[0] {
      StrLeqTotal(a[1..], b[1..]);
    }
  }

  lemma {:induction false} StrLeqTransitive(a: string, b: string, c: string)
    requires StrLeq(a, b) && StrLeq(b, c)
    ensures StrLeq(a, c)
    decreases |a|
  {
    if |a| > 0 && a[0] == b[0] && b[0] == c[0] {
      StrLeqTransitive(a[1..], b[1..], c[1..]);
    }
  }

  lemma {:induction false} StrLeqAntisymmetric(a: string, b: string)
    requires StrLeq(a, b) && StrLeq(b, a)
    ensures a == b
    decreases |a|
  {
    if |a| > 0 {
      StrLeqAntisymmetric(a[1..], b[1..]);
      assert a == [a[0]] + a[1..] && b == [b[0]] + b[1..];
    }
  }
}
