// Python `re` semantics for the fragment every pattern of the bot and the
// scripts is written in: a concatenation of character classes, each repeated
// greedily between a minimum and an optional maximum number of times
// (`[a-z]+`, `\s?`, `\d{3}`, `[a-zA-Z]{2,3}`, `.*`, a literal character).
// Groups only record where a piece starts and ends, so the matcher returns
// the end of every atom. Backtracking tries the longest repetition of the
// first atom first and then shorter ones, exactly as `sre` does.

module Regex {
  import opened Strings

  /**
   * Python's `\d` and `\s` on str patterns are Unicode-aware (any decimal
   * digit, any whitespace per str.isspace), so they are parameters of the
   * model. `Sound` pins down what Python guarantees about them.
   */
  datatype CharClasses = CharClasses(isDigit: char -> bool, isSpace: char -> bool)

  /** The ASCII characters `\s` matches: space, \t \n \r \v \f and \x1c-\x1f. */
  predicate IsAsciiSpace(c: char)
  {
    c == ' ' || ('\t' <= c <= '\r') || ('\U{1c}' <= c <= '\U{1f}')
  }

  ghost predicate Sound(cc: CharClasses)
  {
    && (forall c: char :: c < '\U{80}' ==> (cc.isDigit(c) <==> IsAsciiDigit(c)))
    && (forall c: char :: c < '\U{80}' ==> (cc.isSpace(c) <==> IsAsciiSpace(c)))
    && (forall c: char :: cc.isDigit(c) ==> !cc.isSpace(c))
  }

  /** The classes restricted to ASCII (as with the `re.ASCII` flag). */
  function AsciiClasses(): CharClasses
  {
    CharClasses(IsAsciiDigit, IsAsciiSpace)
  }

  lemma {:induction false} AsciiClassesSound()
    ensures Sound(AsciiClasses())
  {
  }

  /** A character class repeated greedily `min` to `max` times (no `max`: unbounded). */
  datatype Atom = Atom(cls: char -> bool, min: nat, max: Option<nat>)

  type Pattern = seq<Atom>

  /** A literal character. */
  function Lit(c: char): Atom
  {
    Atom(x => x == c, 1, Some(1))
  }

  /** A literal string, character by character. */
  function Lits(w: string): (p: Pattern)
    ensures |p| == |w|
    ensures forall k :: 0 <= k < |w| ==> p[k] == Lit(w[k])
  {
    if |w| == 0 then [] else [Lit(w[0])] + Lits(w[1..])
  }

  /** `[...]+` */
  function Plus(cls: char -> bool): Atom { Atom(cls, 1, None) }

  /** `[...]?` */
  function Opt(cls: char -> bool): Atom { Atom(cls, 0, Some(1)) }

  /** `[...]*` */
  function Star(cls: char -> bool): Atom { Atom(cls, 0, None) }

  /** The most repetitions an atom may take from position i. */
  function Limit(a: Atom, s: string, i: nat): nat
    requires i <= |s|
  {
    if a.max.Some? then a.max.value else |s| - i
  }

  /** How many characters of the class follow position i, at most `limit`. */
  function Run(cls: char -> bool, s: string, i: nat, limit: nat): (n: nat)
    requires i <= |s|
    ensures n <= limit && i + n <= |s|
    ensures forall k :: i <= k < i + n ==> cls(s[k])
    ensures n < limit && i + n < |s| ==> !cls(s[i + n])
    decreases limit
  {
    if limit == 0 || i == |s| || !cls(s[i]) then 0
    else 1 + Run(cls, s, i + 1, limit - 1)
  }

  /** No run of the class within the limit is longer than `Run`. */
  lemma {:induction false} RunIsMaximal(cls: char -> bool, s: string, i: nat, limit: nat, m: nat)
    requires i + m <= |s| && m <= limit
    requires forall k :: i <= k < i + m ==> cls(s[k])
    ensures m <= Run(cls, s, i, limit)
    decreases limit
  {
    if m > 0 {
      RunIsMaximal(cls, s, i + 1, limit - 1, m - 1);
    }
  }

  /**
   * The backtracking matcher: `Some(b)` gives the end of each atom's piece
   * when the pattern matches at i, `None` when it does not.
   */
  function Match(p: Pattern, s: string, i: nat): Option<seq<nat>>
    requires i <= |s|
    decreases |p|, 1, 0
  {
    if |p| == 0 then Some([])
    else TryCounts(p, s, i, Run(p[0].cls, s, i, Limit(p[0], s, i)))
  }

  /** Tries k, k - 1, ... repetitions of the first atom, longest first. */
  function TryCounts(p: Pattern, s: string, i: nat, k: nat): Option<seq<nat>>
    requires |p| > 0 && i + k <= |s|
    decreases |p|, 0, k
  {
    if k < p[0].min then None
    else match Match(p[1..], s, i + k)
      case Some(b) => Some([i + k] + b)
      case None => if k == 0 then None else TryCounts(p, s, i, k - 1)
  }

  /** The characters from `from` up to `to` are an admissible piece for the atom. */
  predicate PieceFits(a: Atom, s: string, from: nat, to: nat)
  {
    && from <= to <= |s|
    && a.min <= to - from
    && (a.max.None? || to - from <= a.max.value)
    && (forall k :: from <= k < to ==> a.cls(s[k]))
  }

  /**
   * The declarative meaning of a pattern: `b` cuts s[i..] into one
   * admissible piece per atom.
   */
  predicate Fits(p: Pattern, s: string, i: nat, b: seq<nat>)
    decreases |p|
  {
    |b| == |p| && (|p| > 0 ==> PieceFits(p[0], s, i, b[0]) && Fits(p[1..], s, b[0], b[1..]))
  }

  /** Where the match ends. */
  function End(i: nat, b: seq<nat>): nat
  {
    if |b| == 0 then i else b[|b| - 1]
  }

  /** Lexicographic order on boundary vectors of equal length. */
  predicate LexLeq(x: seq<nat>, y: seq<nat>)
    requires |x| == |y|
  {
    |x| == 0 || x[0] < y[0] || (x[0] == y[0] && LexLeq(x[1..], y[1..]))
  }

  lemma {:induction false} MatchSound(p: Pattern, s: string, i: nat)
    requires i <= |s|
    ensures Match(p, s, i).Some? ==> Fits(p, s, i, Match(p, s, i).value)
    decreases |p|, 1, 0
  {
    if |p| > 0 {
      TryCountsSound(p, s, i, Run(p[0].cls, s, i, Limit(p[0], s, i)));
    }
  }

  lemma {:induction false} TryCountsSound(p: Pattern, s: string, i: nat, k: nat)
    requires |p| > 0 && i <= |s|
    requires k <= Run(p[0].cls, s, i, Limit(p[0], s, i))
    ensures TryCounts(p, s, i, k).Some? ==> Fits(p, s, i, TryCounts(p, s, i, k).value)
    decreases |p|, 0, k
  {
    if k >= p[0].min {
      MatchSound(p[1..], s, i + k);
      if Match(p[1..], s, i + k).None? && k > 0 {
        TryCountsSound(p, s, i, k - 1);
      }
    }
  }

  /** Whenever the pattern can match at i, the matcher finds a match. */
  lemma {:induction false} MatchComplete(p: Pattern, s: string, i: nat, b: seq<nat>)
    requires i <= |s| && Fits(p, s, i, b)
    ensures Match(p, s, i).Some?
    decreases |p|, 1, 0
  {
    if |p| > 0 {
      var limit := Limit(p[0], s, i);
      RunIsMaximal(p[0].cls, s, i, limit, b[0] - i);
      TryCountsComplete(p, s, i, Run(p[0].cls, s, i, limit), b);
    }
  }

  lemma {:induction false} TryCountsComplete(p: Pattern, s: string, i: nat, k: nat, b: seq<nat>)
    requires |p| > 0 && i + k <= |s| && Fits(p, s, i, b) && b[0] - i <= k
    ensures TryCounts(p, s, i, k).Some?
    decreases |p|, 0, k
  {
    if Match(p[1..], s, i + k).None? {
      if k == b[0] - i {
        MatchComplete(p[1..], s, b[0], b[1..]);
      } else {
        TryCountsComplete(p, s, i, k - 1, b);
      }
    }
  }

  /**
   * Backtracking priority: the match found is the lexicographically greatest
   * way to cut the text, that is each repetition as long as the rest allows.
   */
  lemma {:induction false} MatchGreatest(p: Pattern, s: string, i: nat, b: seq<nat>)
    requires i <= |s| && Fits(p, s, i, b) && Match(p, s, i).Some?
    ensures |Match(p, s, i).value| == |b|
    ensures LexLeq(b, Match(p, s, i).value)
    decreases |p|, 1, 0
  {
    MatchSound(p, s, i);
    if |p| > 0 {
      var limit := Limit(p[0], s, i);
      RunIsMaximal(p[0].cls, s, i, limit, b[0] - i);
      TryCountsGreatest(p, s, i, Run(p[0].cls, s, i, limit), b);
    }
  }

  lemma {:induction false} TryCountsGreatest(p: Pattern, s: string, i: nat, k: nat, b: seq<nat>)
    requires |p| > 0 && i + k <= |s| && Fits(p, s, i, b) && b[0] - i <= k
    requires TryCounts(p, s, i, k).Some?
    ensures |TryCounts(p, s, i, k).value| == |b|
    ensures LexLeq(b, TryCounts(p, s, i, k).value)
    decreases |p|, 0, k
  {
    var m := Match(p[1..], s, i + k);
    if m.Some? {
      MatchSound(p[1..], s, i + k);
      var r := [i + k] + m.value;
      assert TryCounts(p, s, i, k) == Some(r);
      if b[0] == i + k {
        MatchGreatest(p[1..], s, i + k, b[1..]);
        assert r[1..] == m.value;
      }
    } else {
      if k == b[0] - i {
        MatchComplete(p[1..], s, b[0], b[1..]);
      } else {
        TryCountsGreatest(p, s, i, k - 1, b);
      }
    }
  }

  /** Where the piece of atom k starts: i for the first atom, else where the previous ends. */
  function PieceStart(i: nat, b: seq<nat>, k: nat): nat
    requires k <= |b|
  {
    if k == 0 then i else b[k - 1]
  }

  /** `Fits` read atom by atom. */
  lemma {:induction false} FitsPieces(p: Pattern, s: string, i: nat, b: seq<nat>)
    requires Fits(p, s, i, b)
    ensures forall k :: 0 <= k < |p| ==> PieceFits(p[k], s, PieceStart(i, b, k), b[k])
    ensures i <= End(i, b) && (|p| > 0 ==> End(i, b) <= |s|)
    decreases |p|
  {
    if |p| > 0 {
      FitsPieces(p[1..], s, b[0], b[1..]);
      forall k | 0 < k < |p| ensures PieceFits(p[k], s, PieceStart(i, b, k), b[k]) {
        assert p[k] == p[1..][k - 1] && b[k] == b[1..][k - 1];
        assert PieceStart(i, b, k) == PieceStart(b[0], b[1..], k - 1);
      }
      if |p| > 1 {
        assert End(i, b) == End(b[0], b[1..]);
      }
    }
  }

  /** Conversely, admissible pieces one after another make the pattern fit. */
  lemma {:induction false} PiecesFit(p: Pattern, s: string, i: nat, b: seq<nat>)
    requires |b| == |p|
    requires forall k :: 0 <= k < |p| ==> PieceFits(p[k], s, PieceStart(i, b, k), b[k])
    ensures Fits(p, s, i, b)
    decreases |p|
  {
    if |p| > 0 {
      assert PieceFits(p[0], s, PieceStart(i, b, 0), b[0]);
      forall k | 0 <= k < |p| - 1
        ensures PieceFits(p[1..][k], s, PieceStart(b[0], b[1..], k), b[1..][k])
      {
        assert PieceFits(p[k + 1], s, PieceStart(i, b, k + 1), b[k + 1]);
      }
      PiecesFit(p[1..], s, b[0], b[1..]);
    }
  }

  /** How many characters of w belong to class f. */
  function CountWhere(f: char -> bool, w: string): nat
  {
    if |w| == 0 then 0 else (if f(w[0]) then 1 else 0) + CountWhere(f, w[1..])
  }

  lemma {:induction false} CountConcat(f: char -> bool, x: string, y: string)
    ensures CountWhere(f, x + y) == CountWhere(f, x) + CountWhere(f, y)
    decreases |x|
  {
    if |x| > 0 {
      assert (x + y)[0] == x[0] && (x + y)[1..] == x[1..] + y;
      CountConcat(f, x[1..], y);
    } else {
      assert x + y == y;
    }
  }

  lemma {:induction false} CountAllOrNone(f: char -> bool, w: string, all: bool)
    requires forall k :: 0 <= k < |w| ==> f(w[k]) == all
    ensures CountWhere(f, w) == if all then |w| else 0
    decreases |w|
  {
    if |w| > 0 {
      CountAllOrNone(f, w[1..], all);
    }
  }

  /** Every character atom a can take is of class f, and a takes exactly `min` of them. */
  ghost predicate CountsExactly(f: char -> bool, a: Atom)
  {
    a.max == Some(a.min) && forall c :: a.cls(c) ==> f(c)
  }

  /** No character atom a can take is of class f. */
  ghost predicate Avoids(f: char -> bool, a: Atom)
  {
    forall c :: a.cls(c) ==> !f(c)
  }

  /** The number of characters the atoms marked in `mask` take together. */
  function Weight(p: Pattern, mask: seq<bool>): nat
    requires |mask| == |p|
  {
    if |p| == 0 then 0 else (if mask[0] then p[0].min else 0) + Weight(p[1..], mask[1..])
  }

  /**
   * When every atom either takes a fixed number of f-characters (marked) or
   * none at all, every match holds the same number of f-characters.
   */
  lemma {:induction false} CountInFits(f: char -> bool, p: Pattern, s: string, i: nat, b: seq<nat>, mask: seq<bool>)
    requires Fits(p, s, i, b) && |mask| == |p| && i <= |s|
    requires forall k :: 0 <= k < |p| ==> if mask[k] then CountsExactly(f, p[k]) else Avoids(f, p[k])
    ensures i <= End(i, b) <= |s|
    ensures CountWhere(f, s[i..End(i, b)]) == Weight(p, mask)
    decreases |p|
  {
    if |p| > 0 {
      assert mask[0] ==> CountsExactly(f, p[0]);
      assert !mask[0] ==> Avoids(f, p[0]);
      forall k | 0 <= k < |p| - 1
        ensures if mask[1..][k] then CountsExactly(f, p[1..][k]) else Avoids(f, p[1..][k])
      {
        assert mask[1..][k] == mask[k + 1] && p[1..][k] == p[k + 1];
      }
      CountInFits(f, p[1..], s, b[0], b[1..], mask[1..]);
      var e := End(b[0], b[1..]);
      assert End(i, b) == e && i <= b[0] <= e <= |s|;
      assert s[i..e] == s[i..b[0]] + s[b[0]..e];
      CountConcat(f, s[i..b[0]], s[b[0]..e]);
      CountAllOrNone(f, s[i..b[0]], mask[0]);
    }
  }

  /** Every character of a match is of some class the pattern mentions. */
  lemma {:induction false} AllInFits(f: char -> bool, p: Pattern, s: string, i: nat, b: seq<nat>)
    requires Fits(p, s, i, b) && i <= |s|
    requires forall k :: 0 <= k < |p| ==> forall c :: p[k].cls(c) ==> f(c)
    ensures End(i, b) <= |s|
    ensures forall j :: i <= j < End(i, b) ==> f(s[j])
    decreases |p|
  {
    if |p| > 0 {
      forall k | 0 <= k < |p| - 1 ensures forall c :: p[1..][k].cls(c) ==> f(c) {
        assert p[1..][k] == p[k + 1];
      }
      AllInFits(f, p[1..], s, b[0], b[1..]);
      assert End(i, b) == End(b[0], b[1..]);
      assert forall c :: p[0].cls(c) ==> f(c);
    }
  }

  /** `re.match(p, s[i:])` reduced to where the match ends. */
  function MatchEnd(p: Pattern, s: string, i: nat): Option<nat>
  {
    if i > |s| then None
    else match Match(p, s, i)
      case Some(b) => Some(End(i, b))
      case None => None
  }

  /** What `MatchEnd` reports is the end of a fitting cut of the text. */
  lemma {:induction false} MatchEndSound(p: Pattern, s: string, i: nat)
    requires MatchEnd(p, s, i).Some?
    ensures i <= |s| && Match(p, s, i).Some?
    ensures Fits(p, s, i, Match(p, s, i).value)
    ensures MatchEnd(p, s, i).value == End(i, Match(p, s, i).value)
  {
    MatchSound(p, s, i);
  }

  /** A span [start, end) of the text. */
  datatype Span = Span(start: nat, end: nat)

  /** The matcher reports a non-empty match at position q. */
  predicate Hit(m: (string, nat) -> Option<nat>, s: string, q: nat)
  {
    m(s, q).Some? && q < m(s, q).value <= |s|
  }

  /** Position q lies in one of the spans. */
  predicate Covered(r: seq<Span>, q: nat)
  {
    exists k :: 0 <= k < |r| && r[k].start <= q < r[k].end
  }

  /**
   * `findall`/`finditer` from position i: left to right, at each position
   * try a match; on success record it and continue after it, otherwise try
   * the next position. Every pattern scanned here matches at least one
   * character, so empty matches do not arise.
   */
  function FindAll(m: (string, nat) -> Option<nat>, s: string, i: nat): (r: seq<Span>)
    ensures forall k :: 0 <= k < |r| ==>
      i <= r[k].start && Hit(m, s, r[k].start) && m(s, r[k].start).value == r[k].end
    ensures forall k :: 0 <= k < |r| - 1 ==> r[k].end <= r[k + 1].start
    decreases |s| - i
  {
    if i >= |s| then []
    else if Hit(m, s, i) then [Span(i, m(s, i).value)] + FindAll(m, s, m(s, i).value)
    else FindAll(m, s, i + 1)
  }

  /**
   * Nothing is skipped: every position from i on that lies in no reported
   * span holds no match (positions inside a span are never tried).
   */
  lemma {:induction false} FindAllLeftmost(m: (string, nat) -> Option<nat>, s: string, i: nat, q: nat)
    requires i <= q < |s| && !Covered(FindAll(m, s, i), q)
    ensures !Hit(m, s, q)
    decreases |s| - i
  {
    var r := FindAll(m, s, i);
    if Hit(m, s, i) {
      var j := m(s, i).value;
      var rest := FindAll(m, s, j);
      assert r == [Span(i, j)] + rest;
      assert !(r[0].start <= q < r[0].end);
      forall k | 0 <= k < |rest| ensures !(rest[k].start <= q < rest[k].end) {
        assert r[k + 1] == rest[k];
      }
      FindAllLeftmost(m, s, j, q);
    } else if q > i {
      FindAllLeftmost(m, s, i + 1, q);
    }
  }

  /** Where no position from i on holds a match, nothing is reported. */
  lemma {:induction false} FindAllNone(m: (string, nat) -> Option<nat>, s: string, i: nat)
    requires forall q :: i <= q < |s| ==> !Hit(m, s, q)
    ensures FindAll(m, s, i) == []
    decreases |s| - i
  {
    if i < |s| {
      FindAllNone(m, s, i + 1);
    }
  }

  /** The matched texts of the spans. */
  function Texts(s: string, r: seq<Span>): (t: seq<string>)
    requires forall k :: 0 <= k < |r| ==> r[k].start <= r[k].end <= |s|
    ensures |t| == |r|
    ensures forall k :: 0 <= k < |r| ==> t[k] == s[r[k].start..r[k].end]
  {
    if |r| == 0 then [] else [s[r[0].start..r[0].end]] + Texts(s, r[1..])
  }
}
