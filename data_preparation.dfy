// The dataset cleaner of task-1-3/data_preparation.py. A dataset line is a
// run of integers that should be separated by single commas. `check_lines`
// repairs each line with three substitutions after `str.strip()`:
// `[^0-9-,]` becomes `,`, every run `,+` becomes one `,`, and a comma at
// either end (`(^,)|(,$)`) is removed. `create_err_file` supplies the shape of
// broken lines: every number wrapped in one separator from `, ; .` on each
// side.

module DataPreparation {
  import opened Strings
  import opened Regex

  // ---------------------------------------------------------------------
  // str.strip()
  // ---------------------------------------------------------------------

  /** How many characters of class f open s. */
  function Leading(f: char -> bool, s: string): (n: nat)
    ensures n <= |s|
    ensures forall k :: 0 <= k < n ==> f(s[k])
    ensures n < |s| ==> !f(s[n])
    decreases |s|
  {
    if |s| == 0 || !f(s[0]) then 0
    else
      var m := Leading(f, s[1..]);
      assert forall k :: 1 <= k < 1 + m ==> s[k] == s[1..][k - 1];
      1 + m
  }

  /** How many characters of class f close s. */
  function Trailing(f: char -> bool, s: string): (n: nat)
    ensures n <= |s|
    ensures forall k :: |s| - n <= k < |s| ==> f(s[k])
    ensures n < |s| ==> !f(s[|s| - 1 - n])
    decreases |s|
  {
    if |s| == 0 || !f(s[|s| - 1]) then 0
    else 1 + Trailing(f, s[..|s| - 1])
  }

  /** `line.strip()`: whitespace (Python's str.isspace, the class `\s` stands for) removed at both ends. */
  function Strip(cc: CharClasses, s: string): string
  {
    var t := s[Leading(cc.isSpace, s)..];
    t[..|t| - Trailing(cc.isSpace, t)]
  }

  /** Strip keeps a middle slice: only whitespace is cut, and what is left neither starts nor ends with it. */
  lemma {:induction false} StripSlice(cc: CharClasses, s: string) returns (i: nat, j: nat)
    ensures i <= j <= |s| && Strip(cc, s) == s[i..j]
    ensures forall k :: 0 <= k < i ==> cc.isSpace(s[k])
    ensures forall k :: j <= k < |s| ==> cc.isSpace(s[k])
    ensures i < j ==> !cc.isSpace(s[i]) && !cc.isSpace(s[j - 1])
  {
    i := Leading(cc.isSpace, s);
    var t := s[i..];
    var n := Trailing(cc.isSpace, t);
    j := i + |t| - n;
    assert Strip(cc, s) == t[..|t| - n] == s[i..j];
    forall k | j <= k < |s| ensures cc.isSpace(s[k]) {
      assert s[k] == t[k - i];
    }
    if i < j {
      assert s[i] == t[0] && s[j - 1] == t[|t| - 1 - n];
    }
  }

  /** A line whose ends are not whitespace is left as it is. */
  lemma {:induction false} StripKeeps(cc: CharClasses, s: string)
    requires |s| > 0 ==> !cc.isSpace(s[0]) && !cc.isSpace(s[|s| - 1])
    ensures Strip(cc, s) == s
  {
  }

  // ---------------------------------------------------------------------
  // The three substitutions
  // ---------------------------------------------------------------------

  /** A character of a number: an ASCII digit or the minus sign. */
  predicate IsNumberChar(c: char)
  {
    IsAsciiDigit(c) || c == '-'
  }

  /** The class `[0-9-,]`: what the first substitution leaves alone. */
  predicate IsKept(c: char)
  {
    IsNumberChar(c) || c == ','
  }

  /** `re.compile(r'[^0-9-,]').sub(",", line)` */
  function Commas(s: string): string
  {
    seq(|s|, k requires 0 <= k < |s| => if IsKept(s[k]) then s[k] else ',')
  }

  /** No comma follows a comma. */
  predicate NoDoubleComma(s: string)
  {
    forall k :: 0 <= k < |s| - 1 ==> !(s[k] == ',' && s[k + 1] == ',')
  }

  /**
   * `re.compile(r'(,+)').sub(",", line)`: of every run of commas one is
   * left. The result starts and ends with the character the line starts
   * and ends with.
   */
  function Collapse(s: string): (r: string)
    ensures |s| > 0 ==> |r| > 0 && r[0] == s[0] && r[|r| - 1] == s[|s| - 1]
    ensures |r| <= |s|
    decreases |s|
  {
    if |s| < 2 then s
    else if s[0] == ',' && s[1] == ',' then Collapse(s[1..])
    else [s[0]] + Collapse(s[1..])
  }

  /** Collapse only drops characters: every character it keeps comes from the line. */
  lemma {:induction false} CollapseChars(s: string)
    ensures forall k :: 0 <= k < |Collapse(s)| ==> Collapse(s)[k] in s
    decreases |s|
  {
    if |s| >= 2 {
      CollapseChars(s[1..]);
      assert forall c :: c in s[1..] ==> c in s;
      if !(s[0] == ',' && s[1] == ',') {
        var t := Collapse(s[1..]);
        assert forall k :: 1 <= k < 1 + |t| ==> ([s[0]] + t)[k] == t[k - 1];
      }
    }
  }

  /** After Collapse no comma follows a comma. */
  lemma {:induction false} CollapseNoDoubleComma(s: string)
    ensures NoDoubleComma(Collapse(s))
    decreases |s|
  {
    if |s| >= 2 {
      CollapseNoDoubleComma(s[1..]);
      if !(s[0] == ',' && s[1] == ',') {
        var t := Collapse(s[1..]);
        var r := [s[0]] + t;
        forall k | 0 <= k < |r| - 1 ensures !(r[k] == ',' && r[k + 1] == ',') {
          if k > 0 {
            assert r[k] == t[k - 1] && r[k + 1] == t[k];
          }
        }
      }
    }
  }

  /**
   * `re.compile(r'(^,)|(,$)').sub("", line)`: a comma at the start goes,
   * and so does a comma at the end, or just before a final newline (where
   * `$` also matches).
   */
  function TrimEdges(s: string): string
  {
    var t := if |s| > 0 && s[0] == ',' then s[1..] else s;
    if |t| > 0 && t[|t| - 1] == ',' then t[..|t| - 1]
    else if |t| >= 2 && t[|t| - 1] == '\n' && t[|t| - 2] == ',' then t[..|t| - 2] + "\n"
    else t
  }

  /** The cleaning of one line in `check_lines`. */
  function Clean(cc: CharClasses, line: string): string
  {
    TrimEdges(Collapse(Commas(Strip(cc, line))))
  }

  // ---------------------------------------------------------------------
  // What each step does
  // ---------------------------------------------------------------------

  /** On a line without newline TrimEdges keeps a slice, cutting one comma at most at each end. */
  lemma {:induction false} TrimEdgesSlice(s: string) returns (i: nat, j: nat)
    requires forall k :: 0 <= k < |s| ==> s[k] != '\n'
    ensures i <= j <= |s| && TrimEdges(s) == s[i..j]
    ensures i == if |s| > 0 && s[0] == ',' then 1 else 0
    ensures j == |s| || (j == |s| - 1 && s[j] == ',')
    ensures i < j == |s| ==> s[|s| - 1] != ','
    ensures NoDoubleComma(s) && i < j ==> s[i] != ',' && s[j - 1] != ','
  {
    i := if |s| > 0 && s[0] == ',' then 1 else 0;
    var t := s[i..];
    if |t| > 0 && t[|t| - 1] == ',' {
      j := |s| - 1;
    } else {
      if |t| >= 2 {
        assert t[|t| - 1] == s[|s| - 1];
      }
      j := |s|;
    }
  }

  /** After Commas only digits, `-` and `,` are left. */
  lemma {:induction false} CommasKept(s: string)
    ensures |Commas(s)| == |s|
    ensures forall k :: 0 <= k < |s| ==> IsKept(Commas(s)[k])
    ensures forall k :: 0 <= k < |s| ==> IsKept(s[k]) ==> Commas(s)[k] == s[k]
  {
  }

  /** A line without a doubled comma is left as it is by Collapse. */
  lemma {:induction false} CollapseKeeps(s: string)
    requires NoDoubleComma(s)
    ensures Collapse(s) == s
    decreases |s|
  {
    if |s| >= 2 {
      assert NoDoubleComma(s[1..]) by {
        forall k | 0 <= k < |s[1..]| - 1 ensures !(s[1..][k] == ',' && s[1..][k + 1] == ',') {
          assert s[1..][k] == s[k + 1] && s[1..][k + 1] == s[k + 2];
        }
      }
      CollapseKeeps(s[1..]);
      assert s == [s[0]] + s[1..];
    }
  }

  /** The ASCII digits, `-` and `,` are never whitespace. */
  lemma {:induction false} KeptIsNoSpace(cc: CharClasses, c: char)
    requires Sound(cc) && IsKept(c)
    ensures !cc.isSpace(c)
  {
    assert c < '\U{80}';
  }

  // ---------------------------------------------------------------------
  // Properties of a cleaned line
  // ---------------------------------------------------------------------

  /** Before the edges are trimmed the line holds only `[0-9-,]` and no doubled comma. */
  lemma {:induction false} Collapsed(cc: CharClasses, line: string)
    ensures var c := Collapse(Commas(Strip(cc, line)));
      && (forall k :: 0 <= k < |c| ==> IsKept(c[k]))
      && NoDoubleComma(c)
  {
    var m := Commas(Strip(cc, line));
    CommasKept(Strip(cc, line));
    CollapseChars(m);
    CollapseNoDoubleComma(m);
    var c := Collapse(m);
    forall k | 0 <= k < |c| ensures IsKept(c[k]) {
      var j :| 0 <= j < |m| && m[j] == c[k];
    }
  }

  /** A cleaned line holds only ASCII digits, `-` and `,`. */
  lemma {:induction false} CleanCharset(cc: CharClasses, line: string)
    ensures forall k :: 0 <= k < |Clean(cc, line)| ==> IsKept(Clean(cc, line)[k])
  {
    Collapsed(cc, line);
    var i, j := TrimEdgesSlice(Collapse(Commas(Strip(cc, line))));
  }

  /** A cleaned line has no doubled comma. */
  lemma {:induction false} CleanNoDoubleComma(cc: CharClasses, line: string)
    ensures NoDoubleComma(Clean(cc, line))
  {
    Collapsed(cc, line);
    var c := Collapse(Commas(Strip(cc, line)));
    var i, j := TrimEdgesSlice(c);
    var r := c[i..j];
    forall k | 0 <= k < |r| - 1 ensures !(r[k] == ',' && r[k + 1] == ',') {
      assert r[k] == c[i + k] && r[k + 1] == c[i + k + 1];
    }
  }

  /** A cleaned line neither starts nor ends with a comma. */
  lemma {:induction false} CleanEdges(cc: CharClasses, line: string)
    ensures var r := Clean(cc, line); |r| > 0 ==> r[0] != ',' && r[|r| - 1] != ','
  {
    Collapsed(cc, line);
    var c := Collapse(Commas(Strip(cc, line)));
    var i, j := TrimEdgesSlice(c);
    var r := c[i..j];
    if |r| > 0 {
      assert r[0] == c[i] && r[|r| - 1] == c[j - 1];
    }
  }

  // ---------------------------------------------------------------------
  // Preservation: the numbers' characters survive in order
  // ---------------------------------------------------------------------

  /** The digits and minus signs of s, in order. */
  function Numeric(s: string): string
  {
    if |s| == 0 then "" else (if IsNumberChar(s[0]) then [s[0]] else "") + Numeric(s[1..])
  }

  lemma {:induction false} NumericConcat(x: string, y: string)
    ensures Numeric(x + y) == Numeric(x) + Numeric(y)
    decreases |x|
  {
    if |x| > 0 {
      assert (x + y)[0] == x[0] && (x + y)[1..] == x[1..] + y;
      NumericConcat(x[1..], y);
    } else {
      assert x + y == y;
    }
  }

  lemma {:induction false} NumericNone(s: string)
    requires forall k :: 0 <= k < |s| ==> !IsNumberChar(s[k])
    ensures Numeric(s) == ""
    decreases |s|
  {
    if |s| > 0 {
      NumericNone(s[1..]);
    }
  }

  /** Cutting a head that holds no number character keeps the numbers' characters. */
  lemma {:induction false} NumericDropHead(s: string, i: nat)
    requires i <= |s|
    requires forall k :: 0 <= k < i ==> !IsNumberChar(s[k])
    ensures Numeric(s[i..]) == Numeric(s)
  {
    assert Numeric(s[..i]) == "" by {
      assert forall k :: 0 <= k < i ==> s[..i][k] == s[k];
      NumericNone(s[..i]);
    }
    assert s == s[..i] + s[i..];
    NumericConcat(s[..i], s[i..]);
  }

  /** Cutting a tail that holds no number character keeps the numbers' characters. */
  lemma {:induction false} NumericDropTail(s: string, j: nat)
    requires j <= |s|
    requires forall k :: j <= k < |s| ==> !IsNumberChar(s[k])
    ensures Numeric(s[..j]) == Numeric(s)
  {
    assert Numeric(s[j..]) == "" by {
      assert forall k :: 0 <= k < |s| - j ==> s[j..][k] == s[j + k];
      NumericNone(s[j..]);
    }
    assert s == s[..j] + s[j..];
    NumericConcat(s[..j], s[j..]);
  }

  /** Cutting characters that belong to no number from both ends keeps the numbers' characters. */
  lemma {:induction false} NumericOfSlice(s: string, i: nat, j: nat)
    requires i <= j <= |s|
    requires forall k :: 0 <= k < i ==> !IsNumberChar(s[k])
    requires forall k :: j <= k < |s| ==> !IsNumberChar(s[k])
    ensures Numeric(s[i..j]) == Numeric(s)
  {
    NumericDropTail(s, j);
    NumericDropHead(s[..j], i);
    assert s[..j][i..] == s[i..j];
  }

  lemma {:induction false} NumericCommas(s: string)
    ensures Numeric(Commas(s)) == Numeric(s)
    decreases |s|
  {
    if |s| > 0 {
      NumericCommas(s[1..]);
      assert Commas(s)[1..] == Commas(s[1..]);
    }
  }

  lemma {:induction false} NumericCollapse(s: string)
    ensures Numeric(Collapse(s)) == Numeric(s)
    decreases |s|
  {
    if |s| >= 2 {
      NumericCollapse(s[1..]);
      if !(s[0] == ',' && s[1] == ',') {
        assert ([s[0]] + Collapse(s[1..]))[1..] == Collapse(s[1..]);
      }
    }
  }

  /**
   * Cleaning only turns separators into commas and drops commas: removing
   * the commas from the result gives exactly the line's digits and minus
   * signs, in their order.
   */
  lemma {:induction false} CleanKeepsNumbers(cc: CharClasses, line: string)
    requires Sound(cc)
    ensures Numeric(Clean(cc, line)) == Numeric(line)
  {
    StripKeepsNumbers(cc, line);
    var m := Commas(Strip(cc, line));
    NumericCommas(Strip(cc, line));
    NumericCollapse(m);
    Collapsed(cc, line);
    TrimKeepsNumbers(Collapse(m));
  }

  /** Strip cuts only whitespace, which holds no number character. */
  lemma {:induction false} StripKeepsNumbers(cc: CharClasses, line: string)
    requires Sound(cc)
    ensures Numeric(Strip(cc, line)) == Numeric(line)
  {
    var a, b := StripSlice(cc, line);
    forall k | 0 <= k < |line| && cc.isSpace(line[k]) ensures !IsNumberChar(line[k]) {
      if IsNumberChar(line[k]) {
        KeptIsNoSpace(cc, line[k]);
      }
    }
    NumericOfSlice(line, a, b);
  }

  /** TrimEdges cuts only commas. */
  lemma {:induction false} TrimKeepsNumbers(c: string)
    requires forall k :: 0 <= k < |c| ==> IsKept(c[k])
    ensures Numeric(TrimEdges(c)) == Numeric(c)
  {
    var i, j := TrimEdgesSlice(c);
    NumericOfSlice(c, i, j);
  }

  /** Cleaning a cleaned line changes nothing. */
  lemma {:induction false} CleanIdempotent(cc: CharClasses, line: string)
    requires Sound(cc)
    ensures Clean(cc, Clean(cc, line)) == Clean(cc, line)
  {
    CleanCharset(cc, line);
    CleanNoDoubleComma(cc, line);
    CleanEdges(cc, line);
    CleanFixed(cc, Clean(cc, line));
  }

  /** A line of digits, `-` and single inner commas is already clean. */
  lemma {:induction false} CleanFixed(cc: CharClasses, r: string)
    requires Sound(cc)
    requires forall k :: 0 <= k < |r| ==> IsKept(r[k])
    requires NoDoubleComma(r)
    requires |r| > 0 ==> r[0] != ',' && r[|r| - 1] != ','
    ensures Clean(cc, r) == r
  {
    if |r| > 0 {
      KeptIsNoSpace(cc, r[0]);
      KeptIsNoSpace(cc, r[|r| - 1]);
    }
    assert Strip(cc, r) == r by {
      StripKeeps(cc, r);
    }
    assert Commas(r) == r by {
      CommasKept(r);
    }
    assert Collapse(r) == r by {
      CollapseKeeps(r);
    }
    assert TrimEdges(r) == r by {
      var i, j := TrimEdgesSlice(r);
      assert r[i..j] == r;
    }
  }

  // ---------------------------------------------------------------------
  // The generator's lines clean to the numbers
  // ---------------------------------------------------------------------

  /** The separators `main` passes to `create_err_file`. */
  const Separators: seq<char> := [',', ';', '.']

  /** One number of a generated line with the separator drawn before and after it. */
  datatype Field = Field(before: char, n: int, after: char)

  /** The record `create_err_file` writes: each number between its two separators, then stripped. */
  function Record(cc: CharClasses, fs: seq<Field>): string
  {
    Strip(cc, Fields(fs))
  }

  function Fields(fs: seq<Field>): string
  {
    if |fs| == 0 then "" else [fs[0].before] + IntToString(fs[0].n) + [fs[0].after] + Fields(fs[1..])
  }

  /** The numbers of the record as `str` writes them. */
  function Numbers(fs: seq<Field>): (r: seq<string>)
    ensures |r| == |fs|
  {
    seq(|fs|, k requires 0 <= k < |fs| => IntToString(fs[k].n))
  }

  /** Each number wrapped in commas, one after another. */
  function Wrapped(ws: seq<string>): string
  {
    if |ws| == 0 then "" else "," + ws[0] + "," + Wrapped(ws[1..])
  }

  lemma {:induction false} CommasConcat(x: string, y: string)
    ensures Commas(x + y) == Commas(x) + Commas(y)
  {
  }

  /** A number's text is left alone by Commas. */
  lemma {:induction false} CommasKeepNumber(n: int)
    ensures Commas(IntToString(n)) == IntToString(n)
  {
  }

  lemma {:induction false} CommasOfFields(fs: seq<Field>)
    requires forall k :: 0 <= k < |fs| ==> fs[k].before in Separators && fs[k].after in Separators
    ensures Commas(Fields(fs)) == Wrapped(Numbers(fs))
    decreases |fs|
  {
    if |fs| > 0 {
      var head := [fs[0].before] + IntToString(fs[0].n) + [fs[0].after];
      assert Fields(fs) == head + Fields(fs[1..]);
      CommasOfFields(fs[1..]);
      CommasConcat(head, Fields(fs[1..]));
      CommasOfField(fs[0]);
      var ws := Numbers(fs);
      assert ws[0] == IntToString(fs[0].n) && ws[1..] == Numbers(fs[1..]);
      assert Wrapped(ws) == "," + ws[0] + "," + Wrapped(ws[1..]);
    }
  }

  /** One field's separators become commas around its number. */
  lemma {:induction false} CommasOfField(f: Field)
    requires f.before in Separators && f.after in Separators
    ensures Commas([f.before] + IntToString(f.n) + [f.after]) == "," + IntToString(f.n) + ","
  {
    var w := IntToString(f.n);
    CommasConcat([f.before] + w, [f.after]);
    CommasConcat([f.before], w);
    CommasKeepNumber(f.n);
  }

  /** A comma-free head passes through Collapse unchanged. */
  lemma {:induction false} CollapseSkipsWord(w: string, s: string)
    requires forall k :: 0 <= k < |w| ==> w[k] != ','
    ensures Collapse(w + s) == w + Collapse(s)
    decreases |w|
  {
    if |w| == 0 {
      assert w + s == s;
    } else {
      CollapseSkipsWord(w[1..], s);
      HeadAndRest(w, s);
      CollapseKeepsHead(w[0], w[1..] + s);
      HeadAndRest(w, Collapse(s));
    }
  }

  lemma {:induction false} HeadAndRest(w: string, t: string)
    requires |w| > 0
    ensures w + t == [w[0]] + (w[1..] + t)
  {
    assert w == [w[0]] + w[1..];
  }

  /** A first character that does not start a run of commas stays in front. */
  lemma {:induction false} CollapseKeepsHead(c: char, t: string)
    requires c != ',' || (|t| > 0 && t[0] != ',')
    ensures Collapse([c] + t) == [c] + Collapse(t)
  {
    var x := [c] + t;
    assert x[0] == c && x[1..] == t;
    if |t| == 0 {
      assert x == [c];
    }
  }

  /** Wrapped numbers collapse to the numbers joined by commas, with a comma at each end. */
  lemma {:induction false} CollapseWrapped(ws: seq<string>)
    requires |ws| > 0
    requires forall k :: 0 <= k < |ws| ==> |ws[k]| > 0 && forall j :: 0 <= j < |ws[k]| ==> ws[k][j] != ','
    ensures Collapse(Wrapped(ws)) == "," + Join(",", ws) + ","
    decreases |ws|
  {
    var w := ws[0];
    var rest := Wrapped(ws[1..]);
    CollapseFirst(w, rest);
    assert Wrapped(ws) == "," + w + "," + rest;
    CollapseTail(ws[1..]);
    if |ws| > 1 {
      CollapseWrapped(ws[1..]);
      var jn := Join(",", ws[1..]);
      assert Join(",", ws) == w + "," + jn;
      calc {
        Collapse(Wrapped(ws));
        "," + w + Collapse("," + rest);
        "," + w + ("," + jn + ",");
        { AppendFour(",", w, ",", jn, ","); }
        "," + (w + "," + jn) + ",";
      }
    }
  }

  /** Regrouping a concatenation of five strings. */
  lemma {:induction false} AppendFour(a: string, b: string, c: string, d: string, e: string)
    ensures a + b + (c + d + e) == a + (b + c + d) + e
  {
  }

  /** The comma before a comma-free number stays, and the number passes through. */
  lemma {:induction false} CollapseFirst(w: string, rest: string)
    requires |w| > 0 && forall j :: 0 <= j < |w| ==> w[j] != ','
    ensures Collapse("," + w + "," + rest) == "," + w + Collapse("," + rest)
  {
    var t := w + ("," + rest);
    RegroupFour(",", w, ",", rest);
    assert t[0] == w[0];
    CollapseKeepsHead(',', t);
    CollapseSkipsWord(w, "," + rest);
    Regroup(",", w, Collapse("," + rest));
  }

  lemma {:induction false} Regroup(a: string, b: string, c: string)
    ensures a + b + c == a + (b + c)
  {
  }

  lemma {:induction false} RegroupFour(a: string, b: string, c: string, d: string)
    ensures a + b + c + d == a + (b + (c + d))
  {
  }

  /** The comma that ends a wrapped number merges with the one that opens the next. */
  lemma {:induction false} CollapseTail(ws: seq<string>)
    ensures Collapse("," + Wrapped(ws)) == if |ws| == 0 then "," else Collapse(Wrapped(ws))
  {
    var t := "," + Wrapped(ws);
    if |ws| > 0 {
      assert Wrapped(ws) == "," + ws[0] + "," + Wrapped(ws[1..]);
      assert t[0] == ',' && t[1] == ',' && t[1..] == Wrapped(ws);
    } else {
      assert t == ",";
    }
  }

  /**
   * A line built as `create_err_file` builds it (each number between two
   * separators drawn from `, ; .`) cleans to its numbers joined by commas.
   */
  lemma {:induction false} CleanRecord(cc: CharClasses, fs: seq<Field>)
    requires Sound(cc)
    requires forall k :: 0 <= k < |fs| ==> fs[k].before in Separators && fs[k].after in Separators
    ensures Clean(cc, Record(cc, fs)) == Join(",", Numbers(fs))
  {
    var s := Fields(fs);
    FieldsUnstripped(cc, fs);
    assert Strip(cc, Record(cc, fs)) == s;
    CommasOfFields(fs);
    var ws := Numbers(fs);
    if |fs| > 0 {
      NumbersAreWords(fs);
      CollapseWrapped(ws);
      TrimWrapped(ws);
    }
  }

  /** The generated fields open and close with a separator, so strip leaves them (and the record) alone. */
  lemma {:induction false} FieldsUnstripped(cc: CharClasses, fs: seq<Field>)
    requires Sound(cc)
    requires forall k :: 0 <= k < |fs| ==> fs[k].before in Separators && fs[k].after in Separators
    ensures Record(cc, fs) == Fields(fs) && Strip(cc, Fields(fs)) == Fields(fs)
  {
    var s := Fields(fs);
    if |fs| > 0 {
      assert s[0] == fs[0].before;
      var last := fs[|fs| - 1];
      assert s[|s| - 1] == last.after by { FieldsEnd(fs); }
      assert !cc.isSpace(s[0]) && !cc.isSpace(s[|s| - 1]) by {
        assert s[0] < '\U{80}' && s[|s| - 1] < '\U{80}';
      }
    }
    StripKeeps(cc, s);
  }

  /** Every number's text is non-empty and holds no comma. */
  lemma {:induction false} NumbersAreWords(fs: seq<Field>)
    ensures forall k :: 0 <= k < |Numbers(fs)| ==>
      |Numbers(fs)[k]| > 0 && forall j :: 0 <= j < |Numbers(fs)[k]| ==> Numbers(fs)[k][j] != ','
  {
    var ws := Numbers(fs);
    forall k | 0 <= k < |ws| ensures |ws[k]| > 0 && forall j :: 0 <= j < |ws[k]| ==> ws[k][j] != ',' {
      assert ws[k] == IntToString(fs[k].n);
    }
  }

  /** The comma at each end goes: what is left is the numbers joined by commas. */
  lemma {:induction false} TrimWrapped(ws: seq<string>)
    requires |ws| > 0
    requires forall k :: 0 <= k < |ws| ==> |ws[k]| > 0 && forall j :: 0 <= j < |ws[k]| ==> ws[k][j] != ','
    ensures TrimEdges("," + Join(",", ws) + ",") == Join(",", ws)
  {
    var jn := Join(",", ws);
    JoinStartsAndEnds(ws);
    var c := "," + jn + ",";
    assert c[1..] == jn + "," && (jn + ",")[..|jn|] == jn;
  }

  /** The fields end with the last separator. */
  lemma {:induction false} FieldsEnd(fs: seq<Field>)
    requires |fs| > 0
    ensures |Fields(fs)| > 0 && Fields(fs)[|Fields(fs)| - 1] == fs[|fs| - 1].after
    decreases |fs|
  {
    if |fs| > 1 {
      FieldsEnd(fs[1..]);
    }
  }

  /** Numbers joined by commas neither start nor end with a comma. */
  lemma {:induction false} JoinStartsAndEnds(ws: seq<string>)
    requires |ws| > 0
    requires forall k :: 0 <= k < |ws| ==> |ws[k]| > 0 && forall j :: 0 <= j < |ws[k]| ==> ws[k][j] != ','
    ensures var s := Join(",", ws); |s| > 0 && s[0] != ',' && s[|s| - 1] != ','
    decreases |ws|
  {
    if |ws| > 1 {
      JoinStartsAndEnds(ws[1..]);
      assert Join(",", ws) == ws[0] + "," + Join(",", ws[1..]);
    }
  }

  // ---------------------------------------------------------------------
  // check_lines
  // ---------------------------------------------------------------------

  /** The cleaned lines. */
  function CleanAll(cc: CharClasses, lines: seq<string>): (r: seq<string>)
    ensures |r| == |lines|
  {
    seq(|lines|, k requires 0 <= k < |lines| => Clean(cc, lines[k]))
  }

  /** The text of a file with the given lines, each followed by a newline. */
  function Render(lines: seq<string>): string
  {
    if |lines| == 0 then "" else Render(lines[..|lines| - 1]) + lines[|lines| - 1] + "\n"
  }

  /** Reading back a rendered file: one line per line written, then the empty rest after the last newline. */
  lemma {:induction false} RenderSplits(lines: seq<string>, rest: string)
    requires forall k :: 0 <= k < |lines| ==> '\n' !in lines[k]
    ensures Split(Render(lines) + rest, '\n') == lines + Split(rest, '\n')
    decreases |lines|
  {
    if |lines| > 0 {
      var init := lines[..|lines| - 1];
      var last := lines[|lines| - 1];
      RenderSplits(init, last);
      assert Render(lines) + rest == (Render(init) + last) + ['\n'] + rest;
      SplitConcat(Render(init) + last, '\n', rest);
      SplitNoSeparator(last, '\n');
      assert lines == init + [last];
    } else {
      assert Render(lines) + rest == rest;
    }
  }

  /**
   * `check_lines`: every line read is cleaned and written with a newline,
   * so the file read back has exactly one cleaned line per input line, in
   * order.
   */
  method CheckLines(cc: CharClasses, lines: seq<string>) returns (written: string)
    ensures written == Render(CleanAll(cc, lines))
    ensures Split(written, '\n') == CleanAll(cc, lines) + [""]
  {
    written := "";
    var i := 0;
    while i < |lines|
      invariant 0 <= i <= |lines|
      invariant written == Render(CleanAll(cc, lines[..i]))
    {
      assert CleanAll(cc, lines[..i + 1])[..i] == CleanAll(cc, lines[..i]);
      written := written + Clean(cc, lines[i]) + "\n";
      i := i + 1;
    }
    assert lines[..i] == lines;
    var out := CleanAll(cc, lines);
    forall k | 0 <= k < |out| ensures '\n' !in out[k] {
      CleanCharset(cc, lines[k]);
    }
    RenderSplits(out, "");
    assert written + "" == written;
  }
}
