// What the bot and the login summariser make of a remote command's output
// (telegram_bot.py:500-517, get_ssh_ip_list.py:42): the bytes read back are
// rendered with `str(bytes)`, the escapes `\n` and `\t` are turned back into
// a newline and a tab, the `b'` before and the quote after are sliced off,
// and the text is cut into messages of at most 4096 characters.

module RemoteOutput {
  import opened Strings

  newtype byte = x: int | 0 <= x < 256

  function CharOf(c: byte): char
  {
    (c as int) as char
  }

  /** The bytes read as Latin-1 characters, one per byte. */
  function Chars(b: seq<byte>): (r: string)
    ensures |r| == |b|
    ensures forall k :: 0 <= k < |b| ==> r[k] == CharOf(b[k])
  {
    if |b| == 0 then [] else [CharOf(b[0])] + Chars(b[1..])
  }

  function HexDigit(d: int): char
    requires 0 <= d < 16
  {
    "0123456789abcdef"[d]
  }

  /** How `repr` writes one byte inside quotes `quote`. */
  function EscapeByte(c: byte, quote: char): string
  {
    var ch := CharOf(c);
    if ch == quote || ch == '\\' then ['\\', ch]
    else if ch == '\t' then "\\t"
    else if ch == '\n' then "\\n"
    else if ch == '\r' then "\\r"
    else if c < 0x20 || c >= 0x7f then "\\x" + [HexDigit(c as int / 16), HexDigit(c as int % 16)]
    else [ch]
  }

  function EscapeAll(b: seq<byte>, quote: char): string
  {
    if |b| == 0 then "" else EscapeByte(b[0], quote) + EscapeAll(b[1..], quote)
  }

  /** `repr` quotes with `"` only when the bytes hold a `'` and no `"`. */
  function QuoteFor(b: seq<byte>): char
  {
    if 0x27 in b && 0x22 !in b then '"' else '\''
  }

  /** `str(data)` for a bytes object: `b'...'` with escapes. */
  function BytesRepr(b: seq<byte>): string
  {
    var q := QuoteFor(b);
    "b" + [q] + EscapeAll(b, q) + [q]
  }

  /** Python's `t[2:-1]`: empty when t has fewer than three characters. */
  function Inner(t: string): string
  {
    if |t| >= 3 then t[2..|t| - 1] else ""
  }

  /** `str(data).replace('\\n', '\n').replace('\\t', '\t')[2:-1]` */
  function Normalise(r: string): string
  {
    Inner(ReplaceAll(ReplaceAll(r, "\\n", "\n"), "\\t", "\t"))
  }

  /** What `getStrHostInfo` returns for the bytes of stdout followed by stderr. */
  function HostText(data: seq<byte>): string
  {
    Normalise(BytesRepr(data))
  }

  /** The slice drops exactly the first two and the last character. */
  lemma {:induction false} NormaliseLength(r: string)
    ensures var t := ReplaceAll(ReplaceAll(r, "\\n", "\n"), "\\t", "\t");
      |Normalise(r)| == if |t| >= 3 then |t| - 3 else 0
  {
  }

  /** No escape `\n` or `\t` is left in the text. */
  lemma {:induction false} NormaliseLeavesNoEscapes(r: string)
    ensures !Occurs(Normalise(r), "\\n") && !Occurs(Normalise(r), "\\t")
  {
    var t1 := ReplaceAll(r, "\\n", "\n");
    var t2 := ReplaceAll(t1, "\\t", "\t");
    ReplaceLeavesNoPattern(r, "\\n", "\n");
    ReplaceCreatesNoOccurrence(t1, "\\t", "\t", "\\n");
    ReplaceLeavesNoPattern(t1, "\\t", "\t");
    if |t2| >= 3 {
      SliceKeepsAbsence(t2, 2, |t2| - 1, "\\n");
      SliceKeepsAbsence(t2, 2, |t2| - 1, "\\t");
    } else {
      assert Normalise(r) == "";
      assert forall k: nat :: !OccursAt("", "\\n", k) && !OccursAt("", "\\t", k);
    }
  }

  /**
   * A byte `repr` writes as itself or as one of the escapes the normaliser
   * undoes: printable ASCII other than a backslash and a quote, a newline or
   * a tab.
   */
  predicate IsPlain(c: byte)
  {
    (0x20 <= c < 0x7f && c != 0x5c && c != 0x27) || c == 0x0a || c == 0x09
  }

  /** The text after the first replacement: tabs still escaped. */
  function TabsEscaped(b: seq<byte>): string
  {
    if |b| == 0 then ""
    else (if b[0] == 0x09 then "\\t" else [CharOf(b[0])]) + TabsEscaped(b[1..])
  }

  /** One plain byte through the first replacement. */
  lemma {:induction false} FirstPassHead(c: byte, rest: string)
    requires IsPlain(c)
    ensures ReplaceAll(EscapeByte(c, '\'') + rest, "\\n", "\n")
      == (if c == 0x09 then "\\t" else [CharOf(c)]) + ReplaceAll(rest, "\\n", "\n")
  {
    if c == 0x0a {
      ReplaceTakes(rest, "\\n", "\n");
    } else if c == 0x09 {
      assert EscapeByte(c, '\'') + rest == ['\\'] + (['t'] + rest);
      assert ReplaceAll(['\\'] + (['t'] + rest), "\\n", "\n") == ['\\'] + ReplaceAll(['t'] + rest, "\\n", "\n");
      ReplaceSkips('t', rest, "\\n", "\n");
      assert ['\\'] + (['t'] + ReplaceAll(rest, "\\n", "\n")) == "\\t" + ReplaceAll(rest, "\\n", "\n");
    } else {
      assert EscapeByte(c, '\'') == [CharOf(c)];
      ReplaceSkips(CharOf(c), rest, "\\n", "\n");
    }
  }

  lemma {:induction false} FirstPass(b: seq<byte>)
    requires forall k :: 0 <= k < |b| ==> IsPlain(b[k])
    ensures ReplaceAll(EscapeAll(b, '\'') + "'", "\\n", "\n") == TabsEscaped(b) + "'"
    decreases |b|
  {
    if |b| == 0 {
      assert EscapeAll(b, '\'') + "'" == "'";
    } else {
      var rest := EscapeAll(b[1..], '\'') + "'";
      FirstPass(b[1..]);
      assert EscapeAll(b, '\'') + "'" == EscapeByte(b[0], '\'') + rest;
      FirstPassHead(b[0], rest);
      var h := if b[0] == 0x09 then "\\t" else [CharOf(b[0])];
      assert TabsEscaped(b) + "'" == h + (TabsEscaped(b[1..]) + "'");
    }
  }

  lemma {:induction false} SecondPass(b: seq<byte>)
    requires forall k :: 0 <= k < |b| ==> IsPlain(b[k])
    ensures ReplaceAll(TabsEscaped(b) + "'", "\\t", "\t") == Chars(b) + "'"
    decreases |b|
  {
    if |b| == 0 {
      assert TabsEscaped(b) + "'" == "'";
    } else {
      var rest := TabsEscaped(b[1..]) + "'";
      SecondPass(b[1..]);
      var c := b[0];
      if c == 0x09 {
        assert TabsEscaped(b) + "'" == "\\t" + rest;
        ReplaceTakes(rest, "\\t", "\t");
      } else {
        assert TabsEscaped(b) + "'" == [CharOf(c)] + rest;
        ReplaceSkips(CharOf(c), rest, "\\t", "\t");
      }
      assert Chars(b) + "'" == [CharOf(c)] + (Chars(b[1..]) + "'");
    }
  }

  lemma {:induction false} PlainQuote(b: seq<byte>)
    requires forall k :: 0 <= k < |b| ==> IsPlain(b[k])
    ensures QuoteFor(b) == '\''
  {
    assert forall k :: 0 <= k < |b| ==> b[k] != 0x27;
  }

  lemma {:induction false} PlainRepr(b: seq<byte>)
    requires forall k :: 0 <= k < |b| ==> IsPlain(b[k])
    ensures BytesRepr(b) == ['b'] + (['\''] + (EscapeAll(b, '\'') + "'"))
  {
    PlainQuote(b);
    var e := EscapeAll(b, '\'');
    assert "b" + ['\''] + e + ['\''] == ['b'] + (['\''] + (e + "'"));
  }

  /** Neither `b` nor the quote starts an escape, so both passes leave them be. */
  lemma {:induction false} PassesSkipPrefix(x: string, pat: string, rep: string)
    requires pat == "\\n" || pat == "\\t"
    ensures ReplaceAll(['b'] + (['\''] + x), pat, rep) == ['b'] + (['\''] + ReplaceAll(x, pat, rep))
  {
    ReplaceSkips('\'', x, pat, rep);
    ReplaceSkips('b', ['\''] + x, pat, rep);
  }

  lemma {:induction false} ReprFirstPass(b: seq<byte>)
    requires forall k :: 0 <= k < |b| ==> IsPlain(b[k])
    ensures ReplaceAll(BytesRepr(b), "\\n", "\n") == ['b'] + (['\''] + (TabsEscaped(b) + "'"))
  {
    PlainRepr(b);
    FirstPass(b);
    PassesSkipPrefix(EscapeAll(b, '\'') + "'", "\\n", "\n");
  }

  lemma {:induction false} ReprSecondPass(b: seq<byte>)
    requires forall k :: 0 <= k < |b| ==> IsPlain(b[k])
    ensures ReplaceAll(['b'] + (['\''] + (TabsEscaped(b) + "'")), "\\t", "\t") == ['b'] + (['\''] + (Chars(b) + "'"))
  {
    SecondPass(b);
    PassesSkipPrefix(TabsEscaped(b) + "'", "\\t", "\t");
  }

  /** The slice takes back exactly what sits between `b'` and the closing quote. */
  lemma {:induction false} InnerOfWrapped(x: string)
    ensures Inner(['b'] + (['\''] + (x + "'"))) == x
  {
    var t := ['b'] + (['\''] + (x + "'"));
    assert t[2..|t| - 1] == x;
  }

  /**
   * For output made of printable ASCII, newlines and tabs (no backslash, no
   * single quote), the bot shows exactly the bytes that were read.
   */
  lemma {:induction false} PlainOutputRoundTrip(b: seq<byte>)
    requires forall k :: 0 <= k < |b| ==> IsPlain(b[k])
    ensures HostText(b) == Chars(b)
  {
    ReprFirstPass(b);
    ReprSecondPass(b);
    InnerOfWrapped(Chars(b));
  }

  /** A backslash in the output comes back doubled: `repr` escapes it and no replacement undoes that. */
  lemma {:induction false} BackslashDoubled()
    ensures HostText([0x5c]) == "\\\\"
  {
    var r := BytesRepr([0x5c]);
    assert EscapeAll([0x5c], '\'') == "\\\\";
    assert r == "b'\\\\'";
    assert ReplaceAll(r, "\\n", "\n") == r;
    assert ReplaceAll(r, "\\t", "\t") == r;
  }

  /** The first pass keeps an escaping backslash and turns the `\n` after it into a newline. */
  lemma {:induction false} EscapedBackslashThenN(t: string)
    ensures ReplaceAll("\\" + ("\\n" + t), "\\n", "\n") == "\\" + ("\n" + ReplaceAll(t, "\\n", "\n"))
  {
    var s := "\\" + ("\\n" + t);
    assert s[1] == '\\' && s[1..] == "\\n" + t;
    assert s[..2] != "\\n";
    ReplaceTakes(t, "\\n", "\n");
  }

  /** A backslash followed by `n` comes back as a backslash and a newline. */
  lemma {:induction false} BackslashBeforeN()
    ensures HostText([0x5c, 0x6e]) == "\\\n"
  {
    var r := BytesRepr([0x5c, 0x6e]);
    assert EscapeAll([0x5c, 0x6e], '\'') == "\\" + "\\n";
    assert r == "b" + ("'" + ("\\" + ("\\n" + "'")));
    ReplaceSkips('b', "'" + ("\\" + ("\\n" + "'")), "\\n", "\n");
    ReplaceSkips('\'', "\\" + ("\\n" + "'"), "\\n", "\n");
    EscapedBackslashThenN("'");
    var r1 := "b" + ("'" + ("\\" + ("\n" + "'")));
    assert ReplaceAll(r, "\\n", "\n") == r1;
    forall k: nat ensures !OccursAt(r1, "\\t", k) {
      if k + 2 <= |r1| {
        assert r1[k..k + 2][1] == r1[k + 1];
      }
    }
    ReplaceAbsent(r1, "\\t", "\t");
    assert Inner(r1) == "\\\n";
  }

  /** A `'` in output that also holds a `"` stays escaped as `\'`. */
  lemma {:induction false} QuoteStaysEscaped()
    ensures HostText([0x27, 0x22]) == "\\'\""
  {
    var r := BytesRepr([0x27, 0x22]);
    assert EscapeAll([0x27, 0x22], '\'') == "\\'\"";
    assert r == "b'\\'\"'";
    forall k: nat ensures !OccursAt(r, "\\n", k) && !OccursAt(r, "\\t", k) {
      if k + 2 <= |r| {
        assert r[k..k + 2][1] == r[k + 1];
      }
    }
    ReplaceAbsent(r, "\\n", "\n");
    ReplaceAbsent(r, "\\t", "\t");
  }

  /** Telegram's limit on the length of one message. */
  const MaxLength := 4096

  /** `[data[i:i + 4096] for i in range(0, len(data), 4096)]` */
  function Chunks(data: string): (parts: seq<string>)
    ensures Join("", parts) == data
    ensures |parts| == (|data| + MaxLength - 1) / MaxLength
    ensures forall k :: 0 <= k < |parts| ==> 0 < |parts[k]| <= MaxLength
    ensures forall k :: 0 <= k < |parts| - 1 ==> |parts[k]| == MaxLength
    decreases |data|
  {
    if |data| == 0 then []
    else if |data| <= MaxLength then [data]
    else
      var rest := Chunks(data[MaxLength..]);
      assert Join("", [data[..MaxLength]] + rest) == data[..MaxLength] + Join("", rest);
      [data[..MaxLength]] + rest
  }

  /** `getListHostInfo`: the host text cut into messages. */
  function HostParts(data: seq<byte>): seq<string>
  {
    Chunks(HostText(data))
  }

  /**
   * `command_GetCritical`: only the last part of the journal excerpt is used;
   * `nautilus` is rewritten to `sevsu` left to right and the text split at
   * newlines. With no part at all, `text[-1]` raises IndexError: `None`.
   */
  function CriticalPieces(parts: seq<string>): Option<seq<string>>
  {
    if |parts| == 0 then None
    else Some(Split(ReplaceAll(parts[|parts| - 1], "nautilus", "sevsu"), '\n'))
  }

  /** The pieces are the rewritten last part, cut at its newlines. */
  lemma {:induction false} CriticalPiecesRejoin(parts: seq<string>)
    ensures CriticalPieces(parts).None? <==> |parts| == 0
    ensures |parts| > 0 ==>
      && Join("\n", CriticalPieces(parts).value) == ReplaceAll(parts[|parts| - 1], "nautilus", "sevsu")
      && forall k :: 0 <= k < |CriticalPieces(parts).value| ==> '\n' !in CriticalPieces(parts).value[k]
  {
    if |parts| > 0 {
      JoinSplit(ReplaceAll(parts[|parts| - 1], "nautilus", "sevsu"), '\n');
    }
  }
}
