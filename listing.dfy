// The reply the bot sends for a list of findings: one numbered line per item
// ("1. item", "2. item", ...) joined with newlines, or a fixed message when
// nothing was found (telegram_bot.py:392-397 and 428-439).

module Listing {
  import opened Strings

  /** The line for item number k (counted from 0): `f'{k+1}. {item}'`. */
  function NumberedLine(k: nat, item: string): string
  {
    NatToString(k + 1) + ". " + item
  }

  /** One numbered line per item, in order. */
  function NumberedLines(items: seq<string>): (lines: seq<string>)
    ensures |lines| == |items|
    ensures forall k :: 0 <= k < |items| ==> lines[k] == NumberedLine(k, items[k])
  {
    seq(|items|, k requires 0 <= k < |items| => NumberedLine(k, items[k]))
  }

  /** The whole reply: the not-found message for no items, else the numbered lines. */
  function ListReply(items: seq<string>, notFound: string): string
  {
    if |items| == 0 then notFound else Join("\n", NumberedLines(items))
  }

  /**
   * A reader who splits a non-empty reply at newlines gets back one line per
   * item, numbered from 1, each ending with the item verbatim.
   */
  lemma {:induction false} ListReplyLines(items: seq<string>, notFound: string)
    requires |items| > 0
    requires forall k :: 0 <= k < |items| ==> '\n' !in items[k]
    ensures |Split(ListReply(items, notFound), '\n')| == |items|
    ensures forall k :: 0 <= k < |items| ==>
      var line := Split(ListReply(items, notFound), '\n')[k];
      line == NatToString(k + 1) + ". " + items[k]
  {
    var lines := NumberedLines(items);
    forall k | 0 <= k < |lines| ensures '\n' !in lines[k] {
      var d := NatToString(k + 1);
      assert lines[k] == d + ". " + items[k];
      assert forall c :: c in d ==> IsAsciiDigit(c);
    }
    SplitJoin(lines, '\n');
    assert Join("\n", lines) == Join(['\n'], lines);
  }
}
