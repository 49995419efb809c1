/** What becomes of one quotation mark left unescaped in a string of otherwise well-formed JSON. */
module InnerQuotes {
  import opened Wrappers
  import opened Text
  import opened JsonText
  import ControlRepair
  import opened QuoteRepair
  import opened LineBreaks

  // ---------------------------------------------------------------- what is seen past a place

  /** Whitespace aside, only the first characters up to a visible one decide what is seen next. */
  lemma {:induction false} SeenUpTo(a: string, mark: char, x: string, y: string)
    requires !IsSpace(mark)
    ensures FirstVisible(a + [mark] + x) == FirstVisible(a + [mark] + y)
  {
    if a == "" {
      assert a + [mark] + x == [mark] + x && a + [mark] + y == [mark] + y;
    } else {
      assert (a + [mark] + x)[1..] == a[1..] + [mark] + x && (a + [mark] + y)[1..] == a[1..] + [mark] + y;
      SeenUpTo(a[1..], mark, x, y);
    }
  }

  /** Up to the opening quotation mark of some string the scanner copies what it reads. */
  lemma {:induction false} CopiedUpTo(a: string, x: string, y: string, mode: Mode)
    requires Settled(a + "\"" + x, mode) && ModeAfter(a, mode) == Outside
    ensures RepairedQuotes(a + "\"" + y, mode) == a + "\"" + RepairedQuotes(y, Inside)
  {
    if a == "" {
      assert a + "\"" + y == "\"" + y;
      assert ("\"" + y)[1..] == y;
    } else {
      var c, rest := a[0], a[1..];
      assert (a + "\"" + x)[1..] == rest + "\"" + x;
      assert (a + "\"" + y)[1..] == rest + "\"" + y;
      SeenUpTo(rest, '"', x, y);
      CopiedUpTo(rest, x, y, ControlRepair.NextMode(c, mode));
      OneIsCopied(c, rest + "\"" + y, mode);
      Prepended(c, rest, RepairedQuotes(y, Inside));
      assert a == [c] + rest;
    }
  }

  lemma OneIsCopied(c: char, rest: string, mode: Mode)
    requires mode == Inside && c == '"' ==> EndsString(FirstVisible(rest))
    ensures RepairedQuotes([c] + rest, mode) == [c] + RepairedQuotes(rest, ControlRepair.NextMode(c, mode))
  {
    assert ([c] + rest)[1..] == rest;
  }

  lemma Prepended(c: char, a: string, b: string)
    ensures [c] + (a + "\"" + b) == [c] + a + "\"" + b
  {
  }

  // ---------------------------------------------------------------- inside the string

  lemma {:induction false} PlainIsCopied(plain: string, rest: string)
    requires forall i :: 0 <= i < |plain| ==> IsUnescaped(plain[i])
    ensures RepairedQuotes(plain + rest, Inside) == plain + RepairedQuotes(rest, Inside)
  {
    if plain == "" {
      assert plain + rest == rest;
    } else {
      FirstOf(plain, rest);
      FirstOf(plain, RepairedQuotes(rest, Inside));
      OneIsCopied(plain[0], plain[1..] + rest, Inside);
      PlainIsCopied(plain[1..], rest);
    }
  }

  lemma PairIsCopied(e: char, rest: string)
    ensures RepairedQuotes(['\\', e] + rest, Inside) == ['\\', e] + RepairedQuotes(rest, Inside)
  {
    OneIsCopied('\\', [e] + rest, Inside);
    OneIsCopied(e, rest, Escaping);
    assert ['\\', e] + rest == ['\\'] + ([e] + rest);
    assert ['\\', e] + RepairedQuotes(rest, Inside) == ['\\'] + ([e] + RepairedQuotes(rest, Inside));
  }

  lemma CharIsCopied(c: StrChar, rest: string)
    ensures RepairedQuotes(PrintStrChar(c) + rest, Inside) == PrintStrChar(c) + RepairedQuotes(rest, Inside)
  {
    match c
    case Plain(p) => PlainIsCopied([p], rest);
    case Escaped(e) => PairIsCopied(e, rest);
    case CodeUnit(h1, h2, h3, h4) =>
      var hex := [h1, h2, h3, h4];
      PairIsCopied('u', hex + rest);
      PlainIsCopied(hex, rest);
      assert PrintStrChar(c) + rest == ['\\', 'u'] + (hex + rest);
      assert PrintStrChar(c) + RepairedQuotes(rest, Inside) == ['\\', 'u'] + (hex + RepairedQuotes(rest, Inside));
  }

  lemma {:induction false} CharsAreCopied(cs: seq<StrChar>, rest: string)
    ensures RepairedQuotes(PrintStrChars(cs) + rest, Inside) == PrintStrChars(cs) + RepairedQuotes(rest, Inside)
  {
    if cs == [] {
      assert PrintStrChars(cs) + rest == rest;
    } else {
      var first, others := PrintStrChar(cs[0]), PrintStrChars(cs[1..]);
      CharIsCopied(cs[0], others + rest);
      CharsAreCopied(cs[1..], rest);
      Appended(first, others, rest);
      Appended(first, others, RepairedQuotes(rest, Inside));
    }
  }

  // ---------------------------------------------------------------- the whole text

  /** The rest of well-formed JSON, from inside a string on, is as it should be. */
  lemma RestIsSettled(prefix: string, head: seq<StrChar>, tail: seq<StrChar>, rest: string)
    requires ModeAfter(prefix, Outside) == Outside && Settled(prefix + PrintString(head + tail) + rest, Outside)
    ensures Settled(PrintStrChars(tail) + "\"" + rest, Inside)
  {
    PrintBoth(head, tail);
    StandsInside(prefix, head);
    Rejoined(prefix, PrintStrChars(head), "", PrintStrChars(tail), rest);
    NothingBetween(PrintStrChars(head), PrintStrChars(tail), rest);
    SettledTail(prefix + "\"" + PrintStrChars(head), PrintStrChars(tail) + "\"" + rest, Outside);
  }

  lemma OpeningIsSettled(prefix: string, cs: seq<StrChar>, rest: string)
    requires Settled(prefix + PrintString(cs) + rest, Outside)
    ensures Settled(prefix + "\"" + (PrintStrChars(cs) + "\"" + rest), Outside)
  {
    Opening(prefix, PrintStrChars(cs), rest);
  }

  lemma Opening(prefix: string, chars: string, rest: string)
    ensures prefix + ("\"" + chars + "\"") + rest == prefix + "\"" + (chars + "\"" + rest)
  {
  }

  /** Up to the stray mark everything is copied; the mark is copied or escaped by what is seen next. */
  lemma OnTheMark(prefix: string, head: seq<StrChar>, x: string, left: string)
    requires Settled(prefix + "\"" + x, Outside) && ModeAfter(prefix, Outside) == Outside
    ensures RepairedQuotes(prefix + "\"" + (PrintStrChars(head) + ("\"" + left)), Outside) ==
            prefix + "\"" + (PrintStrChars(head) +
              (if EndsString(FirstVisible(left)) then "\"" + RepairedQuotes(left, Outside) else "\\\"" + RepairedQuotes(left, Inside)))
  {
    CopiedUpTo(prefix, x, PrintStrChars(head) + ("\"" + left), Outside);
    CharsAreCopied(head, "\"" + left);
    assert ("\"" + left)[1..] == left;
  }

  /** Of what may follow, only a colon, a comma or a closing bracket can come next inside the string. */
  lemma NextInside(tail: seq<StrChar>, rest: string)
    ensures EndsString(FirstVisible(PrintStrChars(tail) + "\"" + rest)) <==>
              FirstSeen(tail).Some? && FirstSeen(tail).value in {Plain(':'), Plain(','), Plain('}'), Plain(']')}
  {
    SeenFirst(tail, rest);
  }

  /**
   A quotation mark left unescaped anywhere inside some string is escaped, unless a colon, a comma or a closing brace
   or bracket comes next, whitespace aside: then it is taken for the end of the string.
   */
  lemma InnerQuoteIsEscaped(prefix: string, head: seq<StrChar>, tail: seq<StrChar>, rest: string)
    requires IsJsonAround(prefix, head + tail, rest)
    ensures var left := PrintStrChars(tail) + "\"" + rest;
            var repaired := RepairedQuotes(prefix + "\"" + (PrintStrChars(head) + ("\"" + left)), Outside);
            var next := FirstSeen(tail);
            if next.Some? && next.value in {Plain(':'), Plain(','), Plain('}'), Plain(']')} then
              repaired == prefix + PrintString(head) + RepairedQuotes(left, Outside)
            else
              repaired == prefix + PrintString(head + [Escaped('"')] + tail) + rest
  {
    var left := PrintStrChars(tail) + "\"" + rest;
    JsonIsSettled(prefix, head + tail, rest);
    OpeningIsSettled(prefix, head + tail, rest);
    OnTheMark(prefix, head, PrintStrChars(head + tail) + "\"" + rest, left);
    NextInside(tail, rest);
    if EndsString(FirstVisible(left)) {
      EndsThere(prefix, head, RepairedQuotes(left, Outside));
    } else {
      RestIsSettled(prefix, head, tail, rest);
      UnchangedExactlyWhenSettled(left, Inside);
      EscapedMark(prefix, head, tail, rest);
    }
  }

  lemma EndsThere(prefix: string, head: seq<StrChar>, rest: string)
    ensures prefix + "\"" + (PrintStrChars(head) + ("\"" + rest)) == prefix + PrintString(head) + rest
  {
    Opening(prefix, PrintStrChars(head), rest);
    Appended(PrintStrChars(head), "\"", rest);
  }

  lemma JsonIsSettled(prefix: string, cs: seq<StrChar>, rest: string)
    requires IsJsonAround(prefix, cs, rest)
    ensures Settled(prefix + PrintString(cs) + rest, Outside)
  {
    var before, v, after :| PrintText(before, v, after) == prefix + PrintString(cs) + rest;
    JsonIsLeftAlone(before, v, after);
    UnchangedExactlyWhenSettled(PrintText(before, v, after), Outside);
  }

  lemma EscapedMark(prefix: string, head: seq<StrChar>, tail: seq<StrChar>, rest: string)
    ensures prefix + "\"" + (PrintStrChars(head) + ("\\\"" + (PrintStrChars(tail) + "\"" + rest))) ==
            prefix + PrintString(head + [Escaped('"')] + tail) + rest
  {
    PrintBoth(head + [Escaped('"')], tail);
    PrintBoth(head, [Escaped('"')]);
    assert [Escaped('"')][1..] == [];
    assert PrintStrChars([Escaped('"')]) == "\\\"";
    Rejoined(prefix, PrintStrChars(head), "\\\"", PrintStrChars(tail), rest);
    Appended(prefix + "\"", PrintStrChars(head), "\\\"" + (PrintStrChars(tail) + "\"" + rest));
  }
}
