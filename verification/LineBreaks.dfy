/** What becomes of one raw line break in a string of otherwise well-formed JSON, told from the characters around it. */
module LineBreaks {
  import opened Wrappers
  import opened Text
  import opened JsonText
  import opened ControlRepair
  import QuoteRepair

  /** Where a scanner that starts in `mode` stands after `t`. */
  function ModeAfter(t: string, mode: Mode): Mode {
    if t == "" then mode else ModeAfter(t[1..], NextMode(t[0], mode))
  }

  // ---------------------------------------------------------------- scanning a text in two parts

  lemma {:induction false} ModeAfterBoth(a: string, b: string, mode: Mode)
    ensures ModeAfter(a + b, mode) == ModeAfter(b, ModeAfter(a, mode))
  {
    if a == "" {
      assert a + b == b;
    } else {
      assert (a + b)[1..] == a[1..] + b;
      ModeAfterBoth(a[1..], b, NextMode(a[0], mode));
    }
  }

  lemma {:induction false} CleanBoth(a: string, b: string, mode: Mode)
    ensures Clean(a + b, mode) <==> Clean(a, mode) && Clean(b, ModeAfter(a, mode))
  {
    if a == "" {
      assert a + b == b;
    } else {
      assert (a + b)[1..] == a[1..] + b;
      CleanBoth(a[1..], b, NextMode(a[0], mode));
    }
  }

  lemma {:induction false} RepairBoth(a: string, b: string, mode: Mode)
    requires Clean(a, mode)
    ensures RepairedControls(a + b, mode) == a + RepairedControls(b, ModeAfter(a, mode))
  {
    if a == "" {
      assert a + b == b;
    } else {
      var next := NextMode(a[0], mode);
      RepairBoth(a[1..], b, next);
      OneIsCopied(a[0], a[1..] + b, mode);
      FirstOf(a, b);
      FirstOf(a, RepairedControls(b, ModeAfter(a, mode)));
    }
  }

  lemma OneIsCopied(c: char, rest: string, mode: Mode)
    requires !(mode == Inside && IsControl(c))
    ensures RepairedControls([c] + rest, mode) == [c] + RepairedControls(rest, NextMode(c, mode))
  {
    assert ([c] + rest)[1..] == rest;
  }

  lemma FirstOf(a: string, b: string)
    requires a != ""
    ensures a + b == [a[0]] + (a[1..] + b)
  {
  }

  lemma {:induction false} SettledTail(a: string, b: string, mode: Mode)
    requires QuoteRepair.Settled(a + b, mode)
    ensures QuoteRepair.Settled(b, ModeAfter(a, mode))
  {
    if a == "" {
      assert a + b == b;
    } else {
      assert (a + b)[1..] == a[1..] + b;
      SettledTail(a[1..], b, NextMode(a[0], mode));
    }
  }

  // ---------------------------------------------------------------- inside a string

  lemma CharStaysInside(c: StrChar)
    ensures Clean(PrintStrChar(c), Inside) && ModeAfter(PrintStrChar(c), Inside) == Inside
  {
    match c
    case Plain(p) => PlainStaysInside([p]);
    case Escaped(e) =>
      PairStaysInside(e, "");
      assert PrintStrChar(c) == ['\\', e] + "";
    case CodeUnit(h1, h2, h3, h4) =>
      PairStaysInside('u', [h1, h2, h3, h4]);
      assert PrintStrChar(c) == ['\\', 'u'] + [h1, h2, h3, h4];
  }

  lemma PairStaysInside(e: char, plain: string)
    requires forall i :: 0 <= i < |plain| ==> IsUnescaped(plain[i])
    ensures Clean(['\\', e] + plain, Inside) && ModeAfter(['\\', e] + plain, Inside) == Inside
  {
    var t := ['\\', e] + plain;
    assert t[1..] == [e] + plain && t[1..][1..] == plain;
    PlainStaysInside(plain);
  }

  lemma {:induction false} PlainStaysInside(plain: string)
    requires forall i :: 0 <= i < |plain| ==> IsUnescaped(plain[i])
    ensures Clean(plain, Inside) && ModeAfter(plain, Inside) == Inside
  {
    if plain != "" {
      PlainStaysInside(plain[1..]);
    }
  }

  lemma {:induction false} CharsStayInside(cs: seq<StrChar>)
    ensures Clean(PrintStrChars(cs), Inside) && ModeAfter(PrintStrChars(cs), Inside) == Inside
  {
    if cs != [] {
      var first, others := PrintStrChar(cs[0]), PrintStrChars(cs[1..]);
      CharStaysInside(cs[0]);
      CharsStayInside(cs[1..]);
      CleanBoth(first, others, Inside);
      ModeAfterBoth(first, others, Inside);
    }
  }

  lemma {:induction false} PrintBoth(a: seq<StrChar>, b: seq<StrChar>)
    ensures PrintStrChars(a + b) == PrintStrChars(a) + PrintStrChars(b)
  {
    if a == [] {
      assert a + b == b;
    } else {
      assert (a + b)[1..] == a[1..] + b;
      PrintBoth(a[1..], b);
    }
  }

  /** The first character of a string, as written, that is not whitespace. */
  function FirstSeen(cs: seq<StrChar>): Option<StrChar> {
    if cs == [] then None
    else if cs[0].Plain? && IsSpace(cs[0].c) then FirstSeen(cs[1..])
    else Some(cs[0])
  }

  lemma {:induction false} SeenFirst(cs: seq<StrChar>, rest: string)
    ensures var t := SkipSpace(PrintStrChars(cs) + "\"" + rest);
            match FirstSeen(cs)
            case None => t == "\"" + rest
            case Some(c) => t != "" && t[0] == PrintStrChar(c)[0]
  {
    var t := PrintStrChars(cs) + "\"" + rest;
    if cs == [] {
      assert t == "\"" + rest;
    } else if cs[0].Plain? && IsSpace(cs[0].c) {
      assert t[1..] == PrintStrChars(cs[1..]) + "\"" + rest;
      SeenFirst(cs[1..], rest);
    }
  }

  // ---------------------------------------------------------------- every string of a text

  predicate StartsString(s: string, cs: seq<StrChar>) {
    PrintStrChars(cs) + "\"" <= s
  }

  ghost predicate StartsSomeString(s: string) {
    exists cs :: StartsString(s, cs)
  }

  /** The quotation mark at `i` is met outside strings. */
  predicate OpensAt(s: string, i: nat)
    requires i < |s|
  {
    s[i] == '"' && ModeAfter(s[..i], Outside) == Outside
  }

  /** A scan of `s` ends outside strings, and every quotation mark it meets there opens a printed string. */
  ghost predicate IsBalanced(s: string) {
    && ModeAfter(s, Outside) == Outside
    && forall i :: 0 <= i < |s| && OpensAt(s, i) ==> StartsSomeString(s[i + 1..])
  }

  lemma BalancedBoth(a: string, b: string)
    requires IsBalanced(a) && IsBalanced(b)
    ensures IsBalanced(a + b)
  {
    ModeAfterBoth(a, b, Outside);
    forall i | 0 <= i < |a + b| && OpensAt(a + b, i) ensures StartsSomeString((a + b)[i + 1..]) {
      if i < |a| {
        assert (a + b)[..i] == a[..i] && (a + b)[i + 1..] == a[i + 1..] + b;
        assert OpensAt(a, i);
        var cs :| StartsString(a[i + 1..], cs);
        assert StartsString((a + b)[i + 1..], cs);
      } else {
        var j := i - |a|;
        assert (a + b)[..i] == a + b[..j] && (a + b)[i + 1..] == b[j + 1..];
        ModeAfterBoth(a, b[..j], Outside);
        assert OpensAt(b, j);
      }
    }
  }

  lemma {:induction false} QuietIsBalanced(s: string)
    requires '"' !in s
    ensures IsBalanced(s)
  {
    if s != "" {
      assert s[0] in s;
      QuietIsBalanced(s[1..]);
    }
  }

  lemma {:induction false} NotOutsideYet(cs: seq<StrChar>, i: nat)
    requires i <= |PrintStrChars(cs)|
    ensures ModeAfter(PrintStrChars(cs)[..i], Inside) != Outside
  {
    if cs != [] {
      var first, others := PrintStrChar(cs[0]), PrintStrChars(cs[1..]);
      if i < |first| {
        assert (first + others)[..i] == first[..i];
        StartOfChar(cs[0], i);
      } else {
        assert (first + others)[..i] == first + others[..i - |first|];
        CharStaysInside(cs[0]);
        ModeAfterBoth(first, others[..i - |first|], Inside);
        NotOutsideYet(cs[1..], i - |first|);
      }
    }
  }

  lemma StartOfChar(c: StrChar, i: nat)
    requires i < |PrintStrChar(c)|
    ensures ModeAfter(PrintStrChar(c)[..i], Inside) != Outside
  {
    var s := PrintStrChar(c)[..i];
    if i == 1 {
      assert s == ['\\'] && s[1..] == "";
    } else if i > 1 {
      var plain := s[2..];
      assert s == ['\\', 'u'] + plain;
      PairStaysInside('u', plain);
    }
  }

  lemma StringIsBalanced(cs: seq<StrChar>)
    ensures IsBalanced(PrintString(cs))
  {
    var chars, s := PrintStrChars(cs), PrintString(cs);
    assert s[1..] == chars + "\"";
    CharsStayInside(cs);
    ModeAfterBoth(chars, "\"", Inside);
    forall i | 0 <= i < |s| && OpensAt(s, i) ensures StartsString(s[i + 1..], cs) {
      if i > 0 {
        assert s[..i][1..] == chars[..i - 1];
        NotOutsideYet(cs, i - 1);
        assert false;
      }
    }
  }

  lemma BracketsAreBalanced(a: string)
    requires IsBalanced(a)
    ensures IsBalanced("[" + a + "]") && IsBalanced("{" + a + "}")
  {
    QuietIsBalanced("[");
    QuietIsBalanced("]");
    QuietIsBalanced("{");
    QuietIsBalanced("}");
    BalancedBoth("[", a);
    BalancedBoth("[" + a, "]");
    BalancedBoth("{", a);
    BalancedBoth("{" + a, "}");
  }

  lemma ValueIsBalanced(v: Value)
    ensures IsBalanced(PrintValue(v))
  {
    var p := (s: string) => IsBalanced(s);
    forall s | Quiet(s) ensures p(s) {
      QuietIsBalanced(s);
    }
    forall cs ensures p(PrintString(cs)) {
      StringIsBalanced(cs);
    }
    forall a, b | p(a) && p(b) ensures p(a + b) {
      BalancedBoth(a, b);
    }
    forall a | p(a) ensures p("[" + a + "]") && p("{" + a + "}") {
      BracketsAreBalanced(a);
    }
    ForEveryValue(p, v);
  }

  /** Every quotation mark that a scan of well-formed JSON meets outside strings opens one of its strings. */
  lemma EveryStringIsMet(before: Ws, v: Value, after: Ws, i: nat)
    requires i < |PrintText(before, v, after)| && OpensAt(PrintText(before, v, after), i)
    ensures StartsSomeString(PrintText(before, v, after)[i + 1..])
  {
    QuietIsBalanced(before);
    QuietIsBalanced(after);
    ValueIsBalanced(v);
    BalancedBoth(before, PrintValue(v));
    BalancedBoth(before + PrintValue(v), after);
  }

  // ---------------------------------------------------------------- the whole text

  /** `prefix`, a string and `rest` make up well-formed JSON, and the string is one of its strings. */
  ghost predicate IsJsonAround(prefix: string, cs: seq<StrChar>, rest: string) {
    && ModeAfter(prefix, Outside) == Outside
    && exists before, v, after :: PrintText(before, v, after) == prefix + PrintString(cs) + rest
  }

  /** Nothing before the end of the string, or after it, is in need of repair, and what follows may follow a string. */
  lemma AroundAString(prefix: string, cs: seq<StrChar>, rest: string)
    requires IsJsonAround(prefix, cs, rest)
    ensures Clean(prefix, Outside) && Clean(rest, Outside)
    ensures QuoteRepair.EndsString(FirstVisible(rest))
  {
    var before, v, after :| PrintText(before, v, after) == prefix + PrintString(cs) + rest;
    var text := PrintText(before, v, after);
    ControlRepair.JsonIsLeftAlone(before, v, after);
    UnchangedExactlyWhenClean(text, Outside);
    QuoteRepair.JsonIsLeftAlone(before, v, after);
    QuoteRepair.UnchangedExactlyWhenSettled(text, Outside);
    PartsAreSound(prefix, cs, rest);
  }

  lemma PartsAreSound(prefix: string, cs: seq<StrChar>, rest: string)
    requires ModeAfter(prefix, Outside) == Outside
    requires Clean(prefix + PrintString(cs) + rest, Outside) && QuoteRepair.Settled(prefix + PrintString(cs) + rest, Outside)
    ensures Clean(prefix, Outside) && Clean(rest, Outside)
    ensures QuoteRepair.EndsString(FirstVisible(rest))
  {
    var closed, tail := prefix + "\"" + PrintStrChars(cs), "\"" + rest;
    assert prefix + PrintString(cs) + rest == closed + tail;
    StandsInside(prefix, cs);
    CleanBoth(closed, tail, Outside);
    CleanBoth(prefix + "\"", PrintStrChars(cs), Outside);
    CleanBoth(prefix, "\"", Outside);
    SettledTail(closed, tail, Outside);
    assert tail[1..] == rest;
  }

  lemma StandsInside(prefix: string, cs: seq<StrChar>)
    requires ModeAfter(prefix, Outside) == Outside
    ensures ModeAfter(prefix + "\"" + PrintStrChars(cs), Outside) == Inside
    ensures Clean(prefix, Outside) ==> Clean(prefix + "\"" + PrintStrChars(cs), Outside)
  {
    var quoted := prefix + "\"";
    CharsStayInside(cs);
    ModeAfterBoth(prefix, "\"", Outside);
    ModeAfterBoth(quoted, PrintStrChars(cs), Outside);
    CleanBoth(prefix, "\"", Outside);
    CleanBoth(quoted, PrintStrChars(cs), Outside);
  }

  /** Up to a place inside a string of well-formed JSON the scanner copies what it reads; then the line break decides. */
  lemma UpToTheBreak(prefix: string, head: seq<StrChar>, rest: string)
    requires Clean(prefix, Outside) && ModeAfter(prefix, Outside) == Outside
    ensures var read := prefix + "\"" + PrintStrChars(head);
            RepairedControls(read + "\n" + rest, Outside) == read + OnTheBreak(rest)
  {
    var read := prefix + "\"" + PrintStrChars(head);
    StandsInside(prefix, head);
    BreakIsRewritten(read, rest);
  }

  lemma BreakIsRewritten(read: string, rest: string)
    requires Clean(read, Outside) && ModeAfter(read, Outside) == Inside
    ensures RepairedControls(read + "\n" + rest, Outside) == read + OnTheBreak(rest)
  {
    Appended(read, "\n", rest);
    RepairBoth(read, "\n" + rest, Outside);
    FirstIsRewritten(rest);
  }

  lemma FirstIsRewritten(rest: string)
    ensures RepairedControls("\n" + rest, Inside) == OnTheBreak(rest)
  {
    assert ("\n" + rest)[1..] == rest;
  }

  function OnTheBreak(rest: string): string {
    match LineBreakBefore(rest)
    case Closes => "\"\n" + RepairedControls(rest, Outside)
    case Stray => RepairedControls(rest, Inside)
    case Meant => "\\n" + RepairedControls(rest, Inside)
  }

  /**
   A line break where the closing quotation mark of some string should be: the mark is put back before the
   line break if the next visible character is a comma or a closing brace or bracket.  Otherwise, that is before
   a colon or at the end of the text, the line break is escaped and the string goes on.
   */
  lemma MissingQuoteIsPutBack(prefix: string, cs: seq<StrChar>, rest: string)
    requires IsJsonAround(prefix, cs, rest)
    ensures RepairedControls(prefix + "\"" + PrintStrChars(cs) + "\n" + rest, Outside) ==
            if FirstVisible(rest).Some? && FirstVisible(rest).value in {',', '}', ']'}
            then prefix + PrintString(cs) + "\n" + rest
            else prefix + "\"" + PrintStrChars(cs) + "\\n" + RepairedControls(rest, Inside)
  {
    AroundAString(prefix, cs, rest);
    UpToTheBreak(prefix, cs, rest);
    UnchangedExactlyWhenClean(rest, Outside);
    assert LineBreakBefore(rest) != Stray;
    Regrouped(prefix, PrintStrChars(cs), rest);
    Appended(prefix + "\"" + PrintStrChars(cs), "\\n", RepairedControls(rest, Inside));
  }

  lemma Regrouped(prefix: string, chars: string, rest: string)
    ensures prefix + "\"" + chars + ("\"\n" + rest) == prefix + ("\"" + chars + "\"") + "\n" + rest
  {
  }

  lemma Appended(a: string, b: string, c: string)
    ensures a + (b + c) == a + b + c
  {
  }

  /**
   A line break anywhere inside some string.  Before a comma or a closing brace or bracket, seen past
   whitespace, it is taken for the end of the string; before the end of the string it is dropped, unless
   nothing visible follows the string; everywhere else it is escaped and stays part of the string.
   */
  lemma LineBreakInAString(prefix: string, head: seq<StrChar>, tail: seq<StrChar>, rest: string)
    requires IsJsonAround(prefix, head + tail, rest)
    ensures var left := PrintStrChars(tail) + "\"" + rest;
            var repaired := RepairedControls(prefix + "\"" + PrintStrChars(head) + "\n" + left, Outside);
            var next := FirstSeen(tail);
            if next.Some? && next.value in {Plain(','), Plain('}'), Plain(']')} then
              repaired == prefix + PrintString(head) + "\n" + RepairedControls(left, Outside)
            else if next == None && FirstVisible(rest).Some? then
              repaired == prefix + PrintString(head + tail) + rest
            else
              repaired == prefix + PrintString(head + [Escaped('n')] + tail) + rest
  {
    AroundAString(prefix, head + tail, rest);
    var left := PrintStrChars(tail) + "\"" + rest;
    UpToTheBreak(prefix, head, left);
    BreakBefore(tail, rest);
    RestIsKept(tail, rest);
    match LineBreakBefore(left)
    case Closes => Regrouped(prefix, PrintStrChars(head), RepairedControls(left, Outside));
    case Stray => DroppedBreak(prefix, head, tail, rest);
    case Meant => EscapedBreak(prefix, head, tail, rest);
  }

  lemma Rejoined(prefix: string, head: string, between: string, tail: string, rest: string)
    ensures prefix + "\"" + head + (between + (tail + "\"" + rest)) ==
            prefix + ("\"" + (head + between + tail) + "\"") + rest
  {
    var quoted, left := prefix + "\"", tail + "\"" + rest;
    assert quoted + head + (between + left) == quoted + (head + between + tail) + ("\"" + rest);
    assert quoted + (head + between + tail) + ("\"" + rest) == prefix + ("\"" + (head + between + tail) + "\"") + rest;
  }

  lemma BreakBefore(tail: seq<StrChar>, rest: string)
    requires QuoteRepair.EndsString(FirstVisible(rest))
    ensures LineBreakBefore(PrintStrChars(tail) + "\"" + rest) ==
            if FirstSeen(tail).Some? && FirstSeen(tail).value in {Plain(','), Plain('}'), Plain(']')} then Closes
            else if FirstSeen(tail) == None && FirstVisible(rest).Some? then Stray
            else Meant
  {
    SeenFirst(tail, rest);
    assert ("\"" + rest)[1..] == rest;
  }

  /** From inside a string on, the rest of well-formed JSON is copied. */
  lemma RestIsKept(tail: seq<StrChar>, rest: string)
    requires Clean(rest, Outside)
    ensures var left := PrintStrChars(tail) + "\"" + rest; RepairedControls(left, Inside) == left
  {
    var left, quoted := PrintStrChars(tail) + "\"" + rest, "\"" + rest;
    Appended(PrintStrChars(tail), "\"", rest);
    assert quoted[1..] == rest;
    CharsStayInside(tail);
    CleanBoth(PrintStrChars(tail), quoted, Inside);
    UnchangedExactlyWhenClean(left, Inside);
  }

  lemma DroppedBreak(prefix: string, head: seq<StrChar>, tail: seq<StrChar>, rest: string)
    ensures prefix + "\"" + PrintStrChars(head) + (PrintStrChars(tail) + "\"" + rest) == prefix + PrintString(head + tail) + rest
  {
    PrintBoth(head, tail);
    Rejoined(prefix, PrintStrChars(head), "", PrintStrChars(tail), rest);
    NothingBetween(PrintStrChars(head), PrintStrChars(tail), rest);
  }

  lemma NothingBetween(head: string, tail: string, rest: string)
    ensures head + "" + tail == head + tail && "" + (tail + "\"" + rest) == tail + "\"" + rest
  {
  }

  lemma EscapedBreak(prefix: string, head: seq<StrChar>, tail: seq<StrChar>, rest: string)
    ensures prefix + "\"" + PrintStrChars(head) + ("\\n" + (PrintStrChars(tail) + "\"" + rest)) ==
            prefix + PrintString(head + [Escaped('n')] + tail) + rest
  {
    EscapedPrint(head, tail);
    Rejoined(prefix, PrintStrChars(head), "\\n", PrintStrChars(tail), rest);
  }

  lemma EscapedPrint(head: seq<StrChar>, tail: seq<StrChar>)
    ensures PrintStrChars(head + [Escaped('n')] + tail) == PrintStrChars(head) + "\\n" + PrintStrChars(tail)
  {
    PrintBoth(head + [Escaped('n')], tail);
    PrintBoth(head, [Escaped('n')]);
    OneEscape();
  }

  lemma OneEscape()
    ensures PrintStrChars([Escaped('n')]) == "\\n"
  {
    assert [Escaped('n')][1..] == [];
  }
}
