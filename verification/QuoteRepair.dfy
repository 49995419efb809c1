/** Escaping the quotation marks a model left unescaped inside JSON strings. */
module QuoteRepair {
  import opened Wrappers
  import opened Text
  import opened JsonText

  /** What may follow a string literal: `:`, `,`, a closing bracket or the end of the text. */
  predicate EndsString(next: Option<char>) {
    next == None || next.value in ":,}]"
  }

  function RepairedQuotes(t: string, mode: Mode): string {
    if t == "" then ""
    else
      var c, rest := t[0], t[1..];
      match mode
      case Outside => [c] + RepairedQuotes(rest, if c == '"' then Inside else Outside)
      case Escaping => [c] + RepairedQuotes(rest, Inside)
      case Inside =>
        if c == '\\' then [c] + RepairedQuotes(rest, Escaping)
        else if c != '"' then [c] + RepairedQuotes(rest, Inside)
        else if EndsString(FirstVisible(rest)) then [c] + RepairedQuotes(rest, Outside)
        else "\\\"" + RepairedQuotes(rest, Inside)
  }

  /** Every quotation mark that can end a string is followed by something that may follow a string. */
  predicate Settled(t: string, mode: Mode) {
    t == "" ||
    var c, rest := t[0], t[1..];
    match mode
    case Outside => Settled(rest, if c == '"' then Inside else Outside)
    case Escaping => Settled(rest, Inside)
    case Inside =>
      if c == '\\' then Settled(rest, Escaping)
      else if c != '"' then Settled(rest, Inside)
      else EndsString(FirstVisible(rest)) && Settled(rest, Outside)
  }

  // ---------------------------------------------------------------- the scanner itself

  /** What is written for the character at `index`, and where the scanner stands after it. */
  function QuoteTick(text: string, index: nat, mode: Mode): (string, Mode)
    requires index < |text|
  {
    var c := text[index];
    match mode
    case Outside => ([c], if c == '"' then Inside else Outside)
    case Escaping => ([c], Inside)
    case Inside =>
      if c == '\\' then ([c], Escaping)
      else if c != '"' then ([c], Inside)
      else if EndsString(FirstVisible(text[index + 1..])) then ([c], Outside)
      else ("\\\"", Inside)
  }

  /** What is written so far, with what becomes of the rest, is the whole. */
  ghost predicate IsWritten(whole: string, result: string, text: string, index: nat, mode: Mode)
    requires index <= |text|
  {
    whole == result + RepairedQuotes(text[index..], mode)
  }

  lemma QuoteStep(whole: string, result: string, text: string, index: nat, mode: Mode)
    requires index < |text| && IsWritten(whole, result, text, index, mode)
    ensures var (piece, next) := QuoteTick(text, index, mode);
            IsWritten(whole, result + piece, text, index + 1, next)
  {
    var (piece, next) := QuoteTick(text, index, mode);
    var rest := RepairedQuotes(text[index + 1..], next);
    assert text[index..][1..] == text[index + 1..];
    assert result + (piece + rest) == (result + piece) + rest;
  }

  method EscapeUnescapedInnerQuotes(text: string) returns (result: string)
    ensures result == RepairedQuotes(text, Outside)
  {
    result := "";
    var inString, escape := false, false;
    ghost var whole := RepairedQuotes(text, Outside);
    assert text[0..] == text;
    for index := 0 to |text|
      invariant escape ==> inString
      invariant IsWritten(whole, result, text, index, ModeOf(inString, escape))
    {
      var c := text[index];
      QuoteStep(whole, result, text, index, ModeOf(inString, escape));
      if !inString {
        result := result + [c];
        inString := c == '"';
      } else if escape {
        result := result + [c];
        escape := false;
      } else if c == '\\' {
        result := result + [c];
        escape := true;
      } else if c == '"' {
        var next := NextNonSpace(text, index + 1);
        if next == None || next.value in {':', ',', '}', ']'} {
          result := result + [c];
          inString := false;
        } else {
          result := result + "\\\"";
        }
      } else {
        result := result + [c];
      }
    }
  }

  // ---------------------------------------------------------------- every input

  /** A text is left alone exactly when it is settled; otherwise it grows. */
  lemma {:induction false} UnchangedExactlyWhenSettled(t: string, mode: Mode)
    ensures RepairedQuotes(t, mode) == t <==> Settled(t, mode)
    ensures |RepairedQuotes(t, mode)| >= |t|
    ensures !Settled(t, mode) ==> |RepairedQuotes(t, mode)| > |t|
  {
    if t != "" {
      var c, rest := t[0], t[1..];
      assert t == [c] + rest;
      UnchangedExactlyWhenSettled(rest, Outside);
      UnchangedExactlyWhenSettled(rest, Inside);
      UnchangedExactlyWhenSettled(rest, Escaping);
    }
  }

  lemma {:induction false} VisibleAfterRepair(t: string)
    ensures FirstVisible(RepairedQuotes(t, Outside)) == FirstVisible(t)
  {
    if t != "" {
      var next := if t[0] == '"' then Inside else Outside;
      assert RepairedQuotes(t, Outside)[1..] == RepairedQuotes(t[1..], next);
      if IsSpace(t[0]) {
        VisibleAfterRepair(t[1..]);
      }
    }
  }

  lemma {:induction false} RepairSettles(t: string, mode: Mode)
    ensures Settled(RepairedQuotes(t, mode), mode)
  {
    if t != "" {
      var c, rest, o := t[0], t[1..], RepairedQuotes(t, mode);
      RepairSettles(rest, Outside);
      RepairSettles(rest, Inside);
      RepairSettles(rest, Escaping);
      if mode == Inside && c == '"' {
        if EndsString(FirstVisible(rest)) {
          VisibleAfterRepair(rest);
          assert o[1..] == RepairedQuotes(rest, Outside);
        } else {
          assert o[1..] == "\"" + RepairedQuotes(rest, Inside);
          assert o[1..][1..] == RepairedQuotes(rest, Inside);
        }
      } else {
        assert o[1..] == RepairedQuotes(rest, match mode
          case Outside => if c == '"' then Inside else Outside
          case Escaping => Inside
          case Inside => if c == '\\' then Escaping else Inside);
      }
    }
  }

  lemma RepairIsIdempotent(t: string)
    ensures RepairedQuotes(RepairedQuotes(t, Outside), Outside) == RepairedQuotes(t, Outside)
  {
    RepairSettles(t, Outside);
    UnchangedExactlyWhenSettled(RepairedQuotes(t, Outside), Outside);
  }

  /** `o` is `t` with a backslash put before some of its quotation marks. */
  predicate QuotesEscaped(t: string, o: string)
    decreases |o|
  {
    if t == "" || o == "" then t == o
    else
      || (t[0] == o[0] && QuotesEscaped(t[1..], o[1..]))
      || (t[0] == '"' && |o| >= 2 && o[..2] == "\\\"" && QuotesEscaped(t[1..], o[2..]))
  }

  lemma {:induction false} OnlyEscapesQuotes(t: string, mode: Mode)
    ensures QuotesEscaped(t, RepairedQuotes(t, mode))
  {
    if t != "" {
      var c, rest, o := t[0], t[1..], RepairedQuotes(t, mode);
      OnlyEscapesQuotes(rest, Outside);
      OnlyEscapesQuotes(rest, Inside);
      OnlyEscapesQuotes(rest, Escaping);
      if mode == Inside && c == '"' && !EndsString(FirstVisible(rest)) {
        assert o[2..] == RepairedQuotes(rest, Inside);
      } else {
        assert o[1..] == RepairedQuotes(rest, match mode
          case Outside => if c == '"' then Inside else Outside
          case Escaping => Inside
          case Inside => if c == '\\' then Escaping else if c == '"' then Outside else Inside);
      }
    }
  }

  // ---------------------------------------------------------------- well-formed JSON

  lemma {:induction false} SettledOver(quiet: string, rest: string)
    requires '"' !in quiet
    ensures Settled(quiet + rest, Outside) == Settled(rest, Outside)
  {
    if quiet == "" {
      assert quiet + rest == rest;
    } else {
      assert quiet[0] in quiet;
      assert (quiet + rest)[1..] == quiet[1..] + rest;
      SettledOver(quiet[1..], rest);
    }
  }

  lemma {:induction false} SettledOverPlain(quiet: string, rest: string)
    requires '"' !in quiet && '\\' !in quiet
    ensures Settled(quiet + rest, Inside) == Settled(rest, Inside)
  {
    if quiet == "" {
      assert quiet + rest == rest;
    } else {
      assert quiet[0] in quiet;
      assert (quiet + rest)[1..] == quiet[1..] + rest;
      SettledOverPlain(quiet[1..], rest);
    }
  }

  lemma SettledOverEscape(c: char, rest: string)
    ensures Settled(['\\', c] + rest, Inside) == Settled(rest, Inside)
  {
    assert (['\\', c] + rest)[1..] == [c] + rest;
    assert ([c] + rest)[1..] == rest;
  }

  lemma {:induction false} SettledOverChars(cs: seq<StrChar>, rest: string)
    ensures Settled(PrintStrChars(cs) + rest, Inside) == Settled(rest, Inside)
  {
    if cs == [] {
      assert PrintStrChars(cs) + rest == rest;
    } else {
      var tail := PrintStrChars(cs[1..]) + rest;
      assert PrintStrChars(cs) + rest == PrintStrChar(cs[0]) + tail;
      SettledOverChars(cs[1..], rest);
      match cs[0]
      case Plain(p) => SettledOverPlain([p], tail);
      case Escaped(e) => SettledOverEscape(e, tail);
      case CodeUnit(h1, h2, h3, h4) =>
        assert PrintStrChar(cs[0]) + tail == ['\\', 'u'] + ([h1, h2, h3, h4] + tail);
        SettledOverEscape('u', [h1, h2, h3, h4] + tail);
        SettledOverPlain([h1, h2, h3, h4], tail);
    }
  }

  lemma SettledOverString(cs: seq<StrChar>, rest: string)
    requires EndsString(FirstVisible(rest))
    ensures Settled(PrintString(cs) + rest, Outside) == Settled(rest, Outside)
  {
    var body, tail := PrintStrChars(cs), "\"" + rest;
    QuotedText(body, rest);
    assert PrintString(cs) + rest == "\"" + (body + tail);
    OpensString(body + tail);
    SettledOverChars(cs, tail);
    assert tail[1..] == rest;
  }

  lemma QuotedText(body: string, rest: string)
    ensures "\"" + body + "\"" + rest == "\"" + (body + ("\"" + rest))
  {
  }

  lemma OpensString(rest: string)
    ensures Settled("\"" + rest, Outside) == Settled(rest, Inside)
  {
    assert ("\"" + rest)[1..] == rest;
  }

  lemma VisibleMark(c: char, rest: string)
    requires !IsSpace(c)
    ensures FirstVisible([c] + rest) == Some(c)
  {
  }

  lemma VisibleAfterWs(space: Ws, rest: string)
    ensures FirstVisible(space + rest) == FirstVisible(rest)
  {
    SkipSpaceOver(space, rest);
  }

  lemma SettledOverBrackets(open: char, inner: string, close: char, rest: string)
    requires open != '"' && close != '"'
    requires Settled(inner + ([close] + rest), Outside) == Settled([close] + rest, Outside)
    ensures Settled([open] + inner + [close] + rest, Outside) == Settled(rest, Outside)
  {
    assert [open] + inner + [close] + rest == [open] + (inner + ([close] + rest));
    SettledOver([open], inner + ([close] + rest));
    SettledOver([close], rest);
  }

  /** A value is settled before anything that may follow it. */
  lemma {:induction false} SettledOverValue(v: Value, rest: string)
    requires EndsString(FirstVisible(rest))
    ensures Settled(PrintValue(v) + rest, Outside) == Settled(rest, Outside)
    decreases v, 0
  {
    match v
    case Str(cs) => SettledOverString(cs, rest);
    case Array(gap, es) =>
      SettledOver(gap, "]" + rest);
      VisibleMark(']', rest);
      SettledOverElements(es, "]" + rest);
      SettledOverBrackets('[', if es.NoElement? then gap else PrintElements(es), ']', rest);
    case Object(gap, ms) =>
      SettledOver(gap, "}" + rest);
      VisibleMark('}', rest);
      SettledOverMembers(ms, "}" + rest);
      SettledOverBrackets('{', if ms.NoMember? then gap else PrintMembers(ms), '}', rest);
    case _ =>
      ScalarsAreQuiet(v);
      SettledOver(PrintValue(v), rest);
  }

  lemma ElementText(es: Elements, rest: string, tail: string)
    requires es.Element? && tail == if es.others.NoElement? then rest else "," + (PrintElements(es.others) + rest)
    ensures PrintElements(es) + rest == es.before + (PrintValue(es.value) + (es.after + tail))
  {
  }

  lemma {:induction false} SettledOverElements(es: Elements, rest: string)
    requires EndsString(FirstVisible(rest))
    ensures Settled(PrintElements(es) + rest, Outside) == Settled(rest, Outside)
    decreases es
  {
    match es
    case NoElement =>
      assert PrintElements(es) + rest == rest;
    case Element(before, v, after, others) =>
      var tail := if others.NoElement? then rest else "," + (PrintElements(others) + rest);
      ElementText(es, rest, tail);
      VisibleMark(',', PrintElements(others) + rest);
      SettledOver(before, PrintValue(v) + (after + tail));
      SettledOverFollowed(v, after, tail);
      if others.Element? {
        SettledOver(",", PrintElements(others) + rest);
        SettledOverElements(others, rest);
      }
  }

  lemma {:induction false} SettledOverFollowed(v: Value, after: Ws, tail: string)
    requires EndsString(FirstVisible(tail))
    ensures Settled(PrintValue(v) + (after + tail), Outside) == Settled(tail, Outside)
    decreases v, 1
  {
    VisibleAfterWs(after, tail);
    SettledOverValue(v, after + tail);
    SettledOver(after, tail);
  }

  lemma {:induction false} SettledOverMembers(ms: Members, rest: string)
    requires EndsString(FirstVisible(rest))
    ensures Settled(PrintMembers(ms) + rest, Outside) == Settled(rest, Outside)
    decreases ms
  {
    match ms
    case NoMember =>
      assert PrintMembers(ms) + rest == rest;
    case Member(beforeKey, key, afterKey, before, v, after, others) =>
      var tail := if others.NoMember? then rest else "," + (PrintMembers(others) + rest);
      var value := PrintValue(v) + (after + tail);
      MemberText(ms, rest, tail);
      VisibleMark(',', PrintMembers(others) + rest);
      SettledOverKey(beforeKey, key, afterKey, before, value);
      SettledOverFollowed(v, after, tail);
      if others.Member? {
        SettledOver(",", PrintMembers(others) + rest);
        SettledOverMembers(others, rest);
      }
  }

  lemma MemberText(ms: Members, rest: string, tail: string)
    requires ms.Member?
    requires tail == if ms.others.NoMember? then rest else "," + (PrintMembers(ms.others) + rest)
    ensures PrintMembers(ms) + rest ==
            ms.beforeKey + (PrintString(ms.key) + (ms.afterKey + (":" + (ms.before + (PrintValue(ms.value) + (ms.after + tail))))))
  {
    var others := if ms.others.NoMember? then "" else "," + PrintMembers(ms.others);
    assert others + rest == tail;
    Regroup(ms.beforeKey, PrintString(ms.key), ms.afterKey, ":", ms.before, PrintValue(ms.value), ms.after, others, rest);
  }

  lemma Regroup(a: string, b: string, c: string, d: string, e: string, f: string, g: string, h: string, i: string)
    ensures a + b + c + d + e + f + g + h + i == a + (b + (c + (d + (e + (f + (g + (h + i)))))))
  {
    var abc, ghi := a + b + c, g + (h + i);
    var abcdef, defghi := abc + d + e + f, d + (e + (f + ghi));
    assert abcdef + g + h + i == abcdef + ghi;
    assert abcdef + ghi == abc + defghi;
    assert abc + defghi == a + (b + (c + defghi));
  }

  lemma SettledOverKey(beforeKey: Ws, key: seq<StrChar>, afterKey: Ws, before: Ws, value: string)
    ensures Settled(beforeKey + (PrintString(key) + (afterKey + (":" + (before + value)))), Outside) ==
            Settled(value, Outside)
  {
    var colon := ":" + (before + value);
    VisibleMark(':', before + value);
    VisibleAfterWs(afterKey, colon);
    SettledOver(beforeKey, PrintString(key) + (afterKey + colon));
    SettledOverString(key, afterKey + colon);
    SettledOver(afterKey, colon);
    SettledOver(":", before + value);
    SettledOver(before, value);
  }

  lemma JsonIsLeftAlone(before: Ws, v: Value, after: Ws)
    ensures RepairedQuotes(PrintText(before, v, after), Outside) == PrintText(before, v, after)
  {
    var text := PrintText(before, v, after);
    assert text == before + (PrintValue(v) + after);
    SettledOver(before, PrintValue(v) + after);
    VisibleAfterWs(after, "");
    assert after + "" == after;
    SettledOverValue(v, after);
    SettledOver(after, "");
    UnchangedExactlyWhenSettled(text, Outside);
  }
}
