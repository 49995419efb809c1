/** Removing the raw control characters that JSON forbids inside strings (RFC 8259 section 7). */
module ControlRepair {
  import opened Wrappers
  import opened Text
  import opened JsonText

  predicate IsControl(c: char) {
    c as int < 0x20
  }

  /** A raw line break in a string may be where the model forgot the closing quotation mark, or stray, or meant. */
  datatype LineBreak = Closes | Stray | Meant

  function LineBreakBefore(rest: string): LineBreak {
    var visible := SkipSpace(rest);
    if visible == "" then Meant
    else if visible[0] in ",}]" then Closes
    else if visible[0] == '"' && Continues(FirstVisible(visible[1..])) then Stray
    else Meant
  }

  predicate Continues(next: Option<char>) {
    next.Some? && next.value in ":,}]"
  }

  function HexDigit(n: int): char
    requires 0 <= n < 16
  {
    "0123456789abcdef"[n]
  }

  /** The escape sequence of a control character. */
  function Escape(c: char): string
    requires IsControl(c)
  {
    if c == '\n' then "\\n"
    else if c == '\t' then "\\t"
    else if c as int == 0x08 then "\\b"
    else if c as int == 0x0c then "\\f"
    else "\\u00" + [HexDigit(c as int / 16), HexDigit(c as int % 16)]
  }

  function RepairedControls(t: string, mode: Mode): string {
    if t == "" then ""
    else
      var (piece, next) := Rewritten(t[0], t[1..], mode);
      piece + RepairedControls(t[1..], next)
  }

  /** What becomes of `c` before `rest`, and where the scanner stands after it. */
  function Rewritten(c: char, rest: string, mode: Mode): (string, Mode) {
    if mode == Inside && IsControl(c) then
      match if c == '\n' then LineBreakBefore(rest) else Meant
      case Closes => ("\"\n", Outside)
      case Stray => ("", Inside)
      case Meant => (Escape(c), Inside)
    else ([c], NextMode(c, mode))
  }

  function NextMode(c: char, mode: Mode): Mode {
    match mode
    case Outside => if c == '"' then Inside else Outside
    case Escaping => Inside
    case Inside => if c == '\\' then Escaping else if c == '"' then Outside else Inside
  }

  /** No raw control character stands inside a string, except directly after a backslash. */
  predicate Clean(t: string, mode: Mode) {
    t == "" || (!(mode == Inside && IsControl(t[0])) && Clean(t[1..], NextMode(t[0], mode)))
  }

  // ---------------------------------------------------------------- the scanner itself

  method RepairControlCharactersInStrings(text: string) returns (result: string)
    ensures result == RepairedControls(text, Outside)
  {
    result := "";
    var inString, escape := false, false;
    for index := 0 to |text|
      invariant escape ==> inString
      invariant RepairedControls(text, Outside) == result + RepairedControls(text[index..], ModeOf(inString, escape))
    {
      var c := text[index];
      ghost var (piece, next) := Rewritten(c, text[index + 1..], ModeOf(inString, escape));
      ghost var before := result;
      RepairStep(text, index, ModeOf(inString, escape), before);
      if !inString {
        result := result + [c];
        inString := c == '"';
      } else if escape {
        result := result + [c];
        escape := false;
      } else if c == '\\' {
        result := result + [c];
        escape := true;
      } else if c == '"' {
        result := result + [c];
        inString := false;
      } else if c as int < 0x20 {
        if c == '\n' {
          var lineBreak := ClassifyLineBreak(text, index);
          match lineBreak {
            case Closes =>
              result := result + "\"\n";
              inString := false;
            case Stray =>
            case Meant =>
              result := result + "\\n";
          }
        } else if c == '\t' {
          result := result + "\\t";
        } else if c as int == 0x08 {
          result := result + "\\b";
        } else if c as int == 0x0c {
          result := result + "\\f";
        } else {
          result := result + "\\u00" + [HexDigit(c as int / 16), HexDigit(c as int % 16)];
        }
      } else {
        result := result + [c];
      }
      assert result == before + piece && next == ModeOf(inString, escape);
    }
  }

  lemma RepairStep(t: string, i: nat, mode: Mode, before: string)
    requires i < |t|
    ensures var (piece, next) := Rewritten(t[i], t[i + 1..], mode);
            before + RepairedControls(t[i..], mode) == (before + piece) + RepairedControls(t[i + 1..], next)
  {
    assert t[i..][1..] == t[i + 1..];
  }

  method ClassifyLineBreak(text: string, index: nat) returns (lineBreak: LineBreak)
    requires index < |text|
    ensures lineBreak == LineBreakBefore(text[index + 1..])
  {
    var nextIndex := NextNonSpaceIndex(text, index + 1);
    if nextIndex == None {
      return Meant;
    }
    var next := text[nextIndex.value];
    var afterNext := NextNonSpace(text, nextIndex.value + 1);
    assert text[nextIndex.value..][1..] == text[nextIndex.value + 1..];
    if next == ',' || next == '}' || next == ']' {
      return Closes;
    }
    if next == '"' && afterNext.Some? && afterNext.value in {':', ',', '}', ']'} {
      return Stray;
    }
    return Meant;
  }

  // ---------------------------------------------------------------- every input

  lemma {:induction false} CleanOverEscape(c: char, rest: string)
    requires IsControl(c)
    ensures Clean(Escape(c) + rest, Inside) == Clean(rest, Inside)
  {
    var e := Escape(c);
    if |e| == 2 {
      CleanOverPair(e[1], rest);
      assert e == ['\\', e[1]];
    } else {
      assert e + rest == ['\\', 'u'] + (e[2..] + rest);
      CleanOverPair('u', e[2..] + rest);
      CleanOverPlain(e[2..], rest);
    }
  }

  lemma CleanOverPair(c: char, rest: string)
    ensures Clean(['\\', c] + rest, Inside) == Clean(rest, Inside)
  {
    assert (['\\', c] + rest)[1..] == [c] + rest;
    assert ([c] + rest)[1..] == rest;
  }

  lemma {:induction false} CleanOverPlain(plain: string, rest: string)
    requires forall i :: 0 <= i < |plain| ==> IsUnescaped(plain[i])
    ensures Clean(plain + rest, Inside) == Clean(rest, Inside)
  {
    if plain == "" {
      assert plain + rest == rest;
    } else {
      assert (plain + rest)[1..] == plain[1..] + rest;
      CleanOverPlain(plain[1..], rest);
    }
  }

  /** Rescanning the output never meets a raw control character where it would have to act. */
  lemma {:induction false} RepairCleans(t: string, mode: Mode)
    ensures Clean(RepairedControls(t, mode), mode)
  {
    if t != "" {
      var (piece, next) := Rewritten(t[0], t[1..], mode);
      RepairCleans(t[1..], next);
      PieceIsClean(t[0], t[1..], mode, RepairedControls(t[1..], next));
    }
  }

  /** What a character is rewritten to leaves the scanner where it should be. */
  lemma PieceIsClean(c: char, rest: string, mode: Mode, o: string)
    requires Clean(o, Rewritten(c, rest, mode).1)
    ensures Clean(Rewritten(c, rest, mode).0 + o, mode)
  {
    if mode == Inside && IsControl(c) {
      match if c == '\n' then LineBreakBefore(rest) else Meant
      case Closes =>
        CleanOverPlainChar('\n', o, Outside);
        CleanOverPlainChar('"', "\n" + o, Inside);
        assert "\"\n" + o == ['"'] + ("\n" + o);
      case Stray => assert "" + o == o;
      case Meant => CleanOverEscape(c, o);
    } else {
      CleanOverPlainChar(c, o, mode);
    }
  }

  lemma CleanOverPlainChar(c: char, o: string, mode: Mode)
    requires !(mode == Inside && IsControl(c)) && Clean(o, NextMode(c, mode))
    ensures Clean([c] + o, mode)
  {
    assert ([c] + o)[1..] == o;
  }

  /** A text is left alone exactly when it is clean. */
  lemma {:induction false} UnchangedExactlyWhenClean(t: string, mode: Mode)
    ensures RepairedControls(t, mode) == t <==> Clean(t, mode)
  {
    if t != "" {
      var c, rest, o := t[0], t[1..], RepairedControls(t, mode);
      assert t == [c] + rest;
      if mode == Inside && IsControl(c) {
        match if c == '\n' then LineBreakBefore(rest) else Meant
        case Closes => assert o[0] == '"';
        case Stray => StrayIsGone(rest);
        case Meant => assert o[0] == '\\';
      } else {
        UnchangedExactlyWhenClean(rest, NextMode(c, mode));
        assert o[1..] == RepairedControls(rest, NextMode(c, mode));
      }
    }
  }

  lemma {:induction false} StrayIsGone(rest: string)
    requires LineBreakBefore(rest) == Stray
    ensures RepairedControls(rest, Inside) != "" && RepairedControls(rest, Inside)[0] != '\n'
  {
    if rest[0] == '\n' {
      assert SkipSpace(rest) == SkipSpace(rest[1..]);
      StrayIsGone(rest[1..]);
    }
  }

  lemma RepairIsIdempotent(t: string)
    ensures RepairedControls(RepairedControls(t, Outside), Outside) == RepairedControls(t, Outside)
  {
    RepairCleans(t, Outside);
    UnchangedExactlyWhenClean(RepairedControls(t, Outside), Outside);
  }

  // ---------------------------------------------------------------- meaning

  /** What a reader that tolerates raw control characters makes of a text: marks outside strings, code points inside. */
  datatype Token = Mark(c: char) | CodePoint(n: int) | Cut

  function Read(t: string, inside: bool): seq<Token>
    decreases |t|
  {
    if t == "" then []
    else if !inside then [Mark(t[0])] + Read(t[1..], t[0] == '"')
    else if t[0] == '"' then [Mark('"')] + Read(t[1..], false)
    else if t[0] != '\\' then [CodePoint(t[0] as int)] + Read(t[1..], true)
    else if |t| == 1 then [Cut]
    else if t[1] == 'u' && HexRun(t[2..], 4) then [CodePoint(HexValue(t[2..], 4, 0))] + Read(t[6..], true)
    else [CodePoint(Unescape(t[1]))] + Read(t[2..], true)
  }

  predicate HexRun(s: string, n: nat)
    ensures HexRun(s, n) ==> |s| >= n
  {
    n == 0 || (s != "" && IsHex(s[0]) && HexRun(s[1..], n - 1))
  }

  function HexValue(s: string, n: nat, acc: nat): nat
    requires HexRun(s, n)
  {
    if n == 0 then acc else HexValue(s[1..], n - 1, 16 * acc + DigitValue(s[0]))
  }

  function DigitValue(c: char): nat
    requires IsHex(c)
  {
    if IsDigit(c) then (c - '0') as int
    else if 'a' <= c <= 'f' then (c - 'a') as int + 10
    else (c - 'A') as int + 10
  }

  function Unescape(c: char): int {
    match c
    case 'n' => 0x0a
    case 't' => 0x09
    case 'b' => 0x08
    case 'f' => 0x0c
    case 'r' => 0x0d
    case _ => c as int
  }

  /** Every raw line break inside a string is one to keep. */
  predicate KeepsLines(t: string, mode: Mode) {
    t == "" ||
    (&& (mode == Inside && t[0] == '\n' ==> LineBreakBefore(t[1..]) == Meant)
     && KeepsLines(t[1..], if mode == Inside && IsControl(t[0]) then Inside else NextMode(t[0], mode)))
  }

  lemma ReadEscape(c: char, rest: string)
    requires IsControl(c)
    ensures Read(Escape(c) + rest, true) == [CodePoint(c as int)] + Read(rest, true)
  {
    var e, t := Escape(c), Escape(c) + rest;
    if |e| == 2 {
      assert t[2..] == rest;
    } else {
      var n := c as int;
      var s := t[2..];
      assert t[6..] == rest;
      assert s == ['0', '0', HexDigit(n / 16), HexDigit(n % 16)] + rest;
      var s1, s2, s3 := s[1..], s[2..], s[3..];
      assert s1[1..] == s2 && s2[1..] == s3;
      assert HexRun(s3, 1) && HexRun(s2, 2) && HexRun(s1, 3) && HexRun(s, 4);
      HexDigitValue(n / 16);
      HexDigitValue(n % 16);
      assert HexValue(s, 4, 0) == HexValue(s1, 3, 0) == HexValue(s2, 2, 0) == HexValue(s3, 1, n / 16);
      assert HexValue(s3, 1, n / 16) == 16 * (n / 16) + n % 16;
    }
  }

  lemma HexDigitValue(n: int)
    requires 0 <= n < 16
    ensures IsHex(HexDigit(n)) && DigitValue(HexDigit(n)) == n
  {
  }

  lemma {:induction false} HexRunIsKept(s: string, n: nat, acc: nat)
    requires KeepsLines(s, Inside)
    ensures HexRun(RepairedControls(s, Inside), n) == HexRun(s, n)
    ensures HexRun(s, n) ==>
              && KeepsLines(s[n..], Inside)
              && RepairedControls(s, Inside)[n..] == RepairedControls(s[n..], Inside)
              && HexValue(RepairedControls(s, Inside), n, acc) == HexValue(s, n, acc)
  {
    var o := RepairedControls(s, Inside);
    if n > 0 && s != "" && IsHex(s[0]) {
      assert o[1..] == RepairedControls(s[1..], Inside);
      HexRunIsKept(s[1..], n - 1, 16 * acc + DigitValue(s[0]));
      if HexRun(s, n) {
        assert s[1..][n - 1..] == s[n..];
        assert o[1..][n - 1..] == o[n..];
      }
    } else if n == 0 {
      assert s[0..] == s && o[0..] == o;
    }
  }

  /** Unless a line break is dropped or taken for a missing quotation mark, the repaired text reads the same. */
  lemma {:induction false} RepairKeepsTheReading(t: string, inside: bool)
    requires KeepsLines(t, ModeOf(inside, false))
    ensures Read(RepairedControls(t, ModeOf(inside, false)), inside) == Read(t, inside)
    decreases |t|
  {
    if t != "" {
      var c, rest, o := t[0], t[1..], RepairedControls(t, ModeOf(inside, false));
      if inside && IsControl(c) {
        ReadEscape(c, RepairedControls(rest, Inside));
        RepairKeepsTheReading(rest, true);
      } else if inside && c == '\\' {
        if rest != "" {
          var e, tail := t[1], t[2..];
          assert rest[1..] == tail;
          assert o[1..] == RepairedControls(rest, Escaping);
          assert o[2..] == o[1..][1..] == RepairedControls(tail, Inside);
          HexRunIsKept(tail, 4, 0);
          if e == 'u' && HexRun(tail, 4) {
            assert tail[4..] == t[6..];
            assert o[6..] == o[2..][4..];
            RepairKeepsTheReading(t[6..], true);
          } else {
            RepairKeepsTheReading(tail, true);
          }
        }
      } else {
        var stillInside := if inside then c != '"' else c == '"';
        assert o[1..] == RepairedControls(rest, ModeOf(stillInside, false));
        RepairKeepsTheReading(rest, stillInside);
      }
    }
  }

  // ---------------------------------------------------------------- well-formed JSON

  /** Reading `s` outside strings meets nothing to repair and ends outside strings again. */
  ghost predicate CleanBlock(s: string) {
    forall rest :: Clean(s + rest, Outside) == Clean(rest, Outside)
  }

  lemma CleanBlockAppend(a: string, b: string)
    requires CleanBlock(a) && CleanBlock(b)
    ensures CleanBlock(a + b)
  {
    forall rest ensures Clean(a + b + rest, Outside) == Clean(rest, Outside) {
      assert a + b + rest == a + (b + rest);
    }
  }

  lemma {:induction false} CleanOverQuiet(s: string, rest: string)
    requires '"' !in s
    ensures Clean(s + rest, Outside) == Clean(rest, Outside)
  {
    if s == "" {
      assert s + rest == rest;
    } else {
      assert s[0] in s;
      assert (s + rest)[1..] == s[1..] + rest;
      CleanOverQuiet(s[1..], rest);
    }
  }

  lemma QuietIsCleanBlock(s: string)
    requires '"' !in s
    ensures CleanBlock(s)
  {
    forall rest ensures Clean(s + rest, Outside) == Clean(rest, Outside) {
      CleanOverQuiet(s, rest);
    }
  }

  lemma {:induction false} CleanOverChars(cs: seq<StrChar>, rest: string)
    ensures Clean(PrintStrChars(cs) + rest, Inside) == Clean(rest, Inside)
  {
    if cs == [] {
      assert PrintStrChars(cs) + rest == rest;
    } else {
      var tail := PrintStrChars(cs[1..]) + rest;
      assert PrintStrChars(cs) + rest == PrintStrChar(cs[0]) + tail;
      CleanOverChars(cs[1..], rest);
      match cs[0]
      case Plain(p) => CleanOverPlain([p], tail);
      case Escaped(e) => CleanOverPair(e, tail);
      case CodeUnit(h1, h2, h3, h4) =>
        assert PrintStrChar(cs[0]) + tail == ['\\', 'u'] + ([h1, h2, h3, h4] + tail);
        CleanOverPair('u', [h1, h2, h3, h4] + tail);
        CleanOverPlain([h1, h2, h3, h4], tail);
    }
  }

  lemma StringIsCleanBlock(cs: seq<StrChar>)
    ensures CleanBlock(PrintString(cs))
  {
    forall rest ensures Clean(PrintString(cs) + rest, Outside) == Clean(rest, Outside) {
      assert (PrintString(cs) + rest)[1..] == PrintStrChars(cs) + ("\"" + rest);
      CleanOverChars(cs, "\"" + rest);
      assert ("\"" + rest)[1..] == rest;
    }
  }

  lemma JsonIsLeftAlone(before: Ws, v: Value, after: Ws)
    ensures RepairedControls(PrintText(before, v, after), Outside) == PrintText(before, v, after)
  {
    var p := (s: string) => CleanBlock(s);
    forall s | Quiet(s) ensures p(s) {
      QuietIsCleanBlock(s);
    }
    forall cs ensures p(PrintString(cs)) {
      StringIsCleanBlock(cs);
    }
    forall a, b | p(a) && p(b) ensures p(a + b) {
      CleanBlockAppend(a, b);
    }
    forall a | p(a) ensures p("[" + a + "]") && p("{" + a + "}") {
      QuietIsCleanBlock("[");
      QuietIsCleanBlock("]");
      QuietIsCleanBlock("{");
      QuietIsCleanBlock("}");
      CleanBlockAppend("[", a);
      CleanBlockAppend("{", a);
      CleanBlockAppend("[" + a, "]");
      CleanBlockAppend("{" + a, "}");
    }
    ForEveryValue(p, v);
    assert Quiet(before) && Quiet(after);
    assert p(before + PrintValue(v));
    assert p(PrintText(before, v, after));
    assert PrintText(before, v, after) + "" == PrintText(before, v, after);
    UnchangedExactlyWhenClean(PrintText(before, v, after), Outside);
  }
}
