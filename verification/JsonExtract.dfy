/**
 Finding the JSON value inside a model's answer: a bracket counter that watches only the kind of
 bracket the value opens with and skips over string literals.
 */
module JsonExtract {
  import opened Wrappers
  import opened Text
  import opened JsonText

  predicate IsOpening(c: char) {
    c == '{' || c == '['
  }

  function Closing(opening: char): char {
    if opening == '{' then '}' else ']'
  }

  /** What the counter has seen: still counting, or back at depth 0 after `used` characters. */
  datatype Count = Going(depth: nat, mode: Mode) | Closed(used: nat) {

    /** The same count, with `n` characters read before it. */
    function After(n: nat): Count {
      if Closed? then Closed(n + used) else this
    }
  }

  /** One character read by a counter that is still going. */
  function Tick(c: char, opening: char, depth: nat, mode: Mode): Count {
    match mode
    case Escaping => Going(depth, Inside)
    case Inside => Going(depth, if c == '\\' then Escaping else if c == '"' then Outside else Inside)
    case Outside =>
      if c == '"' then Going(depth, Inside)
      else if c == opening then Going(depth + 1, Outside)
      else if c == Closing(opening) then
        if depth <= 1 then Closed(1) else Going(depth - 1, Outside)
      else Going(depth, Outside)
  }

  function CountFrom(t: string, opening: char, depth: nat, mode: Mode): (r: Count)
    ensures r.Closed? ==> 1 <= r.used <= |t|
  {
    if t == "" then Going(depth, mode)
    else
      match Tick(t[0], opening, depth, mode)
      case Closed(_) => Closed(1)
      case Going(d, m) => CountFrom(t[1..], opening, d, m).After(1)
  }

  /** The candidate: the balanced stretch from the first bracket on, else up to the last closing bracket. */
  function Extracted(t: string): Option<string> {
    var start := Start(t);
    if start < 0 then None else Selected(t, start, CountFrom(t[start..], t[start], 0, Outside))
  }

  function Selected(t: string, start: nat, verdict: Count): Option<string>
    requires start < |t| && (verdict.Closed? ==> start + verdict.used <= |t|)
  {
    match verdict
    case Closed(n) => Some(t[start..start + n])
    case Going(_, _) =>
      var end := FindLast(t, Closing(t[start]));
      if end > start then Some(t[start..end + 1]) else None
  }

  /** The first opening bracket of either kind. */
  function Start(t: string): (i: int)
    ensures -1 <= i < |t|
    ensures i == -1 ==> forall k :: 0 <= k < |t| ==> !IsOpening(t[k])
    ensures i >= 0 ==> IsOpening(t[i]) && forall k :: 0 <= k < i ==> !IsOpening(t[k])
  {
    var a, b := Find(t, '{'), Find(t, '[');
    if a < 0 then b else if b < 0 || a < b then a else b
  }

  // ---------------------------------------------------------------- the scanner itself

  /** The count from `start` on, when the scanner stands at `i` in this state. */
  ghost predicate Tracks(verdict: Count, t: string, opening: char, start: nat, i: nat, depth: nat, mode: Mode)
    requires start <= i <= |t|
  {
    verdict == CountFrom(t[i..], opening, depth, mode).After(i - start)
  }

  lemma TracksStep(verdict: Count, t: string, opening: char, start: nat, i: nat, depth: nat, mode: Mode)
    requires start <= i < |t| && Tracks(verdict, t, opening, start, i, depth, mode)
    ensures match Tick(t[i], opening, depth, mode)
            case Closed(_) => verdict == Closed(i + 1 - start)
            case Going(d, m) => Tracks(verdict, t, opening, start, i + 1, d, m)
  {
    assert t[i..][1..] == t[i + 1..];
  }

  method ExtractJsonCandidate(text: string) returns (candidate: Option<string>)
    ensures candidate == Extracted(text)
  {
    var brace, bracket := Find(text, '{'), Find(text, '[');
    if brace < 0 && bracket < 0 {
      return None;
    }
    var start := if brace < 0 || (0 <= bracket < brace) then bracket else brace;
    assert start == Start(text);
    candidate := CandidateFrom(text, start);
  }

  method CandidateFrom(text: string, start: nat) returns (candidate: Option<string>)
    requires start < |text| && IsOpening(text[start])
    ensures candidate == Selected(text, start, CountFrom(text[start..], text[start], 0, Outside))
  {
    var end := BalancedEnd(text, start);
    if end.Some? {
      return Some(text[start..end.value]);
    }
    var last := FindLast(text, Closing(text[start]));
    return if last > start then Some(text[start..last + 1]) else None;
  }

  /** The bracket-counting loop: the end of the stretch that balances the bracket at `start`. */
  method BalancedEnd(text: string, start: nat) returns (end: Option<nat>)
    requires start < |text| && IsOpening(text[start])
    ensures match CountFrom(text[start..], text[start], 0, Outside)
            case Closed(n) => end == Some(start + n)
            case Going(_, _) => end == None
  {
    var opening := text[start];
    var closing := if opening == '{' then '}' else ']';
    var depth, inString, escape := 0, false, false;
    var index := start;
    ghost var verdict := CountFrom(text[start..], opening, 0, Outside);
    while index < |text|
      invariant start <= index <= |text| && depth >= 0
      invariant index > start ==> depth >= 1
      invariant escape ==> inString
      invariant index == start ==> !inString && depth == 0
      invariant Tracks(verdict, text, opening, start, index, depth, ModeOf(inString, escape))
    {
      var c := text[index];
      TracksStep(verdict, text, opening, start, index, depth, ModeOf(inString, escape));
      if inString {
        if escape {
          escape := false;
        } else if c == '\\' {
          escape := true;
        } else if c == '"' {
          inString := false;
        }
      } else if c == '"' {
        inString := true;
      } else if c == opening {
        depth := depth + 1;
      } else if c == closing {
        depth := depth - 1;
        if depth == 0 {
          return Some(index + 1);
        }
      }
      index := index + 1;
    }
    return None;
  }

  // ---------------------------------------------------------------- the counter over concatenations

  lemma {:induction false} CountAppend(a: string, b: string, opening: char, depth: nat, mode: Mode)
    ensures CountFrom(a + b, opening, depth, mode) ==
            match CountFrom(a, opening, depth, mode)
            case Closed(n) => Closed(n)
            case Going(d, m) => CountFrom(b, opening, d, m).After(|a|)
  {
    if a == "" {
      assert a + b == b;
    } else {
      assert (a + b)[1..] == a[1..] + b;
      var t := Tick(a[0], opening, depth, mode);
      if t.Going? {
        CountAppend(a[1..], b, opening, t.depth, t.mode);
      }
    }
  }

  /** `s` leaves a counter outside strings where it was, without closing it. */
  ghost predicate Neutral(s: string, opening: char) {
    forall depth: nat :: depth >= 1 ==> LeavesAt(s, opening, depth)
  }

  ghost predicate LeavesAt(s: string, opening: char, depth: nat) {
    CountFrom(s, opening, depth, Outside) == Going(depth, Outside)
  }

  lemma NeutralAppend(a: string, b: string, opening: char)
    requires Neutral(a, opening) && Neutral(b, opening)
    ensures Neutral(a + b, opening)
  {
    forall depth: nat | depth >= 1 ensures LeavesAt(a + b, opening, depth) {
      assert LeavesAt(a, opening, depth) && LeavesAt(b, opening, depth);
      CountAppend(a, b, opening, depth, Outside);
    }
  }

  /** Text of characters the counter does not react to outside strings. */
  predicate Dull(s: string) {
    forall i :: 0 <= i < |s| ==> s[i] != '"' && s[i] != '{' && s[i] != '}' && s[i] != '[' && s[i] != ']'
  }

  lemma {:induction false} DullCount(s: string, opening: char, depth: nat)
    requires IsOpening(opening)
    requires Dull(s)
    ensures CountFrom(s, opening, depth, Outside) == Going(depth, Outside)
  {
    if s != "" {
      DullCount(s[1..], opening, depth);
    }
  }

  lemma DullIsNeutral(s: string, opening: char)
    requires IsOpening(opening)
    requires Dull(s)
    ensures Neutral(s, opening)
  {
    forall depth: nat | depth >= 1
      ensures CountFrom(s, opening, depth, Outside) == Going(depth, Outside)
    {
      DullCount(s, opening, depth);
    }
  }

  lemma {:induction false} StringCharsKeepInside(cs: seq<StrChar>, opening: char, depth: nat)
    ensures CountFrom(PrintStrChars(cs), opening, depth, Inside) == Going(depth, Inside)
  {
    if cs != [] {
      StringCharsKeepInside(cs[1..], opening, depth);
      CountAppend(PrintStrChar(cs[0]), PrintStrChars(cs[1..]), opening, depth, Inside);
      StrCharKeepsInside(cs[0], opening, depth);
    }
  }

  lemma {:induction false} PlainKeepsInside(s: string, opening: char, depth: nat)
    requires '"' !in s && '\\' !in s
    ensures CountFrom(s, opening, depth, Inside) == Going(depth, Inside)
  {
    if s != "" {
      assert s[0] in s;
      PlainKeepsInside(s[1..], opening, depth);
    }
  }

  lemma EscapePair(c: char, opening: char, depth: nat)
    ensures CountFrom(['\\', c], opening, depth, Inside) == Going(depth, Inside)
  {
    assert ['\\', c][1..] == [c];
    assert [c][1..] == "";
    assert CountFrom([c], opening, depth, Escaping) == Going(depth, Inside);
  }

  lemma StrCharKeepsInside(c: StrChar, opening: char, depth: nat)
    ensures CountFrom(PrintStrChar(c), opening, depth, Inside) == Going(depth, Inside)
  {
    match c
    case Plain(p) => PlainKeepsInside([p], opening, depth);
    case Escaped(e) => EscapePair(e, opening, depth);
    case CodeUnit(h1, h2, h3, h4) =>
      assert PrintStrChar(c) == ['\\', 'u'] + [h1, h2, h3, h4];
      CountAppend(['\\', 'u'], [h1, h2, h3, h4], opening, depth, Inside);
      EscapePair('u', opening, depth);
      PlainKeepsInside([h1, h2, h3, h4], opening, depth);
  }

  lemma StringIsNeutral(cs: seq<StrChar>, opening: char)
    requires IsOpening(opening)
    ensures Neutral(PrintString(cs), opening)
  {
    forall depth: nat | depth >= 1
      ensures LeavesAt(PrintString(cs), opening, depth)
    {
      StringCharsKeepInside(cs, opening, depth);
      CountAppend(PrintStrChars(cs), "\"", opening, depth, Inside);
      assert PrintString(cs)[1..] == PrintStrChars(cs) + "\"";
    }
  }

  lemma Bracketed(inner: string, open: char, opening: char)
    requires IsOpening(opening) && IsOpening(open) && Neutral(inner, opening)
    ensures Neutral([open] + inner + [Closing(open)], opening)
  {
    forall depth: nat | depth >= 1
      ensures LeavesAt([open] + inner + [Closing(open)], opening, depth)
    {
      var deeper := if open == opening then depth + 1 else depth;
      assert LeavesAt(inner, opening, deeper);
      BracketedAt(inner, open, opening, depth, deeper);
    }
  }

  lemma BracketedAt(inner: string, open: char, opening: char, depth: nat, deeper: nat)
    requires Tick(open, opening, depth, Outside) == Going(deeper, Outside)
    requires Tick(Closing(open), opening, deeper, Outside) == Going(depth, Outside)
    requires LeavesAt(inner, opening, deeper)
    ensures LeavesAt([open] + inner + [Closing(open)], opening, depth)
  {
    var rest := inner + [Closing(open)];
    CountOne(open, opening, depth);
    CountOne(Closing(open), opening, deeper);
    CountAppend(inner, [Closing(open)], opening, deeper, Outside);
    CountAppend([open], rest, opening, depth, Outside);
    assert [open] + inner + [Closing(open)] == [open] + rest;
  }

  lemma CountOne(c: char, opening: char, depth: nat)
    ensures CountFrom([c], opening, depth, Outside) == Tick(c, opening, depth, Outside)
  {
    assert [c][1..] == "";
  }

  /** Whatever kind of bracket is counted, a whole value leaves the count where it was. */
  lemma ValueIsNeutral(v: Value, opening: char)
    requires IsOpening(opening)
    ensures Neutral(PrintValue(v), opening)
    ensures v.Array? ==> Neutral(PrintElements(v.elements), opening)
    ensures v.Object? ==> Neutral(PrintMembers(v.members), opening)
  {
    var p := (s: string) => Neutral(s, opening);
    forall s | Quiet(s) ensures p(s) {
      DullIsNeutral(s, opening);
    }
    forall cs ensures p(PrintString(cs)) {
      StringIsNeutral(cs, opening);
    }
    forall a, b | p(a) && p(b) ensures p(a + b) {
      NeutralAppend(a, b, opening);
    }
    forall a | p(a) ensures p("[" + a + "]") && p("{" + a + "}") {
      Bracketed(a, '[', opening);
      Bracketed(a, '{', opening);
    }
    ForEveryValue(p, v);
    if v.Array? {
      ForEveryElement(p, v.elements);
    } else if v.Object? {
      ForEveryMember(p, v.members);
    }
  }

  // ---------------------------------------------------------------- exact extraction

  lemma BalancedPairCloses(inner: string, opening: char, suffix: string)
    requires IsOpening(opening) && Neutral(inner, opening)
    ensures CountFrom([opening] + inner + [Closing(opening)] + suffix, opening, 0, Outside) == Closed(|inner| + 2)
  {
    var rest := [Closing(opening)] + suffix;
    assert LeavesAt(inner, opening, 1);
    CountAppend(inner, rest, opening, 1, Outside);
    assert CountFrom(rest, opening, 1, Outside) == Closed(1);
    assert [opening] + inner + [Closing(opening)] + suffix == [opening] + (inner + rest);
  }

  /** Extraction of a balanced stretch that starts at the first bracket. */
  lemma ExtractedWhenBalanced(prefix: string, body: string, suffix: string)
    requires forall i :: 0 <= i < |prefix| ==> !IsOpening(prefix[i])
    requires |body| > 0 && IsOpening(body[0])
    requires CountFrom(body + suffix, body[0], 0, Outside) == Closed(|body|)
    ensures Extracted(prefix + body + suffix) == Some(body)
  {
    var text := prefix + body + suffix;
    var start := |prefix|;
    assert text[start] == body[0];
    assert Start(text) == start by {
      assert forall k :: 0 <= k < start ==> text[k] == prefix[k];
    }
    assert text[start..] == body + suffix;
    assert text[start..start + |body|] == body;
    assert Extracted(text) == Selected(text, start, CountFrom(text[start..], text[start], 0, Outside));
  }

  /** The text before the value must not contain a bracket; the text after it may be anything. */
  lemma ExtractionIsExact(prefix: string, v: Value, suffix: string)
    requires v.Array? || v.Object?
    requires forall i :: 0 <= i < |prefix| ==> !IsOpening(prefix[i])
    ensures Extracted(prefix + PrintValue(v) + suffix) == Some(PrintValue(v))
  {
    var opening := if v.Array? then '[' else '{';
    var inner :=
      if v.Array? then (if v.elements.NoElement? then v.gap else PrintElements(v.elements))
      else (if v.members.NoMember? then v.gap else PrintMembers(v.members));
    DullIsNeutral(v.gap, opening);
    ValueIsNeutral(v, opening);
    assert PrintValue(v) == [opening] + inner + [Closing(opening)];
    BalancedPairCloses(inner, opening, suffix);
    ExtractedWhenBalanced(prefix, PrintValue(v), suffix);
  }

  // ---------------------------------------------------------------- any input

  /** Some candidate is found exactly when the first bracket is followed, anywhere later, by one that closes its kind. */
  lemma ExtractionExists(t: string)
    ensures Extracted(t).Some? <==>
            Start(t) >= 0 && exists j :: Start(t) < j < |t| && t[j] == Closing(t[Start(t)])
  {
    var start := Start(t);
    if start >= 0 {
      var verdict := CountFrom(t[start..], t[start], 0, Outside);
      assert Extracted(t) == Selected(t, start, verdict);
      if verdict.Closed? {
        ClosesLate(t, start);
        assert t[start + verdict.used - 1] == Closing(t[start]);
      } else {
        var end := FindLast(t, Closing(t[start]));
        assert end > start ==> t[end] == Closing(t[start]);
      }
    }
  }

  /** A candidate is a stretch of the text that begins with its first bracket and ends with one of the same kind. */
  lemma ExtractionIsAStretch(t: string)
    requires Extracted(t).Some?
    ensures var r := Extracted(t).value;
            && Start(t) >= 0 && Start(t) + |r| <= |t| && t[Start(t)..Start(t) + |r|] == r
            && |r| >= 2 && r[0] == t[Start(t)] && r[|r| - 1] == Closing(r[0])
  {
    var start := Start(t);
    var verdict := CountFrom(t[start..], t[start], 0, Outside);
    assert Extracted(t) == Selected(t, start, verdict);
    if verdict.Closed? {
      ClosesLate(t, start);
    }
  }

  lemma ClosesLate(t: string, start: nat)
    requires start < |t| && IsOpening(t[start])
    requires CountFrom(t[start..], t[start], 0, Outside).Closed?
    ensures var n := CountFrom(t[start..], t[start], 0, Outside).used;
            n >= 2 && t[start + n - 1] == Closing(t[start])
  {
    var rest := t[start..];
    ClosesOnClosing(rest, t[start], 0, Outside);
    assert Tick(rest[0], t[start], 0, Outside) == Going(1, Outside);
  }

  lemma {:induction false} ClosesOnClosing(t: string, opening: char, depth: nat, mode: Mode)
    requires CountFrom(t, opening, depth, mode).Closed?
    ensures t[CountFrom(t, opening, depth, mode).used - 1] == Closing(opening)
  {
    var k := Tick(t[0], opening, depth, mode);
    if k.Going? {
      ClosesOnClosing(t[1..], opening, k.depth, k.mode);
    }
  }

  /** Extracting again changes nothing, whether or not the first extraction found balanced brackets. */
  lemma ExtractionIsIdempotent(t: string)
    requires Extracted(t).Some?
    ensures Extracted(Extracted(t).value) == Extracted(t)
  {
    ExtractionIsAStretch(t);
    StretchCloses(t);
    ExtractedWhole(Extracted(t).value);
  }

  /** The counter gets to the end of a candidate, if it closes on it at all. */
  lemma StretchCloses(t: string)
    requires Extracted(t).Some? && Extracted(t).value != ""
    ensures var r := Extracted(t).value; CountFrom(r, r[0], 0, Outside).Closed? ==> CountFrom(r, r[0], 0, Outside).used == |r|
  {
    var start, r := Start(t), Extracted(t).value;
    var rest := t[start..];
    var verdict := CountFrom(rest, t[start], 0, Outside);
    assert Extracted(t) == Selected(t, start, verdict);
    assert rest == r + rest[|r|..];
    CountAppend(r, rest[|r|..], t[start], 0, Outside);
  }

  lemma ExtractedWhole(r: string)
    requires |r| >= 2 && IsOpening(r[0]) && r[|r| - 1] == Closing(r[0])
    requires CountFrom(r, r[0], 0, Outside).Closed? ==> CountFrom(r, r[0], 0, Outside).used == |r|
    ensures Extracted(r) == Some(r)
  {
    var verdict := CountFrom(r, r[0], 0, Outside);
    assert Start(r) == 0;
    assert r[0..] == r;
    assert Extracted(r) == Selected(r, 0, verdict);
    assert r[0..|r|] == r;
    if verdict.Going? {
      assert FindLast(r, Closing(r[0])) == |r| - 1;
    }
  }
}
