/** The text primitives the JSON scanners are built from: `str.find`, `str.rfind`, `str.isspace`. */
module Text {
  import opened Wrappers

  /** Python's `str.isspace` for one character: the Unicode whitespace characters and the four separators. */
  predicate IsSpace(c: char) {
    var n := c as int;
    || 0x09 <= n <= 0x0d || 0x1c <= n <= 0x20 || n == 0x85 || n == 0xa0 || n == 0x1680
    || 0x2000 <= n <= 0x200a || n == 0x2028 || n == 0x2029 || n == 0x202f || n == 0x205f || n == 0x3000
  }

  /** The rest of `t` from its first character that is not whitespace. */
  function SkipSpace(t: string): string {
    if t != "" && IsSpace(t[0]) then SkipSpace(t[1..]) else t
  }

  /** The first character of `t` that is not whitespace, if there is one. */
  function FirstVisible(t: string): Option<char> {
    var r := SkipSpace(t);
    if r == "" then None else Some(r[0])
  }

  method NextNonSpaceIndex(text: string, start: nat) returns (index: Option<nat>)
    requires start <= |text|
    ensures match index
            case None => SkipSpace(text[start..]) == ""
            case Some(i) => start <= i < |text| && SkipSpace(text[start..]) == text[i..]
  {
    for i := start to |text|
      invariant SkipSpace(text[start..]) == SkipSpace(text[i..])
    {
      if !IsSpace(text[i]) {
        return Some(i);
      }
      assert text[i..][1..] == text[i + 1..];
    }
    return None;
  }

  method NextNonSpace(text: string, start: nat) returns (next: Option<char>)
    requires start <= |text|
    ensures next == FirstVisible(text[start..])
  {
    var index := NextNonSpaceIndex(text, start);
    return if index.Some? then Some(text[index.value]) else None;
  }

  lemma {:induction false} SkipSpaceOver(space: string, t: string)
    requires forall i :: 0 <= i < |space| ==> IsSpace(space[i])
    ensures SkipSpace(space + t) == SkipSpace(t)
  {
    if space == "" {
      assert space + t == t;
    } else {
      SkipSpaceOver(space[1..], t);
      assert (space + t)[1..] == space[1..] + t;
    }
  }

  /** `str.find`: the least index of `c` in `t`, or -1. */
  function Find(t: string, c: char): (i: int)
    ensures -1 <= i < |t|
    ensures i == -1 ==> forall k :: 0 <= k < |t| ==> t[k] != c
    ensures i >= 0 ==> t[i] == c && forall k :: 0 <= k < i ==> t[k] != c
  {
    FindFrom(t, c, 0)
  }

  function FindFrom(t: string, c: char, start: nat): (i: int)
    requires start <= |t|
    ensures i == -1 || start <= i < |t|
    ensures i == -1 ==> forall k :: start <= k < |t| ==> t[k] != c
    ensures i >= 0 ==> t[i] == c && forall k :: start <= k < i ==> t[k] != c
    decreases |t| - start
  {
    if start == |t| then -1 else if t[start] == c then start else FindFrom(t, c, start + 1)
  }

  /** `str.rfind`: the greatest index of `c` in `t`, or -1. */
  function FindLast(t: string, c: char): (i: int)
    ensures -1 <= i < |t|
    ensures i == -1 ==> forall k :: 0 <= k < |t| ==> t[k] != c
    ensures i >= 0 ==> t[i] == c && forall k :: i < k < |t| ==> t[k] != c
  {
    FindLastBefore(t, c, |t|)
  }

  function FindLastBefore(t: string, c: char, end: nat): (i: int)
    requires end <= |t|
    ensures -1 <= i < end
    ensures i == -1 ==> forall k :: 0 <= k < end ==> t[k] != c
    ensures i >= 0 ==> t[i] == c && forall k :: i < k < end ==> t[k] != c
  {
    if end == 0 then -1 else if t[end - 1] == c then end - 1 else FindLastBefore(t, c, end - 1)
  }

  /** Where a scanner stands with respect to string literals. */
  datatype Mode = Outside | Inside | Escaping

  function ModeOf(inString: bool, escape: bool): Mode {
    if !inString then Outside else if escape then Escaping else Inside
  }
}
