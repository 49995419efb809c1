/** Decimal numerals and separated lists: `str(int)`, `int(str)`, `str.isdigit`, `str.split(sep)`, `sep.join`. */
module Decimal {

  predicate IsNumeral(s: string) {
    s != "" && forall i :: 0 <= i < |s| ==> '0' <= s[i] <= '9'
  }

  function ToNat(s: string): nat
    requires forall i :: 0 <= i < |s| ==> '0' <= s[i] <= '9'
  {
    if s == "" then 0 else 10 * ToNat(s[..|s| - 1]) + (s[|s| - 1] - '0') as nat
  }

  function Numeral(n: nat): string {
    if n < 10 then ["0123456789"[n]] else Numeral(n / 10) + ["0123456789"[n % 10]]
  }

  lemma {:induction false} NumeralRoundTrip(n: nat)
    ensures IsNumeral(Numeral(n)) && ToNat(Numeral(n)) == n
  {
    var s := Numeral(n);
    if n < 10 {
      assert ToNat(s[..0]) == 0;
    } else {
      NumeralRoundTrip(n / 10);
      assert s[..|s| - 1] == Numeral(n / 10);
    }
  }

  function Split(s: string, sep: char): (parts: seq<string>)
    ensures |parts| >= 1
  {
    if s == "" then [""]
    else
      var rest := Split(s[1..], sep);
      if s[0] == sep then [""] + rest else [[s[0]] + rest[0]] + rest[1..]
  }

  function Join(parts: seq<string>, sep: char): string {
    if parts == [] then ""
    else if |parts| == 1 then parts[0]
    else parts[0] + [sep] + Join(parts[1..], sep)
  }

  lemma {:induction false} SplitAtomic(s: string, sep: char)
    requires sep !in s
    ensures Split(s, sep) == [s]
  {
    if s != "" {
      assert s[0] in s;
      SplitAtomic(s[1..], sep);
      assert [s[0]] + s[1..] == s;
    }
  }

  lemma {:induction false} SplitFirst(s: string, sep: char, rest: string)
    requires sep !in s
    ensures Split(s + [sep] + rest, sep) == [s] + Split(rest, sep)
  {
    var t := s + [sep] + rest;
    if s == "" {
      assert t[1..] == rest;
    } else {
      assert s[0] in s;
      assert t[1..] == s[1..] + [sep] + rest;
      SplitFirst(s[1..], sep, rest);
      assert [s[0]] + s[1..] == s;
    }
  }

  lemma {:induction false} SplitJoin(parts: seq<string>, sep: char)
    requires |parts| >= 1 && forall i :: 0 <= i < |parts| ==> sep !in parts[i]
    ensures Split(Join(parts, sep), sep) == parts
  {
    if |parts| == 1 {
      SplitAtomic(parts[0], sep);
    } else {
      SplitJoin(parts[1..], sep);
      SplitFirst(parts[0], sep, Join(parts[1..], sep));
    }
  }

  lemma {:induction false} SplitLength(s: string, sep: char)
    ensures |Split(s, sep)| == 1 <==> sep !in s
  {
    if s != "" {
      SplitLength(s[1..], sep);
      assert s == [s[0]] + s[1..];
    }
  }

  lemma {:induction false} SplitLengthsAdd(s: string, rest: string, sep: char)
    ensures |Split(s + [sep] + rest, sep)| == |Split(s, sep)| + |Split(rest, sep)|
  {
    var t := s + [sep] + rest;
    if s == "" {
      assert t[1..] == rest;
    } else {
      assert t[1..] == s[1..] + [sep] + rest;
      SplitLengthsAdd(s[1..], rest, sep);
    }
  }

  /** Joined parts are cut into more pieces exactly when some part has the separator in it. */
  lemma {:induction false} JoinedLength(parts: seq<string>, sep: char)
    requires parts != []
    ensures |Split(Join(parts, sep), sep)| >= |parts|
    ensures |Split(Join(parts, sep), sep)| == |parts| <==> forall i :: 0 <= i < |parts| ==> sep !in parts[i]
  {
    SplitLength(parts[0], sep);
    if |parts| > 1 {
      var rest := parts[1..];
      JoinedLength(rest, sep);
      SplitLengthsAdd(parts[0], Join(rest, sep), sep);
      assert forall i :: 0 < i < |parts| ==> parts[i] == rest[i - 1];
    }
  }

  /** Splitting undoes joining exactly when no part has the separator in it. */
  lemma SplitUndoesJoin(parts: seq<string>, sep: char)
    requires parts != []
    ensures Split(Join(parts, sep), sep) == parts <==> forall i :: 0 <= i < |parts| ==> sep !in parts[i]
  {
    JoinedLength(parts, sep);
    if forall i :: 0 <= i < |parts| ==> sep !in parts[i] {
      SplitJoin(parts, sep);
    }
  }

  lemma NumeralHasOnlyDigits(n: nat, c: char)
    requires c < '0' || c > '9'
    ensures c !in Numeral(n)
  {
    NumeralRoundTrip(n);
  }
}
