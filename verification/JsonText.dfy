/**
 The concrete syntax of JSON, RFC 8259 sections 2 to 7: a syntax tree that keeps every
 optional space, escape and digit, and the text it stands for.  Every JSON text is the
 printed form of some tree, so a lemma about all trees is a lemma about all JSON texts.
 */
module JsonText {

  // Section 2: insignificant whitespace.
  predicate IsWs(c: char) {
    c == ' ' || c == '\t' || c == '\n' || c == '\r'
  }

  type Ws = s: string | forall i :: 0 <= i < |s| ==> IsWs(s[i])

  // Section 6: numbers.
  predicate IsDigit(c: char) {
    '0' <= c <= '9'
  }

  type Digit = c: char | IsDigit(c) witness '0'
  type Digit19 = c: char | '1' <= c <= '9' witness '1'

  datatype IntPart = Zero | NonZero(first: Digit19, rest: seq<Digit>)
  datatype FracPart = NoFrac | Frac(first: Digit, rest: seq<Digit>)
  datatype Sign = Bare | Plus | Minus
  datatype ExpPart = NoExp | Exp(upper: bool, sign: Sign, first: Digit, rest: seq<Digit>)

  function PrintInt(i: IntPart): string {
    match i
    case Zero => "0"
    case NonZero(d, ds) => [d] + ds
  }

  function PrintFrac(f: FracPart): string {
    match f
    case NoFrac => ""
    case Frac(d, ds) => ['.', d] + ds
  }

  function PrintExp(e: ExpPart): string {
    match e
    case NoExp => ""
    case Exp(upper, sign, d, ds) =>
      [if upper then 'E' else 'e'] +
      (match sign case Bare => "" case Plus => "+" case Minus => "-") +
      [d] + ds
  }

  // Section 7: strings.
  predicate IsUnescaped(c: char) {
    c as int >= 0x20 && c != '"' && c != '\\'
  }

  predicate IsEscapable(c: char) {
    c in "\"\\/bfnrt"
  }

  predicate IsHex(c: char) {
    IsDigit(c) || 'a' <= c <= 'f' || 'A' <= c <= 'F'
  }

  type Unescaped = c: char | IsUnescaped(c) witness 'a'
  type Escapable = c: char | IsEscapable(c) witness 'n'
  type Hex = c: char | IsHex(c) witness '0'

  datatype StrChar =
    | Plain(c: Unescaped)
    | Escaped(e: Escapable)
    | CodeUnit(h1: Hex, h2: Hex, h3: Hex, h4: Hex)

  function PrintStrChar(c: StrChar): string {
    match c
    case Plain(p) => [p]
    case Escaped(e) => ['\\', e]
    case CodeUnit(h1, h2, h3, h4) => ['\\', 'u', h1, h2, h3, h4]
  }

  function PrintStrChars(cs: seq<StrChar>): string {
    if cs == [] then "" else PrintStrChar(cs[0]) + PrintStrChars(cs[1..])
  }

  function PrintString(cs: seq<StrChar>): string {
    "\"" + PrintStrChars(cs) + "\""
  }

  // Sections 3 to 5: values, objects and arrays.  `gap` is the space of an empty pair of brackets.
  datatype Value =
    | Null
    | True
    | False
    | Number(negative: bool, whole: IntPart, frac: FracPart, exp: ExpPart)
    | Str(chars: seq<StrChar>)
    | Array(gap: Ws, elements: Elements)
    | Object(gap: Ws, members: Members)

  datatype Elements =
    | NoElement
    | Element(before: Ws, value: Value, after: Ws, others: Elements)

  datatype Members =
    | NoMember
    | Member(beforeKey: Ws, key: seq<StrChar>, afterKey: Ws, before: Ws, value: Value, after: Ws, others: Members)

  function PrintValue(v: Value): string {
    match v
    case Null => "null"
    case True => "true"
    case False => "false"
    case Number(negative, i, f, e) =>
      (if negative then "-" else "") + PrintInt(i) + PrintFrac(f) + PrintExp(e)
    case Str(cs) => PrintString(cs)
    case Array(gap, es) => "[" + (if es.NoElement? then gap else PrintElements(es)) + "]"
    case Object(gap, ms) => "{" + (if ms.NoMember? then gap else PrintMembers(ms)) + "}"
  }

  function PrintElements(es: Elements): string {
    match es
    case NoElement => ""
    case Element(before, v, after, others) =>
      before + PrintValue(v) + after +
      (if others.NoElement? then "" else "," + PrintElements(others))
  }

  function PrintKey(beforeKey: Ws, key: seq<StrChar>, afterKey: Ws): string {
    beforeKey + PrintString(key) + afterKey + ":"
  }

  function PrintMembers(ms: Members): string {
    match ms
    case NoMember => ""
    case Member(beforeKey, key, afterKey, before, v, after, others) =>
      PrintKey(beforeKey, key, afterKey) + before + PrintValue(v) + after +
      (if others.NoMember? then "" else "," + PrintMembers(others))
  }

  /** Section 2: a JSON text is one value with space around it. */
  function PrintText(before: Ws, v: Value, after: Ws): string {
    before + PrintValue(v) + after
  }

  /** Text outside strings with no bracket in it: numbers, literal names, whitespace, commas and colons. */
  predicate Quiet(s: string) {
    forall i :: 0 <= i < |s| ==>
      || IsDigit(s[i]) || 'a' <= s[i] <= 'z' || s[i] == 'E' || s[i] == '+' || s[i] == '-' || s[i] == '.'
      || IsWs(s[i]) || s[i] == ',' || s[i] == ':'
  }

  lemma ScalarsAreQuiet(v: Value)
    requires v.Null? || v.True? || v.False? || v.Number?
    ensures Quiet(PrintValue(v))
  {
    if v.Number? {
      assert Quiet(PrintInt(v.whole));
      assert Quiet(PrintFrac(v.frac));
      assert Quiet(PrintExp(v.exp));
    }
  }

  /** What holds of quiet text, of strings, of concatenations and of bracketed text holds of every printed value. */
  lemma {:induction false} ForEveryValue(p: string -> bool, v: Value)
    requires forall s :: Quiet(s) ==> p(s)
    requires forall cs :: p(PrintString(cs))
    requires forall a, b {:trigger p(a + b)} :: p(a) && p(b) ==> p(a + b)
    requires forall a :: p(a) ==> p("[" + a + "]") && p("{" + a + "}")
    ensures p(PrintValue(v))
  {
    match v
    case Str(cs) =>
    case Array(gap, es) => ForEveryElement(p, es); assert Quiet(gap);
    case Object(gap, ms) => ForEveryMember(p, ms); assert Quiet(gap);
    case _ => ScalarsAreQuiet(v);
  }

  lemma {:induction false} ForEveryElement(p: string -> bool, es: Elements)
    requires forall s :: Quiet(s) ==> p(s)
    requires forall cs :: p(PrintString(cs))
    requires forall a, b {:trigger p(a + b)} :: p(a) && p(b) ==> p(a + b)
    requires forall a :: p(a) ==> p("[" + a + "]") && p("{" + a + "}")
    ensures p(PrintElements(es))
  {
    assert Quiet("") && Quiet(",");
    if es.Element? {
      ForEveryValue(p, es.value);
      ForEveryElement(p, es.others);
      assert Quiet(es.before) && Quiet(es.after);
      assert p("," + PrintElements(es.others));
      assert p(es.before + PrintValue(es.value));
      assert p(es.before + PrintValue(es.value) + es.after);
    }
  }

  lemma {:induction false} ForEveryMember(p: string -> bool, ms: Members)
    requires forall s :: Quiet(s) ==> p(s)
    requires forall cs :: p(PrintString(cs))
    requires forall a, b {:trigger p(a + b)} :: p(a) && p(b) ==> p(a + b)
    requires forall a :: p(a) ==> p("[" + a + "]") && p("{" + a + "}")
    ensures p(PrintMembers(ms))
  {
    assert Quiet("");
    if ms.Member? {
      ForEveryValue(p, ms.value);
      ForEveryMember(p, ms.others);
      ForEveryKey(p, ms.beforeKey, ms.key, ms.afterKey);
      assert Quiet(ms.before) && Quiet(ms.after);
      FourParts(p, PrintKey(ms.beforeKey, ms.key, ms.afterKey), ms.before, PrintValue(ms.value), ms.after);
      WithOthers(p, PrintKey(ms.beforeKey, ms.key, ms.afterKey) + ms.before + PrintValue(ms.value) + ms.after,
                 if ms.others.NoMember? then "" else "," + PrintMembers(ms.others), PrintMembers(ms.others));
    }
  }

  lemma WithOthers(p: string -> bool, first: string, others: string, rest: string)
    requires forall s :: Quiet(s) ==> p(s)
    requires forall x, y {:trigger p(x + y)} :: p(x) && p(y) ==> p(x + y)
    requires p(first) && p(rest) && (others == "" || others == "," + rest)
    ensures p(first + others)
  {
    assert Quiet("") && Quiet(",");
    assert p("," + rest);
  }

  lemma FourParts(p: string -> bool, a: string, b: string, c: string, d: string)
    requires forall x, y {:trigger p(x + y)} :: p(x) && p(y) ==> p(x + y)
    requires p(a) && p(b) && p(c) && p(d)
    ensures p(a + b + c + d)
  {
    assert p(a + b);
    assert p(a + b + c);
  }

  lemma ForEveryKey(p: string -> bool, beforeKey: Ws, key: seq<StrChar>, afterKey: Ws)
    requires forall s :: Quiet(s) ==> p(s)
    requires forall cs :: p(PrintString(cs))
    requires forall a, b {:trigger p(a + b)} :: p(a) && p(b) ==> p(a + b)
    ensures p(PrintKey(beforeKey, key, afterKey))
  {
    assert Quiet(":") && Quiet(beforeKey) && Quiet(afterKey);
    assert p(beforeKey + PrintString(key));
    assert p(beforeKey + PrintString(key) + afterKey);
  }
}
