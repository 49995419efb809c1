/** Five-field cron expressions: parsing a field, parsing an expression, and what a printed field means. */
module CronExpression {
  import opened Wrappers
  import opened Decimal
  import opened Text

  datatype CronError = BadFieldCount | BadStep | BadField | OutOfRange | NoTimeInFiveYears

  datatype Fields = Fields(minutes: set<int>, hours: set<int>, days: set<int>, months: set<int>, weekdays: set<int>)

  /** The values one comma-separated item stands for. */
  function ItemValues(item: string, minimum: int, maximum: int): Result<set<int>, CronError> {
    var slash := Find(item, '/');
    var base := if slash < 0 then item else item[..slash];
    var stepText := if slash < 0 then "1" else item[slash + 1..];
    if !IsNumeral(stepText) || ToNat(stepText) < 1 then Err(BadStep)
    else BaseValues(base, ToNat(stepText), minimum, maximum)
  }

  function BaseValues(base: string, step: nat, minimum: int, maximum: int): Result<set<int>, CronError>
    requires step >= 1
  {
    if base == "*" then Range(minimum, maximum, step, minimum, maximum)
    else
      var bounds := Split(base, '-');
      if !AreBounds(bounds) then Err(BadField)
      else Range(ToNat(bounds[0]), ToNat(bounds[|bounds| - 1]), step, minimum, maximum)
  }

  /** One number or two. */
  predicate AreBounds(bounds: seq<string>) {
    1 <= |bounds| <= 2 && forall k :: 0 <= k < |bounds| ==> IsNumeral(bounds[k])
  }

  function Range(start: int, end: int, step: int, minimum: int, maximum: int): Result<set<int>, CronError>
    requires step >= 1
  {
    if start < minimum || end > maximum || start > end then Err(OutOfRange)
    else Ok(SteppedRange(start, end, step))
  }

  /** `range(start, end + 1, step)`. */
  function SteppedRange(start: int, end: int, step: int): (r: set<int>)
    requires step >= 1
    ensures start <= end ==> start in r
  {
    assert (start - start) % step == 0;
    set x | start <= x <= end && OnStep(x, start, step)
  }

  predicate OnStep(x: int, start: int, step: int)
    requires step >= 1
  {
    (x - start) % step == 0
  }

  function ItemsValues(items: seq<string>, minimum: int, maximum: int): Result<set<int>, CronError> {
    if items == [] then Ok({})
    else
      match ItemsValues(items[..|items| - 1], minimum, maximum)
      case Err(e) => Err(e)
      case Ok(before) =>
        match ItemValues(items[|items| - 1], minimum, maximum)
        case Err(e) => Err(e)
        case Ok(values) => Ok(before + values)
  }

  /** The values of a field: those of all its items, or the first error. */
  function FieldValues(field: string, minimum: int, maximum: int): Result<set<int>, CronError> {
    ItemsValues(Split(field, ','), minimum, maximum)
  }

  /** `str.split()`: the stretches between whitespace. */
  function Words(s: string): seq<string> {
    WordsAfter(s, "")
  }

  function WordsAfter(s: string, word: string): seq<string> {
    if s == "" then (if word == "" then [] else [word])
    else if IsSpace(s[0]) then (if word == "" then [] else [word]) + WordsAfter(s[1..], "")
    else WordsAfter(s[1..], word + [s[0]])
  }

  /** The range of the values of each field. */
  function RangeOf(i: nat): (int, int)
    requires i < 5
  {
    if i == 0 then (0, 59) else if i == 1 then (0, 23) else if i == 2 then (1, 31) else if i == 3 then (1, 12) else (0, 7)
  }

  /** The values of the five fields, or the error of the first that does not parse. */
  function ParsedCron(expression: string): Result<Fields, CronError> {
    var words := Words(expression);
    if |words| != 5 then Err(BadFieldCount) else Combined(FieldsOf(words))
  }

  function FieldsOf(words: seq<string>): seq<Result<set<int>, CronError>>
    requires |words| == 5
  {
    seq(5, i requires 0 <= i < 5 => FieldValues(words[i], RangeOf(i).0, RangeOf(i).1))
  }

  function Combined(r: seq<Result<set<int>, CronError>>): Result<Fields, CronError>
    requires |r| == 5
  {
    if r[0].Err? then Err(r[0].error)
    else if r[1].Err? then Err(r[1].error)
    else if r[2].Err? then Err(r[2].error)
    else if r[3].Err? then Err(r[3].error)
    else if r[4].Err? then Err(r[4].error)
    else Ok(Fields(r[0].value, r[1].value, r[2].value, r[3].value, r[4].value))
  }

  // ---------------------------------------------------------------- the parser itself

  method ParseField(value: string, minimum: int, maximum: int) returns (r: Result<set<int>, CronError>)
    ensures r == FieldValues(value, minimum, maximum)
    ensures r.Ok? ==> r.value != {} && forall x :: x in r.value ==> minimum <= x <= maximum
  {
    var items := Split(value, ',');
    var result: set<int> := {};
    for i := 0 to |items|
      invariant ItemsValues(items[..i], minimum, maximum) == Ok(result)
    {
      assert items[..i + 1][..i] == items[..i];
      FirstErrorWins(items, i + 1, minimum, maximum);
      var values := ParseItem(items[i], minimum, maximum);
      if values.Err? {
        return values;
      }
      result := result + values.value;
    }
    assert items[..|items|] == items;
    FieldIsANonEmptySubset(value, minimum, maximum);
    return Ok(result);
  }

  method ParseCron(expression: string) returns (r: Result<Fields, CronError>)
    ensures r == ParsedCron(expression)
  {
    var words := Words(expression);
    if |words| != 5 {
      return Err(BadFieldCount);
    }
    ghost var fields := FieldsOf(words);
    var sets: seq<set<int>> := [];
    for i := 0 to 5
      invariant |sets| == i
      invariant forall j :: 0 <= j < i ==> fields[j] == Ok(sets[j])
    {
      var values := ParseField(words[i], RangeOf(i).0, RangeOf(i).1);
      if values.Err? {
        FirstBadField(fields, i);
        return Err(values.error);
      }
      sets := sets + [values.value];
    }
    return Ok(Fields(sets[0], sets[1], sets[2], sets[3], sets[4]));
  }

  lemma FirstBadField(r: seq<Result<set<int>, CronError>>, i: nat)
    requires |r| == 5 && i < 5 && r[i].Err?
    requires forall j :: 0 <= j < i ==> r[j].Ok?
    ensures Combined(r) == Err(r[i].error)
  {
  }

  lemma OneIsOne()
    ensures IsNumeral("1") && ToNat("1") == 1
  {
    assert "1"[..0] == "";
  }

  method ParseItem(item: string, minimum: int, maximum: int) returns (r: Result<set<int>, CronError>)
    ensures r == ItemValues(item, minimum, maximum)
  {
    var slash := Find(item, '/');
    var separator := slash >= 0;
    var base := if separator then item[..slash] else item;
    var stepText := if separator then item[slash + 1..] else "";
    var step := if separator && IsNumeral(stepText) then ToNat(stepText) else 1;
    OneIsOne();
    if separator && (!IsNumeral(stepText) || step < 1) {
      return Err(BadStep);
    }
    r := ParseBase(base, step, minimum, maximum);
  }

  /** The bounds before the step, and the values between them. */
  method ParseBase(base: string, step: nat, minimum: int, maximum: int) returns (r: Result<set<int>, CronError>)
    requires step >= 1
    ensures r == BaseValues(base, step, minimum, maximum)
  {
    var start, end;
    if base == "*" {
      start, end := minimum, maximum;
    } else {
      var bounds := Split(base, '-');
      if !AreBounds(bounds) {
        return Err(BadField);
      }
      start := ToNat(bounds[0]);
      end := ToNat(bounds[|bounds| - 1]);
    }
    if start < minimum || end > maximum || start > end {
      return Err(OutOfRange);
    }
    return Ok(SteppedRange(start, end, step));
  }

  lemma {:induction false} FirstErrorWins(items: seq<string>, n: nat, minimum: int, maximum: int)
    requires n <= |items|
    ensures ItemsValues(items[..n], minimum, maximum).Err? ==>
              ItemsValues(items, minimum, maximum) == ItemsValues(items[..n], minimum, maximum)
  {
    if n < |items| {
      assert items[..|items| - 1][..n] == items[..n];
      FirstErrorWins(items[..|items| - 1], n, minimum, maximum);
    } else {
      assert items[..n] == items;
    }
  }

  lemma {:induction false} ItemsAreSubsets(items: seq<string>, minimum: int, maximum: int)
    requires ItemsValues(items, minimum, maximum).Ok?
    ensures var values := ItemsValues(items, minimum, maximum).value;
            && (items != [] ==> values != {})
            && forall x :: x in values ==> minimum <= x <= maximum
  {
    if items != [] {
      ItemsAreSubsets(items[..|items| - 1], minimum, maximum);
      ItemIsANonEmptySubset(items[|items| - 1], minimum, maximum);
    }
  }

  lemma ItemIsANonEmptySubset(item: string, minimum: int, maximum: int)
    requires ItemValues(item, minimum, maximum).Ok?
    ensures var values := ItemValues(item, minimum, maximum).value;
            values != {} && forall x :: x in values ==> minimum <= x <= maximum
  {
    var slash := Find(item, '/');
    var base := if slash < 0 then item else item[..slash];
    var step := ToNat(if slash < 0 then "1" else item[slash + 1..]);
    assert ItemValues(item, minimum, maximum) == BaseValues(base, step, minimum, maximum);
    var bounds := Split(base, '-');
    var start := if base == "*" then minimum else ToNat(bounds[0]);
    assert start in ItemValues(item, minimum, maximum).value;
  }

  /** A parsed field is never empty and never leaves its range. */
  lemma FieldIsANonEmptySubset(field: string, minimum: int, maximum: int)
    requires FieldValues(field, minimum, maximum).Ok?
    ensures var values := FieldValues(field, minimum, maximum).value;
            values != {} && forall x :: x in values ==> minimum <= x <= maximum
  {
    ItemsAreSubsets(Split(field, ','), minimum, maximum);
  }

  predicate WellRanged(f: Fields) {
    && f.minutes != {} && (forall x :: x in f.minutes ==> 0 <= x <= 59)
    && f.hours != {} && (forall x :: x in f.hours ==> 0 <= x <= 23)
    && f.days != {} && (forall x :: x in f.days ==> 1 <= x <= 31)
    && f.months != {} && (forall x :: x in f.months ==> 1 <= x <= 12)
    && f.weekdays != {} && (forall x :: x in f.weekdays ==> 0 <= x <= 7)
  }

  lemma ParsedFieldsAreWellRanged(expression: string)
    requires ParsedCron(expression).Ok?
    ensures WellRanged(ParsedCron(expression).value)
  {
    var words := Words(expression);
    FieldIsANonEmptySubset(words[0], 0, 59);
    FieldIsANonEmptySubset(words[1], 0, 23);
    FieldIsANonEmptySubset(words[2], 1, 31);
    FieldIsANonEmptySubset(words[3], 1, 12);
    FieldIsANonEmptySubset(words[4], 0, 7);
  }

  // ---------------------------------------------------------------- what a written expression means

  datatype Bounds = Every | Only(n: nat) | Between(first: nat, last: nat)

  datatype Item = Item(bounds: Bounds, step: Option<nat>) {

    function First(minimum: int): int {
      match bounds case Every => minimum case Only(n) => n case Between(a, _) => a
    }

    function Last(maximum: int): int {
      match bounds case Every => maximum case Only(n) => n case Between(_, b) => b
    }

    function Step(): nat {
      match step case None => 1 case Some(n) => n
    }

    predicate Accepted(minimum: int, maximum: int) {
      Step() >= 1 && minimum <= First(minimum) <= Last(maximum) <= maximum
    }

    /** `a-b/s` stands for a, a+s, a+2s, ... up to b; a single number stands for itself whatever its step. */
    predicate Covers(x: int, minimum: int, maximum: int) {
      Step() >= 1 && First(minimum) <= x <= Last(maximum) && OnStep(x, First(minimum), Step())
    }

    function PrintBounds(): string {
      match bounds
      case Every => "*"
      case Only(n) => Numeral(n)
      case Between(a, b) => Numeral(a) + "-" + Numeral(b)
    }

    function Print(): string {
      match step
      case None => PrintBounds()
      case Some(n) => PrintBounds() + "/" + Numeral(n)
    }
  }

  function PrintItems(items: seq<Item>): seq<string> {
    seq(|items|, i requires 0 <= i < |items| => items[i].Print())
  }

  function PrintField(items: seq<Item>): string {
    Join(PrintItems(items), ',')
  }

  lemma SplitBounds(item: Item)
    ensures !item.bounds.Every? ==>
              && item.PrintBounds() != "*"
              && AreBounds(Split(item.PrintBounds(), '-'))
              && ToNat(Split(item.PrintBounds(), '-')[0]) == item.First(0)
              && ToNat(Split(item.PrintBounds(), '-')[|Split(item.PrintBounds(), '-')| - 1]) == item.Last(0)
  {
    match item.bounds
    case Every =>
    case Only(n) =>
      NumeralRoundTrip(n);
      NumeralHasOnlyDigits(n, '-');
      SplitAtomic(Numeral(n), '-');
    case Between(a, b) =>
      NumeralRoundTrip(a);
      NumeralRoundTrip(b);
      NumeralHasOnlyDigits(a, '-');
      NumeralHasOnlyDigits(b, '-');
      SplitFirst(Numeral(a), '-', Numeral(b));
      SplitAtomic(Numeral(b), '-');
      assert item.PrintBounds()[0] == Numeral(a)[0];
  }

  lemma FindSlash(a: string, b: string)
    requires '/' !in a
    ensures Find(a + "/" + b, '/') == |a|
    ensures Find(a, '/') == -1
  {
    var t := a + "/" + b;
    assert t[|a|] == '/';
    assert forall k :: 0 <= k < |a| ==> t[k] == a[k];
  }

  lemma PrintedBoundsHaveNo(item: Item, c: char)
    requires c == '/' || c == ',' || IsSpace(c)
    ensures c !in item.PrintBounds() && (c != '/' ==> c !in item.Print())
  {
    match item.bounds {
      case Every =>
      case Only(n) => NumeralHasOnlyDigits(n, c);
      case Between(a, b) =>
        NumeralHasOnlyDigits(a, c);
        NumeralHasOnlyDigits(b, c);
    }
    if item.step.Some? {
      NumeralHasOnlyDigits(item.step.value, c);
    }
  }

  lemma SlashSplits(base: string, step: string)
    requires '/' !in base
    ensures var text := base + "/" + step;
            Find(text, '/') == |base| && text[..|base|] == base && text[|base| + 1..] == step
  {
    FindSlash(base, step);
  }

  lemma PrintedItemSplits(item: Item, minimum: int, maximum: int)
    ensures ItemValues(item.Print(), minimum, maximum) ==
            if item.Step() < 1 then Err(BadStep)
            else BaseValues(item.PrintBounds(), item.Step(), minimum, maximum)
  {
    var text, base := item.Print(), item.PrintBounds();
    PrintedBoundsHaveNo(item, '/');
    match item.step
    case Some(n) =>
      NumeralRoundTrip(n);
      SlashSplits(base, Numeral(n));
      assert text == base + "/" + Numeral(n);
    case None =>
      FindSlash(base, "");
      assert "1"[..0] == "";
      assert ToNat("1") == 1;
  }

  lemma PrintedBoundsMean(item: Item, step: nat, minimum: int, maximum: int)
    requires step >= 1
    ensures BaseValues(item.PrintBounds(), step, minimum, maximum) ==
            Range(item.First(minimum), item.Last(maximum), step, minimum, maximum)
  {
    SplitBounds(item);
  }

  lemma PrintedItemMeans(item: Item, minimum: int, maximum: int)
    requires minimum <= maximum
    ensures var r := ItemValues(item.Print(), minimum, maximum);
            && (r.Ok? <==> item.Accepted(minimum, maximum))
            && (r.Ok? ==> forall x :: x in r.value <==> item.Covers(x, minimum, maximum))
            && (r.Err? ==> r.error == if item.Step() == 0 then BadStep else OutOfRange)
  {
    PrintedItemSplits(item, minimum, maximum);
    if item.Step() >= 1 {
      PrintedBoundsMean(item, item.Step(), minimum, maximum);
    }
  }

  predicate AllAccepted(items: seq<Item>, minimum: int, maximum: int) {
    forall k :: 0 <= k < |items| ==> items[k].Accepted(minimum, maximum)
  }

  predicate SomeCovers(items: seq<Item>, x: int, minimum: int, maximum: int) {
    exists k :: 0 <= k < |items| && items[k].Covers(x, minimum, maximum)
  }

  lemma SomeCoversSplit(items: seq<Item>, x: int, minimum: int, maximum: int)
    requires items != []
    ensures SomeCovers(items, x, minimum, maximum) <==>
            || SomeCovers(items[..|items| - 1], x, minimum, maximum)
            || items[|items| - 1].Covers(x, minimum, maximum)
  {
    var front := items[..|items| - 1];
    if SomeCovers(items, x, minimum, maximum) {
      var k :| 0 <= k < |items| && items[k].Covers(x, minimum, maximum);
      assert k < |front| ==> front[k].Covers(x, minimum, maximum);
    }
    if SomeCovers(front, x, minimum, maximum) {
      var k :| 0 <= k < |front| && front[k].Covers(x, minimum, maximum);
      assert items[k].Covers(x, minimum, maximum);
    }
  }

  /** `r` is the set the items cover if all of them are accepted, and an error otherwise. */
  ghost predicate Means(r: Result<set<int>, CronError>, items: seq<Item>, minimum: int, maximum: int) {
    && (r.Ok? <==> AllAccepted(items, minimum, maximum))
    && (r.Ok? ==> forall x :: x in r.value <==> SomeCovers(items, x, minimum, maximum))
  }

  lemma MeansOneMore(before: Result<set<int>, CronError>, value: Result<set<int>, CronError>, items: seq<Item>, minimum: int, maximum: int)
    requires items != []
    requires Means(before, items[..|items| - 1], minimum, maximum)
    requires var last := items[|items| - 1];
             && (value.Ok? <==> last.Accepted(minimum, maximum))
             && (value.Ok? ==> forall x :: x in value.value <==> last.Covers(x, minimum, maximum))
    ensures Means(if before.Err? then before else if value.Err? then value else Ok(before.value + value.value),
                  items, minimum, maximum)
  {
    var front, last := items[..|items| - 1], items[|items| - 1];
    assert AllAccepted(items, minimum, maximum) <==>
           AllAccepted(front, minimum, maximum) && last.Accepted(minimum, maximum) by {
      assert forall k :: 0 <= k < |front| ==> front[k] == items[k];
    }
    forall x
      ensures SomeCovers(items, x, minimum, maximum) <==>
              SomeCovers(front, x, minimum, maximum) || last.Covers(x, minimum, maximum)
    {
      SomeCoversSplit(items, x, minimum, maximum);
    }
  }

  lemma {:induction false} PrintedItemsMean(items: seq<Item>, minimum: int, maximum: int)
    requires minimum <= maximum
    ensures Means(ItemsValues(PrintItems(items), minimum, maximum), items, minimum, maximum)
  {
    if items != [] {
      var front, last := items[..|items| - 1], items[|items| - 1];
      assert PrintItems(items)[..|items| - 1] == PrintItems(front);
      PrintedItemsMean(front, minimum, maximum);
      PrintedItemMeans(last, minimum, maximum);
      MeansOneMore(ItemsValues(PrintItems(front), minimum, maximum), ItemValues(last.Print(), minimum, maximum),
                   items, minimum, maximum);
    }
  }

  /** A written field is accepted exactly when every item is in range, and stands for what its items cover. */
  lemma PrintedFieldMeans(items: seq<Item>, minimum: int, maximum: int)
    requires items != [] && minimum <= maximum
    ensures Means(FieldValues(PrintField(items), minimum, maximum), items, minimum, maximum)
  {
    forall i | 0 <= i < |items| ensures ',' !in PrintItems(items)[i] {
      PrintedBoundsHaveNo(items[i], ',');
    }
    SplitJoin(PrintItems(items), ',');
    PrintedItemsMean(items, minimum, maximum);
  }

  predicate IsWord(s: string) {
    s != "" && forall i :: 0 <= i < |s| ==> !IsSpace(s[i])
  }

  predicate IsBlank(s: string) {
    forall i :: 0 <= i < |s| ==> IsSpace(s[i])
  }

  lemma {:induction false} WordsAfterWord(word: string, s: string, rest: string)
    requires forall i :: 0 <= i < |s| ==> !IsSpace(s[i])
    ensures WordsAfter(s + rest, word) == WordsAfter(rest, word + s)
    decreases |s|
  {
    if s == "" {
      assert s + rest == rest && word + s == word;
    } else {
      assert (s + rest)[1..] == s[1..] + rest;
      WordsAfterWord(word + [s[0]], s[1..], rest);
      assert word + [s[0]] + s[1..] == word + s;
    }
  }

  lemma {:induction false} WordsAfterBlank(blank: string, rest: string)
    requires IsBlank(blank)
    ensures WordsAfter(blank + rest, "") == WordsAfter(rest, "")
  {
    if blank == "" {
      assert blank + rest == rest;
    } else {
      assert (blank + rest)[1..] == blank[1..] + rest;
      WordsAfterBlank(blank[1..], rest);
    }
  }

  /** Words separated by any whitespace, with any whitespace around them, are found again. */
  lemma {:induction false} WordsAreFound(words: seq<string>, gaps: seq<string>)
    requires |gaps| == |words| + 1
    requires forall i :: 0 <= i < |words| ==> IsWord(words[i])
    requires forall i :: 0 <= i < |gaps| ==> IsBlank(gaps[i])
    requires forall i :: 1 <= i < |words| ==> gaps[i] != ""
    ensures Words(Spaced(words, gaps)) == words
  {
    if words == [] {
      WordsAfterBlank(gaps[0], "");
      assert gaps[0] + "" == gaps[0];
    } else {
      var rest := Spaced(words[1..], gaps[1..]);
      assert Spaced(words, gaps) == gaps[0] + (words[0] + rest);
      WordsAfterBlank(gaps[0], words[0] + rest);
      WordsAfterWord("", words[0], rest);
      assert "" + words[0] == words[0];
      WordsAreFound(words[1..], gaps[1..]);
      if rest != "" {
        if |words| > 1 {
          assert rest == gaps[1] + (words[1] + Spaced(words[2..], gaps[2..])) by {
            assert words[1..][1..] == words[2..] && gaps[1..][1..] == gaps[2..];
          }
          assert rest[0] == gaps[1][0];
        } else {
          assert rest == gaps[1];
        }
        assert IsSpace(rest[0]);
        assert WordsAfter(rest, words[0]) == [words[0]] + WordsAfter(rest[1..], "");
        assert WordsAfter(rest, "") == [] + WordsAfter(rest[1..], "");
      }
    }
  }

  function Spaced(words: seq<string>, gaps: seq<string>): string
    requires |gaps| == |words| + 1
  {
    if words == [] then gaps[0] else gaps[0] + words[0] + Spaced(words[1..], gaps[1..])
  }

  lemma PrintedFieldIsAWord(items: seq<Item>)
    requires items != []
    ensures IsWord(PrintField(items))
  {
    forall i | 0 <= i < |items| ensures IsWord(PrintItems(items)[i]) {
      PrintedItemIsAWord(items[i]);
    }
    JoinIsAWord(PrintItems(items));
  }

  lemma PrintedItemIsAWord(item: Item)
    ensures IsWord(item.Print())
  {
    BoundsAreAWord(item);
    if item.step.Some? {
      NumeralRoundTrip(item.step.value);
      WordsAppend(item.PrintBounds(), "/" + Numeral(item.step.value));
      assert item.PrintBounds() + ("/" + Numeral(item.step.value)) == item.Print();
    }
  }

  lemma BoundsAreAWord(item: Item)
    ensures IsWord(item.PrintBounds())
  {
    match item.bounds
    case Every =>
    case Only(n) => NumeralIsAWord(n);
    case Between(a, b) =>
      NumeralIsAWord(a);
      NumeralIsAWord(b);
      DashedIsAWord(Numeral(a), Numeral(b));
  }

  lemma NumeralIsAWord(n: nat)
    ensures IsWord(Numeral(n))
  {
    NumeralRoundTrip(n);
  }

  lemma DashedIsAWord(a: string, b: string)
    requires IsWord(a) && IsWord(b)
    ensures IsWord(a + "-" + b)
  {
  }

  lemma WordsAppend(a: string, b: string)
    requires IsWord(a) && forall i :: 0 <= i < |b| ==> !IsSpace(b[i])
    ensures IsWord(a + b)
  {
  }

  lemma {:induction false} JoinIsAWord(parts: seq<string>)
    requires parts != [] && forall i :: 0 <= i < |parts| ==> IsWord(parts[i])
    ensures IsWord(Join(parts, ','))
  {
    if |parts| > 1 {
      JoinIsAWord(parts[1..]);
    }
  }

  /** A written expression of five fields parses exactly when its fields do, and to their values. */
  lemma PrintedExpressionParses(fields: seq<seq<Item>>, gaps: seq<string>)
    requires |fields| == 5 && |gaps| == 6
    requires forall i :: 0 <= i < 5 ==> fields[i] != []
    requires forall i :: 0 <= i < 6 ==> IsBlank(gaps[i])
    requires forall i :: 1 <= i < 5 ==> gaps[i] != ""
    ensures var written := seq(5, i requires 0 <= i < 5 => PrintField(fields[i]));
            var parsed := ParsedCron(Spaced(written, gaps));
            var mi, h, d := FieldValues(written[0], 0, 59), FieldValues(written[1], 0, 23), FieldValues(written[2], 1, 31);
            var mo, w := FieldValues(written[3], 1, 12), FieldValues(written[4], 0, 7);
            && (parsed.Ok? <==> mi.Ok? && h.Ok? && d.Ok? && mo.Ok? && w.Ok?)
            && (parsed.Ok? ==> parsed.value == Fields(mi.value, h.value, d.value, mo.value, w.value))
  {
    var written := seq(5, i requires 0 <= i < 5 => PrintField(fields[i]));
    forall i | 0 <= i < 5 ensures IsWord(written[i]) {
      PrintedFieldIsAWord(fields[i]);
    }
    WordsAreFound(written, gaps);
  }
}
