/** Finding the dotted path of a key in a JSON value, and following such a path. */
module JsonPaths {
  import opened Wrappers
  import opened JsonTree
  import opened Decimal

  // ---------------------------------------------------------------- following a path

  function Lookup(entries: Entries, key: string): Option<Json> {
    match entries
    case NoEntry => None
    case Entry(k, v, others) => if k == key then Some(v) else Lookup(others, key)
  }

  function Length(items: Items): nat {
    match items
    case NoItem => 0
    case Item(_, tail) => 1 + Length(tail)
  }

  function Nth(items: Items, n: nat): Json
    requires n < Length(items)
  {
    if n == 0 then items.head else Nth(items.tail, n - 1)
  }

  /** One step of a path: a key of a dictionary, or the decimal index of a list. */
  function Child(v: Json, part: string): Option<Json> {
    match v
    case Dict(entries) => Lookup(entries, part)
    case List(items) =>
      if IsNumeral(part) && ToNat(part) < Length(items) then Some(Nth(items, ToNat(part))) else None
    case _ => None
  }

  function Descend(v: Json, parts: seq<string>): Option<Json>
    decreases |parts|
  {
    if parts == [] then Some(v)
    else
      match Child(v, parts[0])
      case None => None
      case Some(child) => Descend(child, parts[1..])
  }

  function Resolved(data: Json, path: string): Option<Json> {
    if path == "" then Some(data) else Descend(data, Split(path, '.'))
  }

  method ResolveTracePath(data: Json, path: string) returns (r: Option<Json>)
    ensures r == Resolved(data, path)
  {
    if path == "" {
      return Some(data);
    }
    var current := data;
    var parts := Split(path, '.');
    for i := 0 to |parts|
      invariant Descend(data, parts) == Descend(current, parts[i..])
    {
      var part := parts[i];
      assert parts[i..][1..] == parts[i + 1..];
      if current.Dict? && Lookup(current.entries, part).Some? {
        current := Lookup(current.entries, part).value;
      } else if current.List? && IsNumeral(part) && ToNat(part) < Length(current.items) {
        current := Nth(current.items, ToNat(part));
      } else {
        return None;
      }
    }
    return Some(current);
  }

  // ---------------------------------------------------------------- the keys of a value, in pre-order

  /** A key of some dictionary inside a value, the way to it, and what it holds. */
  datatype Occurrence = Occurrence(parts: seq<string>, key: string, value: Json) {
    function Path(): string {
      Join(parts, '.')
    }
  }

  function Occurrences(v: Json, parts: seq<string>): seq<Occurrence> {
    match v
    case Dict(entries) => EntryOccurrences(entries, parts)
    case List(items) => ItemOccurrences(items, parts, 0)
    case _ => []
  }

  function EntryOccurrences(entries: Entries, parts: seq<string>): seq<Occurrence> {
    match entries
    case NoEntry => []
    case Entry(key, value, others) =>
      [Occurrence(parts + [key], key, value)] + Occurrences(value, parts + [key]) + EntryOccurrences(others, parts)
  }

  function ItemOccurrences(items: Items, parts: seq<string>, index: nat): seq<Occurrence> {
    match items
    case NoItem => []
    case Item(head, tail) => Occurrences(head, parts + [Numeral(index)]) + ItemOccurrences(tail, parts, index + 1)
  }

  /** A name without everything but its letters and digits, in lower case. */
  function Normalized(name: string): string {
    if name == "" then ""
    else
      var c := if 'A' <= name[0] <= 'Z' then name[0] - 'A' + 'a' else name[0];
      (if 'a' <= c <= 'z' || '0' <= c <= '9' then [c] else "") + Normalized(name[1..])
  }

  predicate IsPlain(c: char) {
    'a' <= c <= 'z' || '0' <= c <= '9'
  }

  lemma {:induction false} NormalizedBoth(a: string, b: string)
    ensures Normalized(a + b) == Normalized(a) + Normalized(b)
  {
    if a == "" {
      assert a + b == b;
    } else {
      assert (a + b)[1..] == a[1..] + b;
      NormalizedBoth(a[1..], b);
    }
  }

  /** Two names are alike whatever stands between their letters and digits, and whichever case the letters have. */
  lemma AlikeUpToMarksAndCase(a: string, c: char, b: string)
    ensures 'a' <= c <= 'z' ==> Normalized(a + [c] + b) == Normalized(a + [c - 'a' + 'A'] + b)
    ensures !IsPlain(c) && !('A' <= c <= 'Z') ==> Normalized(a + [c] + b) == Normalized(a + b)
  {
    AroundOne(a, c, b);
    NormalizedBoth(a, b);
    if 'a' <= c <= 'z' {
      AroundOne(a, c - 'a' + 'A', b);
    }
  }

  lemma AroundOne(a: string, c: char, b: string)
    ensures Normalized(a + [c] + b) == Normalized(a) + Normalized([c]) + Normalized(b)
    ensures Normalized([c]) == if IsPlain(c) then [c] else if 'A' <= c <= 'Z' then [c - 'A' + 'a'] else ""
  {
    NormalizedBoth(a + [c], b);
    NormalizedBoth(a, [c]);
    assert [c][1..] == "";
  }

  /** Nothing else is: plain names stand for themselves. */
  lemma {:induction false} PlainNamesStay(a: string)
    requires forall i :: 0 <= i < |a| ==> IsPlain(a[i])
    ensures Normalized(a) == a
  {
    if a != "" {
      PlainNamesStay(a[1..]);
    }
  }

  /** The path of the first key equal to the name; the first key like it met before then, unless one is known. */
  function Scan(occurrences: seq<Occurrence>, name: string, fallback: Option<string>): (Option<string>, Option<string>) {
    if occurrences == [] then (None, fallback)
    else
      var first := occurrences[0];
      if first.key == name then (Some(first.Path()), fallback)
      else Scan(occurrences[1..], name,
                if fallback == None && Normalized(first.key) == Normalized(name) then Some(first.Path()) else fallback)
  }

  lemma {:induction false} ScanAppend(a: seq<Occurrence>, b: seq<Occurrence>, name: string, fallback: Option<string>)
    ensures Scan(a + b, name, fallback) ==
            if Scan(a, name, fallback).0.Some? then Scan(a, name, fallback)
            else Scan(b, name, Scan(a, name, fallback).1)
  {
    if a == [] {
      assert a + b == b;
    } else {
      assert (a + b)[1..] == a[1..] + b;
      var first := a[0];
      ScanAppend(a[1..], b, name,
                 if fallback == None && Normalized(first.key) == Normalized(name) then Some(first.Path()) else fallback);
    }
  }

  /** The empty path is not taken for a result, as `or` does not take it. */
  function FoundPath(data: Json, name: string): Option<string> {
    var (found, fallback) := Scan(Occurrences(data, []), name, None);
    if found.Some? && found.value != "" then found else fallback
  }

  // ---------------------------------------------------------------- the recursive search

  function Size(v: Json): nat {
    match v
    case Dict(entries) => 1 + EntriesSize(entries)
    case List(items) => 1 + ItemsSize(items)
    case _ => 1
  }

  function EntriesSize(entries: Entries): nat {
    match entries
    case NoEntry => 0
    case Entry(_, value, others) => Size(value) + EntriesSize(others)
  }

  function ItemsSize(items: Items): nat {
    match items
    case NoItem => 0
    case Item(head, tail) => Size(head) + ItemsSize(tail)
  }

  class KeyPathFinder {
    const name: string
    const target: string
    var fallback: Option<string>

    constructor (name: string)
      ensures this.name == name && target == Normalized(name) && fallback == None
    {
      this.name := name;
      this.target := Normalized(name);
      this.fallback := None;
    }

    method Walk(value: Json, parts: seq<string>) returns (found: Option<string>)
      requires target == Normalized(name)
      modifies this
      ensures (found, fallback) == Scan(Occurrences(value, parts), name, old(fallback))
      decreases Size(value)
    {
      if value.Dict? {
        var rest := value.entries;
        ghost var all := Scan(Occurrences(value, parts), name, fallback);
        while rest.Entry?
          invariant EntriesSize(rest) < Size(value)
          invariant all == Scan(EntryOccurrences(rest, parts), name, fallback)
          decreases rest
        {
          var here := parts + [rest.key];
          var currentPath := Join(here, '.');
          EntryStep(rest, parts, name, fallback);
          if rest.key == name {
            return Some(currentPath);
          }
          if fallback == None && Normalized(rest.key) == target {
            fallback := Some(currentPath);
          }
          ghost var before := fallback;
          var inner := Walk(rest.value, here);
          NestedPathIsNotEmpty(rest.value, here, name, before);
          if inner.Some? && inner.value != "" {
            return inner;
          }
          rest := rest.others;
        }
      } else if value.List? {
        var rest, index := value.items, 0;
        ghost var all := Scan(Occurrences(value, parts), name, fallback);
        while rest.Item?
          invariant index >= 0 && ItemsSize(rest) < Size(value)
          invariant all == Scan(ItemOccurrences(rest, parts, index), name, fallback)
          decreases rest
        {
          var here := parts + [Numeral(index)];
          ScanAppend(Occurrences(rest.head, here), ItemOccurrences(rest.tail, parts, index + 1), name, fallback);
          ghost var before := fallback;
          var inner := Walk(rest.head, here);
          NestedPathIsNotEmpty(rest.head, here, name, before);
          if inner.Some? && inner.value != "" {
            return inner;
          }
          rest, index := rest.tail, index + 1;
        }
      }
      return None;
    }
  }

  method FindJsonKeyPath(data: Json, name: string) returns (path: Option<string>)
    ensures path == FoundPath(data, name)
  {
    var finder := new KeyPathFinder(name);
    var found := finder.Walk(data, []);
    return if found.Some? && found.value != "" then found else finder.fallback;
  }

  lemma EntryStep(entries: Entries, parts: seq<string>, name: string, fallback: Option<string>)
    requires entries.Entry?
    ensures var here := parts + [entries.key];
            var path := Join(here, '.');
            var next := if fallback == None && Normalized(entries.key) == Normalized(name) then Some(path) else fallback;
            var inner := Scan(Occurrences(entries.value, here), name, next);
            Scan(EntryOccurrences(entries, parts), name, fallback) ==
              if entries.key == name then (Some(path), fallback)
              else if inner.0.Some? then inner
              else Scan(EntryOccurrences(entries.others, parts), name, inner.1)
  {
    var here := parts + [entries.key];
    var first := Occurrence(here, entries.key, entries.value);
    var inside, after := Occurrences(entries.value, here), EntryOccurrences(entries.others, parts);
    assert EntryOccurrences(entries, parts) == [first] + (inside + after);
    assert ([first] + (inside + after))[1..] == inside + after;
    var next := if fallback == None && Normalized(entries.key) == Normalized(name) then Some(first.Path()) else fallback;
    ScanAppend(inside, after, name, next);
  }

  /** Every occurrence lies below where the search began. */
  lemma {:induction false} OccurrencesAreBelow(v: Json, parts: seq<string>)
    ensures forall i :: 0 <= i < |Occurrences(v, parts)| ==> |Occurrences(v, parts)[i].parts| > |parts|
  {
    match v
    case Dict(entries) => EntryOccurrencesAreBelow(entries, parts);
    case List(items) => ItemOccurrencesAreBelow(items, parts, 0);
    case _ =>
  }

  lemma {:induction false} EntryOccurrencesAreBelow(entries: Entries, parts: seq<string>)
    ensures forall i :: 0 <= i < |EntryOccurrences(entries, parts)| ==> |EntryOccurrences(entries, parts)[i].parts| > |parts|
  {
    if entries.Entry? {
      OccurrencesAreBelow(entries.value, parts + [entries.key]);
      EntryOccurrencesAreBelow(entries.others, parts);
    }
  }

  lemma {:induction false} ItemOccurrencesAreBelow(items: Items, parts: seq<string>, index: nat)
    ensures forall i :: 0 <= i < |ItemOccurrences(items, parts, index)| ==>
                          |ItemOccurrences(items, parts, index)[i].parts| > |parts|
  {
    if items.Item? {
      OccurrencesAreBelow(items.head, parts + [Numeral(index)]);
      ItemOccurrencesAreBelow(items.tail, parts, index + 1);
    }
  }

  lemma {:induction false} ScanFindsALongPath(occurrences: seq<Occurrence>, name: string, fallback: Option<string>)
    requires forall i :: 0 <= i < |occurrences| ==> |occurrences[i].parts| >= 2
    ensures Scan(occurrences, name, fallback).0 != Some("")
  {
    if occurrences != [] {
      var first := occurrences[0];
      ScanFindsALongPath(occurrences[1..], name,
        if fallback == None && Normalized(first.key) == Normalized(name) then Some(first.Path()) else fallback);
    }
  }

  lemma NestedPathIsNotEmpty(v: Json, parts: seq<string>, name: string, fallback: Option<string>)
    requires parts != []
    ensures Scan(Occurrences(v, parts), name, fallback).0 != Some("")
  {
    OccurrencesAreBelow(v, parts);
    ScanFindsALongPath(Occurrences(v, parts), name, fallback);
  }

  // ---------------------------------------------------------------- what is found, and that it resolves

  ghost predicate IsFirstExact(occurrences: seq<Occurrence>, i: nat, name: string) {
    i < |occurrences| && occurrences[i].key == name && forall j :: 0 <= j < i ==> occurrences[j].key != name
  }

  /** Like the name, and no earlier key is. */
  ghost predicate IsFirstLike(occurrences: seq<Occurrence>, i: nat, name: string) {
    && i < |occurrences| && Normalized(occurrences[i].key) == Normalized(name)
    && forall j :: 0 <= j < i ==> Normalized(occurrences[j].key) != Normalized(name)
  }

  ghost predicate NoneExact(occurrences: seq<Occurrence>, name: string) {
    forall j :: 0 <= j < |occurrences| ==> occurrences[j].key != name
  }

  ghost predicate NoneLike(occurrences: seq<Occurrence>, name: string) {
    forall j :: 0 <= j < |occurrences| ==> Normalized(occurrences[j].key) != Normalized(name)
  }

  lemma {:induction false} ScanFindsFirst(occurrences: seq<Occurrence>, name: string, fallback: Option<string>)
    ensures var r := Scan(occurrences, name, fallback);
            && (r.0 == None <==> NoneExact(occurrences, name))
            && (r.0.Some? ==> exists i: nat :: IsFirstExact(occurrences, i, name) && r.0.value == occurrences[i].Path())
            && (fallback.Some? ==> r.1 == fallback)
            && (r.0 == None && fallback == None ==>
                  && (r.1 == None <==> NoneLike(occurrences, name))
                  && (r.1.Some? ==> exists i: nat :: IsFirstLike(occurrences, i, name) && r.1.value == occurrences[i].Path()))
  {
    if occurrences != [] {
      var first, rest := occurrences[0], occurrences[1..];
      var r := Scan(occurrences, name, fallback);
      if first.key == name {
        assert IsFirstExact(occurrences, 0, name);
      } else {
        var like := Normalized(first.key) == Normalized(name);
        var next := if fallback == None && like then Some(first.Path()) else fallback;
        ScanFindsFirst(rest, name, next);
        assert occurrences == [first] + rest;
        assert NoneExact(rest, name) ==> NoneExact(occurrences, name);
        if r.0.Some? {
          var i: nat :| IsFirstExact(rest, i, name) && r.0.value == rest[i].Path();
          assert IsFirstExact(occurrences, i + 1, name) && r.0.value == occurrences[i + 1].Path();
        } else if fallback == None {
          if like {
            assert IsFirstLike(occurrences, 0, name);
          } else {
            assert NoneLike(rest, name) ==> NoneLike(occurrences, name);
            if r.1.Some? {
              var i: nat :| IsFirstLike(rest, i, name) && r.1.value == rest[i].Path();
              assert IsFirstLike(occurrences, i + 1, name) && r.1.value == occurrences[i + 1].Path();
            }
          }
        }
      }
    }
  }

  /** No dictionary has a key twice. */
  predicate HasDistinctKeys(v: Json) {
    match v
    case Dict(entries) => EntriesAreDistinct(entries)
    case List(items) => ItemsAreDistinct(items)
    case _ => true
  }

  predicate EntriesAreDistinct(entries: Entries) {
    match entries
    case NoEntry => true
    case Entry(key, value, others) => Lookup(others, key) == None && HasDistinctKeys(value) && EntriesAreDistinct(others)
  }

  predicate ItemsAreDistinct(items: Items) {
    match items
    case NoItem => true
    case Item(head, tail) => HasDistinctKeys(head) && ItemsAreDistinct(tail)
  }

  /** The way to `o` leads from `start`, reached by `parts`, down to its value. */
  ghost predicate LeadsTo(start: Json, parts: seq<string>, o: Occurrence) {
    && |o.parts| > |parts| && o.parts[..|parts|] == parts
    && Descend(start, o.parts[|parts|..]) == Some(o.value)
    && Size(o.value) < Size(start)
  }

  lemma LeadsToThrough(start: Json, parts: seq<string>, part: string, child: Json, o: Occurrence)
    requires Child(start, part) == Some(child) && Size(child) < Size(start) && LeadsTo(child, parts + [part], o)
    ensures LeadsTo(start, parts, o)
  {
    assert o.parts[..|parts|] == o.parts[..|parts| + 1][..|parts|];
    assert o.parts[|parts|] == o.parts[..|parts| + 1][|parts|] == part;
    assert o.parts[|parts|..][1..] == o.parts[|parts| + 1..];
  }

  lemma {:induction false} OccurrencesResolve(v: Json, parts: seq<string>)
    requires HasDistinctKeys(v)
    ensures forall i :: 0 <= i < |Occurrences(v, parts)| ==> LeadsTo(v, parts, Occurrences(v, parts)[i])
    decreases Size(v), 0
  {
    match v
    case Dict(entries) => EntryOccurrencesResolve(entries, entries, parts);
    case List(items) =>
      assert forall k: nat :: k < Length(items) ==> Nth(items, 0 + k) == Nth(items, k);
      ItemOccurrencesResolve(items, items, parts, 0);
    case _ =>
  }

  lemma {:induction false} EntryOccurrencesResolve(all: Entries, rest: Entries, parts: seq<string>)
    requires EntriesAreDistinct(rest) && EntriesSize(rest) <= EntriesSize(all)
    requires forall k :: Lookup(rest, k).Some? ==> Lookup(all, k) == Lookup(rest, k)
    ensures forall i :: 0 <= i < |EntryOccurrences(rest, parts)| ==>
                          LeadsTo(Dict(all), parts, EntryOccurrences(rest, parts)[i])
    decreases EntriesSize(rest), 1
  {
    if rest.Entry? {
      var here := parts + [rest.key];
      var inside, after := Occurrences(rest.value, here), EntryOccurrences(rest.others, parts);
      assert Lookup(rest, rest.key) == Some(rest.value);
      assert Child(Dict(all), rest.key) == Some(rest.value);
      assert EntriesSize(rest.others) < EntriesSize(rest);
      OccurrencesResolve(rest.value, here);
      forall i | 0 <= i < |inside| ensures LeadsTo(Dict(all), parts, inside[i]) {
        LeadsToThrough(Dict(all), parts, rest.key, rest.value, inside[i]);
      }
      forall k | Lookup(rest.others, k).Some? ensures Lookup(all, k) == Lookup(rest.others, k) {
        assert Lookup(rest, k) == Lookup(rest.others, k);
      }
      EntryOccurrencesResolve(all, rest.others, parts);
      var first := Occurrence(here, rest.key, rest.value);
      assert here[|parts|..] == [rest.key];
      assert Descend(Dict(all), [rest.key]) == Some(rest.value);
      assert LeadsTo(Dict(all), parts, first);
    }
  }

  lemma {:induction false} ItemOccurrencesResolve(all: Items, rest: Items, parts: seq<string>, index: nat)
    requires ItemsAreDistinct(rest) && ItemsSize(rest) <= ItemsSize(all)
    requires Length(all) == index + Length(rest)
    requires forall k: nat :: k < Length(rest) ==> Nth(all, index + k) == Nth(rest, k)
    ensures forall i :: 0 <= i < |ItemOccurrences(rest, parts, index)| ==>
                          LeadsTo(List(all), parts, ItemOccurrences(rest, parts, index)[i])
    decreases ItemsSize(rest), 1
  {
    if rest.Item? {
      var here := parts + [Numeral(index)];
      NumeralRoundTrip(index);
      assert Nth(all, index + 0) == Nth(rest, 0);
      assert Child(List(all), Numeral(index)) == Some(rest.head);
      assert ItemsSize(rest.tail) < ItemsSize(rest);
      OccurrencesResolve(rest.head, here);
      var inside := Occurrences(rest.head, here);
      forall i | 0 <= i < |inside| ensures LeadsTo(List(all), parts, inside[i]) {
        LeadsToThrough(List(all), parts, Numeral(index), rest.head, inside[i]);
      }
      forall k: nat | k < Length(rest.tail) ensures Nth(all, index + 1 + k) == Nth(rest.tail, k) {
        assert Nth(all, index + (k + 1)) == Nth(rest, k + 1);
      }
      ItemOccurrencesResolve(all, rest.tail, parts, index + 1);
    }
  }

  // ---------------------------------------------------------------- which key the path is for

  /** The empty key at the top: its path is the empty one. */
  predicate IsTopEmptyKey(o: Occurrence) {
    o.parts == [""]
  }

  /**
   The key whose path is returned: the first equal to the name, unless that is the empty key at the top;
   else the first like the name, if it was met before the search stopped.
   */
  ghost predicate IsChosen(occurrences: seq<Occurrence>, i: nat, name: string) {
    || (IsFirstExact(occurrences, i, name) && !IsTopEmptyKey(occurrences[i]))
    || (IsFirstLike(occurrences, i, name) && (NoneExact(occurrences, name) || StopsAfter(occurrences, i, name)))
  }

  /** The first key equal to the name is the empty key at the top, and stands after `i`. */
  ghost predicate StopsAfter(occurrences: seq<Occurrence>, i: int, name: string) {
    exists e: nat :: i < e && IsFirstExact(occurrences, e, name) && IsTopEmptyKey(occurrences[e])
  }

  lemma {:induction false} OnlyTheTopEmptyKeyHasNoPath(parts: seq<string>)
    requires parts != []
    ensures Join(parts, '.') == "" <==> parts == [""]
  {
  }

  /** What the scan has as a fallback when it stops at the first exact match: the first key like the name before it. */
  lemma {:induction false} FallbackBeforeExact(occurrences: seq<Occurrence>, name: string, e: nat)
    requires IsFirstExact(occurrences, e, name)
    ensures var fallback := Scan(occurrences, name, None).1;
            && (fallback == None <==> forall j :: 0 <= j < e ==> Normalized(occurrences[j].key) != Normalized(name))
            && forall i: nat :: i < e && IsFirstLike(occurrences, i, name) ==> fallback == Some(occurrences[i].Path())
  {
    var before, rest := occurrences[..e], occurrences[e..];
    assert occurrences == before + rest;
    ScanAppend(before, rest, name, None);
    ScanFindsFirst(before, name, None);
    assert NoneExact(before, name);
    var fallback := Scan(before, name, None).1;
    assert rest[0] == occurrences[e];
    assert Scan(occurrences, name, None).1 == fallback;
    if fallback == None {
      assert NoneLike(before, name);
      assert forall j :: 0 <= j < e ==> before[j] == occurrences[j];
    } else {
      var i: nat :| IsFirstLike(before, i, name) && fallback.value == before[i].Path();
      assert IsFirstLike(occurrences, i, name);
    }
  }

  /** The path returned is that of the chosen key; none is returned exactly when no key is chosen. */
  lemma FoundPathIsOfTheChosen(data: Json, name: string)
    ensures IsPathOfTheChosen(Occurrences(data, []), name, FoundPath(data, name))
  {
    var occurrences := Occurrences(data, []);
    ScanFindsFirst(occurrences, name, None);
    OccurrencesAreBelow(data, []);
    var (found, fallback) := Scan(occurrences, name, None);
    if found == None {
      ChosenAmongNoneExact(occurrences, name, fallback);
    } else {
      var e: nat :| IsFirstExact(occurrences, e, name) && found.value == occurrences[e].Path();
      OnlyTheTopEmptyKeyHasNoPath(occurrences[e].parts);
      if IsTopEmptyKey(occurrences[e]) {
        FallbackBeforeExact(occurrences, name, e);
        ChosenBeforeTheTopEmptyKey(occurrences, name, e, fallback);
      } else {
        ChosenExact(occurrences, name, e);
      }
    }
  }

  ghost predicate IsPathOfTheChosen(occurrences: seq<Occurrence>, name: string, path: Option<string>) {
    && (forall i: nat :: IsChosen(occurrences, i, name) ==> path == Some(occurrences[i].Path()))
    && (path == None <==> forall i: nat :: !IsChosen(occurrences, i, name))
  }

  lemma ChosenExact(occurrences: seq<Occurrence>, name: string, e: nat)
    requires IsFirstExact(occurrences, e, name) && !IsTopEmptyKey(occurrences[e])
    ensures IsPathOfTheChosen(occurrences, name, Some(occurrences[e].Path()))
  {
    assert IsChosen(occurrences, e, name);
    forall i: nat | IsChosen(occurrences, i, name) ensures i == e {
      FirstExactIsUnique(occurrences, name, e);
    }
  }

  lemma FirstExactIsUnique(occurrences: seq<Occurrence>, name: string, e: nat)
    requires IsFirstExact(occurrences, e, name)
    ensures forall i: nat :: IsFirstExact(occurrences, i, name) ==> i == e
    ensures !NoneExact(occurrences, name)
  {
  }

  lemma ChosenBeforeTheTopEmptyKey(occurrences: seq<Occurrence>, name: string, e: nat, fallback: Option<string>)
    requires IsFirstExact(occurrences, e, name) && IsTopEmptyKey(occurrences[e])
    requires fallback == None <==> forall j :: 0 <= j < e ==> Normalized(occurrences[j].key) != Normalized(name)
    requires forall i: nat :: i < e && IsFirstLike(occurrences, i, name) ==> fallback == Some(occurrences[i].Path())
    ensures IsPathOfTheChosen(occurrences, name, fallback)
  {
    FirstExactIsUnique(occurrences, name, e);
    forall i: nat | IsChosen(occurrences, i, name) ensures i < e && IsFirstLike(occurrences, i, name) {
    }
    if fallback.Some? {
      var i := FirstLike(occurrences, name);
      assert StopsAfter(occurrences, i, name);
      assert IsChosen(occurrences, i, name);
    }
  }

  lemma ChosenAmongNoneExact(occurrences: seq<Occurrence>, name: string, fallback: Option<string>)
    requires NoneExact(occurrences, name) && (fallback == None <==> NoneLike(occurrences, name))
    requires fallback.Some? ==> exists i: nat :: IsFirstLike(occurrences, i, name) && fallback.value == occurrences[i].Path()
    ensures IsPathOfTheChosen(occurrences, name, fallback)
  {
    if fallback.Some? {
      var i: nat :| IsFirstLike(occurrences, i, name) && fallback.value == occurrences[i].Path();
      assert IsChosen(occurrences, i, name);
      forall j: nat | IsChosen(occurrences, j, name) ensures j == i {
        assert IsFirstLike(occurrences, j, name);
      }
    }
  }

  lemma {:induction false} FirstLike(occurrences: seq<Occurrence>, name: string) returns (i: nat)
    requires !NoneLike(occurrences, name)
    ensures IsFirstLike(occurrences, i, name)
  {
    i := 0;
    while Normalized(occurrences[i].key) != Normalized(name)
      invariant 0 <= i < |occurrences|
      invariant forall j :: 0 <= j < i ==> Normalized(occurrences[j].key) != Normalized(name)
      decreases |occurrences| - i
    {
      if i == |occurrences| - 1 {
        assert NoneLike(occurrences, name);
        assert false;
      }
      i := i + 1;
    }
  }

  /**
   No path comes back for a name that some key is like exactly when the search stops at the empty key at the
   top before it meets another like it.
   */
  lemma MatchesButHasNoPath(data: Json, name: string)
    ensures var occurrences := Occurrences(data, []);
            FoundPath(data, name) == None <==>
              || NoneLike(occurrences, name)
              || exists e: nat :: IsFirstExact(occurrences, e, name) && IsTopEmptyKey(occurrences[e])
                                  && IsFirstLike(occurrences, e, name)
  {
    var occurrences := Occurrences(data, []);
    FoundPathIsOfTheChosen(data, name);
    if !NoneLike(occurrences, name) {
      var i := FirstLike(occurrences, name);
      ScanFindsFirst(occurrences, name, None);
      if !NoneExact(occurrences, name) {
        var e: nat :| IsFirstExact(occurrences, e, name);
        assert i <= e;
        assert IsTopEmptyKey(occurrences[e]) && i < e ==> StopsAfter(occurrences, i, name);
      }
    }
  }

  // ---------------------------------------------------------------- whether the path leads back

  /** A way that its dotted path tells apart from others: no part has a dot, and it is not the empty key alone. */
  predicate IsPlainWay(parts: seq<string>) {
    parts != [""] && forall i :: 0 <= i < |parts| ==> '.' !in parts[i]
  }

  /** Read as a path, the way is the way again, and following it ends at the value. */
  predicate LeadsBack(data: Json, o: Occurrence) {
    Split(o.Path(), '.') == o.parts && Resolved(data, o.Path()) == Some(o.value)
  }

  /**
   The path of a key leads back to it exactly when no part of the way has a dot and the way is not the empty
   key alone.  Otherwise it is the empty path, which leads to the whole value, or it is read as a longer way.
   */
  lemma PathsLeadBackExactlyWhenPlain(data: Json, i: nat)
    requires HasDistinctKeys(data) && i < |Occurrences(data, [])|
    ensures var o := Occurrences(data, [])[i];
            && (LeadsBack(data, o) <==> IsPlainWay(o.parts))
            && (IsTopEmptyKey(o) ==> Resolved(data, o.Path()) == Some(data) && o.value != data)
            && ((exists k :: 0 <= k < |o.parts| && '.' in o.parts[k]) ==>
                  Resolved(data, o.Path()) == Descend(data, Split(o.Path(), '.')) && |Split(o.Path(), '.')| > |o.parts|)
  {
    var o := Occurrences(data, [])[i];
    OccurrencesResolve(data, []);
    assert LeadsTo(data, [], o);
    assert o.parts[0..] == o.parts;
    OnlyTheTopEmptyKeyHasNoPath(o.parts);
    SplitUndoesJoin(o.parts, '.');
    JoinedLength(o.parts, '.');
  }

  /** So the path that is found leads back to the key it was found for exactly when that key's way is plain. */
  lemma FoundPathsResolve(data: Json, name: string, i: nat)
    requires HasDistinctKeys(data) && IsChosen(Occurrences(data, []), i, name)
    ensures var o := Occurrences(data, [])[i];
            && FoundPath(data, name) == Some(o.Path())
            && (LeadsBack(data, o) <==> IsPlainWay(o.parts))
            && (IsPlainWay(o.parts) ==> Resolved(data, FoundPath(data, name).value) == Some(o.value))
            && (FoundPath(data, name) == Some("") <==> IsTopEmptyKey(o))
  {
    FoundPathIsOfTheChosen(data, name);
    PathsLeadBackExactlyWhenPlain(data, i);
    OccurrencesAreBelow(data, []);
    OnlyTheTopEmptyKeyHasNoPath(Occurrences(data, [])[i].parts);
  }

  // ---------------------------------------------------------------- the ways it can fail

  lemma {:induction false} FirstPiece(s: string, sep: char)
    ensures sep !in Split(s, sep)[0]
  {
    if s != "" && s[0] != sep {
      FirstPiece(s[1..], sep);
    }
  }

  /** The only key of a dictionary, with a dot in it: its path is found and leads nowhere. */
  lemma DottedKeyAlone(key: string, value: Json)
    requires '.' in key
    ensures var data := Dict(Entry(key, value, NoEntry));
            FoundPath(data, key) == Some(key) && Resolved(data, key) == None
  {
    var data := Dict(Entry(key, value, NoEntry));
    FirstKeyIsFound(key, value, NoEntry);
    FirstPiece(key, '.');
    var parts := Split(key, '.');
    assert parts[0] != key;
    assert Lookup(data.entries, parts[0]) == None;
    assert Child(data, parts[0]) == None;
  }

  /** Beside the keys it seems to spell, its path leads to what they hold. */
  lemma DottedKeyBesideItsParts(a: string, b: string, value: Json, other: Json)
    requires '.' !in a && '.' !in b
    ensures var key := a + "." + b;
            var data := Dict(Entry(key, value, Entry(a, Dict(Entry(b, other, NoEntry)), NoEntry)));
            FoundPath(data, key) == Some(key) && Resolved(data, key) == Some(other)
  {
    var key := a + "." + b;
    var inner := Dict(Entry(b, other, NoEntry));
    var data := Dict(Entry(key, value, Entry(a, inner, NoEntry)));
    FirstKeyIsFound(key, value, Entry(a, inner, NoEntry));
    SplitFirst(a, '.', b);
    SplitAtomic(b, '.');
    assert a + ['.'] + b == key;
    assert Split(key, '.') == [a, b];
    assert key[|a|] == '.' && a != key;
    assert Lookup(data.entries, a) == Some(inner);
    assert Child(data, a) == Some(inner) && Child(inner, b) == Some(other);
    assert [a, b][1..] == [b] && [b][1..] == [];
    assert Descend(inner, [b]) == Some(other);
  }

  lemma FirstOccurrence(key: string, value: Json, others: Entries)
    ensures var occurrences := Occurrences(Dict(Entry(key, value, others)), []);
            occurrences != [] && occurrences[0] == Occurrence([key], key, value)
  {
    var entries := Entry(key, value, others);
    assert [] + [key] == [key];
    assert Occurrences(Dict(entries), []) == EntryOccurrences(entries, []);
    assert EntryOccurrences(entries, []) == [Occurrence([key], key, value)] + Occurrences(value, [key]) + EntryOccurrences(others, []);
  }

  lemma FirstKeyIsFound(key: string, value: Json, others: Entries)
    requires key != ""
    ensures FoundPath(Dict(Entry(key, value, others)), key) == Some(key)
  {
    var data := Dict(Entry(key, value, others));
    var occurrences := Occurrences(data, []);
    FirstOccurrence(key, value, others);
    assert IsFirstExact(occurrences, 0, key);
    assert [key] != [""] by { assert [key][0] != ""; }
    FoundPathIsOfTheChosen(data, key);
    assert IsChosen(occurrences, 0, key);
  }

  /**
   An empty key that comes first is not found under its own name; under another name without letters and
   digits, if no key is called that, the empty path is found, which leads to the whole value.
   */
  lemma EmptyKeyFirst(value: Json, others: Entries, name: string)
    requires Normalized(name) == ""
    ensures var data := Dict(Entry("", value, others));
            if name == "" then FoundPath(data, name) == None
            else NoneExact(Occurrences(data, []), name) ==> FoundPath(data, name) == Some("") && Resolved(data, "") == Some(data)
  {
    var data := Dict(Entry("", value, others));
    var occurrences := Occurrences(data, []);
    FirstOccurrence("", value, others);
    assert IsFirstLike(occurrences, 0, name);
    FoundPathIsOfTheChosen(data, name);
    MatchesButHasNoPath(data, name);
    if name == "" {
      assert IsFirstExact(occurrences, 0, name);
    } else if NoneExact(occurrences, name) {
      assert IsChosen(occurrences, 0, name);
    }
  }
}
