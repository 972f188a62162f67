/** Dictionaries to element trees and back. */
module Converters {
  import opened Wrappers

  /** A JSON-like value; `Other` is a primitive that is not a string, by its `str()`. */
  datatype Json =
    | Nothing
    | Str(s: string)
    | Other(shown: string)
    | List(items: seq<Json>)
    | Dict(entries: seq<Entry>)
  datatype Entry = Entry(key: string, value: Json)

  /** An element tree. */
  datatype Xml = Xml(tag: string, text: Option<string>, children: seq<Xml>)

  // ---- Building ----

  function Build(key: string, value: Json): seq<Xml>
    decreases value, 1
  {
    match value
    case Dict(entries) => [Xml(key, None, BuildEntries(entries))]
    case List(items) => BuildItems(key, items)
    case Nothing => [Xml(key, None, [])]
    case Str(s) => [Xml(key, Some(s), [])]
    case Other(shown) => [Xml(key, Some(shown), [])]
  }

  function BuildEntries(entries: seq<Entry>): seq<Xml>
    decreases entries, 0
  {
    if entries == [] then []
    else BuildEntries(entries[..|entries| - 1]) + BuildEntry(entries[|entries| - 1])
  }

  function BuildEntry(entry: Entry): seq<Xml>
    decreases entry, 0
  {
    Build(entry.key, entry.value)
  }

  function BuildItems(key: string, items: seq<Json>): seq<Xml>
    decreases items, 0
  {
    if items == [] then [] else BuildItems(key, items[..|items| - 1]) + Build(key, items[|items| - 1])
  }

  function BuildRoot(data: Json, tag: string): Xml {
    match data
    case Dict(entries) => Xml(tag, None, BuildEntries(entries))
    case List(items) => Xml(tag, None, BuildItems("item", items))
    case Nothing => Xml(tag, Some("None"), [])
    case Str(s) => Xml(tag, Some(s), [])
    case Other(shown) => Xml(tag, Some(shown), [])
  }

  // ---- Parsing ----

  function Find(entries: seq<Entry>, key: string): (r: Option<nat>)
    ensures r.Some? ==> r.value < |entries| && entries[r.value].key == key
    ensures r.None? ==> forall i :: 0 <= i < |entries| ==> entries[i].key != key
  {
    if entries == [] then None
    else if entries[|entries| - 1].key == key then Some(|entries| - 1)
    else Find(entries[..|entries| - 1], key)
  }

  /** A repeated tag turns its value into a list, or extends the list it already is. */
  function Add(entries: seq<Entry>, key: string, value: Json): seq<Entry> {
    match Find(entries, key)
    case None => entries + [Entry(key, value)]
    case Some(i) =>
      var existing := entries[i].value;
      entries[i := Entry(key, if existing.List? then List(existing.items + [value]) else List([existing, value]))]
  }

  function Parse(x: Xml): Json
    decreases x, 1
  {
    if x.children == [] then (if x.text.Some? then Str(x.text.value) else Nothing)
    else Dict(Collect(x.children))
  }

  function Collect(children: seq<Xml>): seq<Entry>
    decreases children, 0
  {
    if children == [] then []
    else
      var last := children[|children| - 1];
      Add(Collect(children[..|children| - 1]), last.tag, Parse(last))
  }

  // ---- What the round trip does to a value ----

  /** An element without children has no entries to give. */
  function AsDict(entries: seq<Entry>): Json {
    if entries == [] then Nothing else Dict(entries)
  }

  /** The values of the elements a value turns into: lists are flattened away. */
  function Flat(value: Json): seq<Json>
    decreases value, 1
  {
    match value
    case List(items) => FlatItems(items)
    case Dict(entries) => [AsDict(NormEntries(entries))]
    case Other(shown) => [Str(shown)]
    case Str(_) => [value]
    case Nothing => [value]
  }

  function FlatItems(items: seq<Json>): seq<Json>
    decreases items, 0
  {
    if items == [] then [] else FlatItems(items[..|items| - 1]) + Flat(items[|items| - 1])
  }

  function NormEntries(entries: seq<Entry>): seq<Entry>
    decreases entries, 0
  {
    if entries == [] then []
    else NormEntries(entries[..|entries| - 1]) + NormEntry(entries[|entries| - 1])
  }

  /** No element, one value, or a list. */
  function NormEntry(entry: Entry): seq<Entry>
    decreases entry, 0
  {
    Gather(entry.key, Flat(entry.value))
  }

  function Gather(key: string, values: seq<Json>): seq<Entry> {
    if values == [] then []
    else if |values| == 1 then [Entry(key, values[0])]
    else [Entry(key, List(values))]
  }

  function Norm(data: Json): Json {
    match data
    case Dict(entries) => AsDict(NormEntries(entries))
    case List(items) => AsDict(Gather("item", FlatItems(items)))
    case Nothing => Str("None")
    case Str(_) => data
    case Other(shown) => Str(shown)
  }

  /** Dictionaries have distinct keys, all the way down. */
  ghost predicate WellFormed(value: Json)
    decreases value, 1
  {
    match value
    case Dict(entries) => DistinctKeys(entries) && forall i :: 0 <= i < |entries| ==> WellFormedEntry(entries[i])
    case List(items) => forall i :: 0 <= i < |items| ==> WellFormed(items[i])
    case _ => true
  }

  ghost predicate WellFormedEntry(entry: Entry)
    decreases entry, 0
  {
    WellFormed(entry.value)
  }

  ghost predicate DistinctKeys(entries: seq<Entry>) {
    forall i, j :: 0 <= i < j < |entries| ==> entries[i].key != entries[j].key
  }

  /** The elements of one key carry the flattened values, in order. */
  ghost predicate Carries(elements: seq<Xml>, key: string, values: seq<Json>) {
    |elements| == |values| && forall i :: 0 <= i < |elements| ==> elements[i].tag == key && Parse(elements[i]) == values[i]
  }

  lemma {:induction false} BuildCarries(key: string, value: Json)
    requires WellFormed(value)
    ensures Carries(Build(key, value), key, Flat(value))
    decreases value, 1
  {
    match value
    case Dict(entries) =>
      EntriesCollect(entries);
    case List(items) => BuildItemsCarry(key, items);
    case Nothing =>
    case Str(_) =>
    case Other(_) =>
  }

  lemma {:induction false} BuildItemsCarry(key: string, items: seq<Json>)
    requires forall i :: 0 <= i < |items| ==> WellFormed(items[i])
    ensures Carries(BuildItems(key, items), key, FlatItems(items))
    decreases items, 0
  {
    hide WellFormed, Build, Flat, Parse;
    if items != [] {
      BuildItemsCarry(key, items[..|items| - 1]);
      BuildCarries(key, items[|items| - 1]);
    }
  }

  lemma {:induction false} BuildEntryCarries(entry: Entry)
    requires WellFormedEntry(entry)
    ensures Carries(BuildEntry(entry), entry.key, Flat(entry.value))
    decreases entry, 0
  {
    BuildCarries(entry.key, entry.value);
  }

  /** Collecting a run of elements with a fresh tag gathers their values. */
  lemma {:induction false} CollectRun(before: seq<Xml>, run: seq<Xml>, key: string, values: seq<Json>)
    requires Carries(run, key, values) && Find(Collect(before), key).None?
    requires forall i :: 0 <= i < |values| ==> !values[i].List?
    ensures Collect(before + run) == Collect(before) + Gather(key, values)
    decreases |run|
  {
    hide Parse, Find, Collect, Add, Gather;
    if run == [] {
      GatherNothing(key);
      assert before + run == before;
    } else {
      var n := |run| - 1;
      CollectRun(before, run[..n], key, values[..n]);
      CollectLast(before + run[..n], run[n]);
      assert before + run == before + run[..n] + [run[n]];
      AddToRun(Collect(before), key, values[..n], values[n]);
      assert values == values[..n] + [values[n]];
    }
  }

  lemma CollectLast(xs: seq<Xml>, x: Xml)
    ensures Collect(xs + [x]) == Add(Collect(xs), x.tag, Parse(x))
  {
    hide Parse, Add;
    assert (xs + [x])[..|xs|] == xs;
  }

  lemma GatherNothing(key: string)
    ensures Gather(key, []) == []
  {
  }

  lemma AddToRun(entries: seq<Entry>, key: string, values: seq<Json>, v: Json)
    requires Find(entries, key).None? && forall i :: 0 <= i < |values| ==> !values[i].List?
    ensures Add(entries + Gather(key, values), key, v) == entries + Gather(key, values + [v])
  {
    hide Find;
    if values == [] {
      assert entries + Gather(key, values) == entries;
    } else {
      var one := Entry(key, if |values| == 1 then values[0] else List(values));
      FindLast(entries, one);
      assert |values| == 1 ==> values + [v] == [values[0], v];
      assert (entries + [one])[|entries| := Entry(key, List(values + [v]))] == entries + [Entry(key, List(values + [v]))];
    }
  }

  lemma FindLast(entries: seq<Entry>, last: Entry)
    ensures Find(entries + [last], last.key) == Some(|entries|)
  {
  }

  lemma {:induction false} FlatHasNoLists(value: Json)
    ensures forall i :: 0 <= i < |Flat(value)| ==> !Flat(value)[i].List?
    decreases value, 1
  {
    hide NormEntries;
    if value.List? {
      FlatItemsHaveNoLists(value.items);
    }
  }

  lemma {:induction false} FlatItemsHaveNoLists(items: seq<Json>)
    ensures forall i :: 0 <= i < |FlatItems(items)| ==> !FlatItems(items)[i].List?
    decreases items, 0
  {
    hide Flat;
    if items != [] {
      FlatItemsHaveNoLists(items[..|items| - 1]);
      FlatHasNoLists(items[|items| - 1]);
    }
  }

  lemma {:induction false} NormKeys(entries: seq<Entry>, key: string)
    requires forall i :: 0 <= i < |entries| ==> entries[i].key != key
    ensures forall i :: 0 <= i < |NormEntries(entries)| ==> NormEntries(entries)[i].key != key
  {
    hide Flat;
    if entries != [] { NormKeys(entries[..|entries| - 1], key); }
  }

  /** Collecting the elements of a dictionary gives its normalised entries. */
  lemma {:induction false} EntriesCollect(entries: seq<Entry>)
    requires DistinctKeys(entries) && forall i :: 0 <= i < |entries| ==> WellFormedEntry(entries[i])
    ensures Collect(BuildEntries(entries)) == NormEntries(entries)
    decreases entries, 0
  {
    hide Flat, Build, Parse, WellFormed, Carries, Collect;
    if entries == [] {
      CollectNothing();
    } else {
      var rest, last := entries[..|entries| - 1], entries[|entries| - 1];
      EntriesCollect(rest);
      BuildEntryCarries(last);
      NormKeys(rest, last.key);
      FlatHasNoLists(last.value);
      CollectRun(BuildEntries(rest), BuildEntry(last), last.key, Flat(last.value));
    }
  }

  lemma CollectNothing()
    ensures Collect([]) == []
  {
  }

  lemma CollectedNothing(children: seq<Xml>)
    ensures Collect(children) == [] <==> children == []
  {
  }

  /** The round trip normalises. */
  lemma RoundTrip(data: Json, tag: string)
    requires WellFormed(data)
    ensures Parse(BuildRoot(data, tag)) == Norm(data) && BuildRoot(data, tag).tag == tag
  {
    match data
    case Dict(entries) =>
      EntriesCollect(entries);
    case List(items) =>
      ItemsCollect(items);
    case Nothing =>
    case Str(_) =>
    case Other(_) =>
  }

  lemma ItemsCollect(items: seq<Json>)
    requires WellFormed(List(items))
    ensures Collect(BuildItems("item", items)) == Gather("item", FlatItems(items))
    ensures Collect(BuildItems("item", items)) == [] <==> BuildItems("item", items) == []
  {
    hide Build, Flat, Parse, Carries, Collect, BuildItems, FlatItems, Find;
    var run, values := BuildItems("item", items), FlatItems(items);
    BuildItemsCarry("item", items);
    FlatItemsHaveNoLists(items);
    CollectNothing();
    CollectRun([], run, "item", values);
    assert [] + run == run;
    CollectedNothing(run);
  }

  // ---- Normal forms ----

  /** The value of one element, in normal form: no number, no list, no empty or elementless dictionary. */
  predicate CanonicalValue(value: Json)
    decreases value, 1
  {
    match value
    case Nothing => true
    case Str(_) => true
    case Other(_) => false
    case List(_) => false
    case Dict(entries) => entries != [] && CanonicalEntries(entries)
  }

  predicate CanonicalEntries(entries: seq<Entry>)
    decreases entries, 0
  {
    entries == [] || (CanonicalEntry(entries[|entries| - 1]) && CanonicalEntries(entries[..|entries| - 1]))
  }

  /** Several elements of one key are a list of at least two values. */
  predicate CanonicalEntry(entry: Entry)
    decreases entry, 0
  {
    CanonicalMember(entry.value)
  }

  predicate CanonicalMember(value: Json)
    decreases value, 2
  {
    if value.List? then |value.items| >= 2 && CanonicalItems(value.items) else CanonicalValue(value)
  }

  predicate CanonicalItems(items: seq<Json>)
    decreases items, 0
  {
    items == [] || (CanonicalValue(items[|items| - 1]) && CanonicalItems(items[..|items| - 1]))
  }

  predicate Canonical(data: Json) {
    data != Nothing && CanonicalValue(data)
  }

  lemma {:induction false} FlatCanonical(value: Json)
    ensures CanonicalItems(Flat(value))
    decreases value, 1
  {
    if value.Dict? {
      EntriesCanonical(value.entries);
      OneCanonical(AsDict(NormEntries(value.entries)));
    } else if value.List? {
      FlatItemsCanonical(value.items);
    } else {
      OneCanonical(Flat(value)[0]);
    }
  }

  lemma OneCanonical(value: Json)
    requires CanonicalValue(value)
    ensures CanonicalItems([value])
  {
  }

  lemma {:induction false} CanonicalItemsConcat(a: seq<Json>, b: seq<Json>)
    requires CanonicalItems(a) && CanonicalItems(b)
    ensures CanonicalItems(a + b)
    decreases |b|
  {
    if b == [] {
      assert a + b == a;
    } else {
      CanonicalItemsConcat(a, b[..|b| - 1]);
      assert (a + b)[..|a + b| - 1] == a + b[..|b| - 1];
    }
  }

  lemma {:induction false} FlatItemsCanonical(items: seq<Json>)
    ensures CanonicalItems(FlatItems(items))
    decreases items, 0
  {
    hide Flat, CanonicalItems;
    if items == [] {
      NoItemsCanonical();
    } else {
      FlatItemsCanonical(items[..|items| - 1]);
      FlatCanonical(items[|items| - 1]);
      CanonicalItemsConcat(FlatItems(items[..|items| - 1]), Flat(items[|items| - 1]));
    }
  }

  lemma NoItemsCanonical()
    ensures CanonicalItems([])
  {
  }

  lemma GatherCanonical(entries: seq<Entry>, key: string, values: seq<Json>)
    requires CanonicalEntries(entries) && CanonicalItems(values)
    ensures CanonicalEntries(entries + Gather(key, values))
  {
    var run := Gather(key, values);
    if values == [] {
      assert entries + run == entries;
    } else {
      assert (entries + run)[..|entries|] == entries;
      assert CanonicalValue(values[|values| - 1]);
    }
  }

  lemma {:induction false} EntriesCanonical(entries: seq<Entry>)
    ensures CanonicalEntries(NormEntries(entries))
    decreases entries, 0
  {
    hide Flat, CanonicalEntries;
    if entries == [] {
      NoEntriesCanonical();
    } else {
      EntriesCanonical(entries[..|entries| - 1]);
      EntryFlatCanonical(entries[|entries| - 1]);
      GatherCanonical(NormEntries(entries[..|entries| - 1]), entries[|entries| - 1].key, Flat(entries[|entries| - 1].value));
    }
  }

  lemma {:induction false} EntryFlatCanonical(entry: Entry)
    ensures CanonicalItems(Flat(entry.value))
    decreases entry, 0
  {
    FlatCanonical(entry.value);
  }

  lemma NoEntriesCanonical()
    ensures CanonicalEntries([])
  {
  }

  /** Canonical values pass through unchanged. */
  lemma {:induction false} CanonicalFixed(value: Json)
    requires CanonicalMember(value)
    ensures Flat(value) == if value.List? then value.items else [value]
    decreases value, 1
  {
    match value
    case Dict(entries) => EntriesFixed(entries);
    case List(items) => ItemsFixed(items);
    case Nothing =>
    case Str(_) =>
  }

  lemma {:induction false} ItemsFixed(items: seq<Json>)
    requires CanonicalItems(items)
    ensures FlatItems(items) == items
    decreases items, 0
  {
    hide Flat;
    if items != [] {
      ItemsFixed(items[..|items| - 1]);
      CanonicalFixed(items[|items| - 1]);
      assert items == items[..|items| - 1] + [items[|items| - 1]];
    }
  }

  lemma {:induction false} EntriesFixed(entries: seq<Entry>)
    requires CanonicalEntries(entries)
    ensures NormEntries(entries) == entries
    decreases entries, 0
  {
    hide Flat, CanonicalItems;
    if entries != [] {
      EntriesFixed(entries[..|entries| - 1]);
      EntryFixed(entries[|entries| - 1]);
      assert entries == entries[..|entries| - 1] + [entries[|entries| - 1]];
    }
  }

  lemma {:induction false} EntryFixed(entry: Entry)
    requires CanonicalEntry(entry)
    ensures NormEntry(entry) == [entry]
    decreases entry, 0
  {
    CanonicalFixed(entry.value);
  }

  /** Normalising leaves exactly the canonical data alone. */
  lemma NormFixesCanonical(data: Json)
    ensures Norm(data) == data <==> Canonical(data)
    ensures Norm(data) != Nothing ==> Canonical(Norm(data))
  {
    hide Flat, NormEntries, FlatItems, CanonicalEntries, CanonicalItems;
    match data
    case Dict(entries) =>
      EntriesCanonical(entries);
      if CanonicalEntries(entries) { EntriesFixed(entries); }
    case List(items) =>
      FlatItemsCanonical(items);
      NoEntriesCanonical();
      GatherCanonical([], "item", FlatItems(items));
      assert [] + Gather("item", FlatItems(items)) == Gather("item", FlatItems(items));
    case Nothing =>
    case Str(_) =>
    case Other(_) =>
  }

  /** A value that turns into no element at all: lists of nothing but such lists. */
  ghost predicate Elementless(value: Json)
    decreases value
  {
    value.List? && forall i :: 0 <= i < |value.items| ==> Elementless(value.items[i])
  }

  ghost predicate LeavesNothing(data: Json) {
    match data
    case Dict(entries) => forall i :: 0 <= i < |entries| ==> Elementless(entries[i].value)
    case List(items) => forall i :: 0 <= i < |items| ==> Elementless(items[i])
    case _ => false
  }

  lemma {:induction false} FlatNothing(value: Json)
    ensures Flat(value) == [] <==> Elementless(value)
    decreases value, 1
  {
    hide NormEntries;
    if value.List? {
      FlatItemsNothing(value.items);
    }
  }

  lemma {:induction false} FlatItemsNothing(items: seq<Json>)
    ensures FlatItems(items) == [] <==> forall i :: 0 <= i < |items| ==> Elementless(items[i])
    decreases items, 0
  {
    hide Flat, Elementless;
    if items != [] {
      FlatItemsNothing(items[..|items| - 1]);
      FlatNothing(items[|items| - 1]);
    }
  }

  lemma {:induction false} NormEntriesNothing(entries: seq<Entry>)
    ensures NormEntries(entries) == [] <==> forall i :: 0 <= i < |entries| ==> Elementless(entries[i].value)
    decreases entries, 0
  {
    hide Flat, Elementless;
    if entries != [] {
      NormEntriesNothing(entries[..|entries| - 1]);
      FlatNothing(entries[|entries| - 1].value);
    }
  }

  /** The normal form is a bare None exactly for data that leaves no element. */
  lemma NormNothing(data: Json)
    ensures Norm(data) == Nothing <==> LeavesNothing(data)
  {
    hide Flat, FlatItems, NormEntries, Elementless;
    match data
    case Dict(entries) => NormEntriesNothing(entries);
    case List(items) => FlatItemsNothing(items);
    case _ =>
  }

  /** Normalising twice is normalising once, exactly for data that leaves some element. */
  lemma NormIdempotent(data: Json)
    ensures Norm(Norm(data)) == Norm(data) <==> !LeavesNothing(data)
    ensures Canonical(Norm(data)) <==> !LeavesNothing(data)
  {
    hide Norm, Canonical, LeavesNothing;
    NormNothing(data);
    NormFixesCanonical(data);
    NormFixesCanonical(Norm(data));
    NothingNotCanonical();
  }

  lemma NothingNotCanonical()
    ensures !Canonical(Nothing) && Norm(Nothing) != Nothing
  {
  }

  // ---- The two walks over a mutable tree ----

  class Element {
    const tag: string
    var text: Option<string>
    var children: seq<Element>

    constructor (tag: string, text: Option<string>)
      ensures this.tag == tag && this.text == text && children == []
    {
      this.tag := tag;
      this.text := text;
      children := [];
    }
  }

  /** The tree under `e` is `x`, and lies within `repr`. */
  ghost predicate Shows(e: Element, x: Xml, repr: set<Element>)
    reads repr
    decreases x, 1
  {
    e in repr && e.tag == x.tag && e.text == x.text && ShowsAll(e.children, x.children, repr)
  }

  ghost predicate ShowsAll(elements: seq<Element>, trees: seq<Xml>, repr: set<Element>)
    reads repr
    decreases trees, 0
  {
    |elements| == |trees| && forall i :: 0 <= i < |trees| ==> Shows(elements[i], trees[i], repr)
  }

  lemma {:induction false} ShowsMore(e: Element, x: Xml, repr: set<Element>, more: set<Element>)
    requires Shows(e, x, repr) && repr <= more
    ensures Shows(e, x, more)
    decreases x, 1
  {
    ShowsAllMore(e.children, x.children, repr, more);
  }

  lemma {:induction false} ShowsAllMore(elements: seq<Element>, trees: seq<Xml>, repr: set<Element>, more: set<Element>)
    requires ShowsAll(elements, trees, repr) && repr <= more
    ensures ShowsAll(elements, trees, more)
    decreases trees, 0
  {
    forall i | 0 <= i < |trees| ensures Shows(elements[i], trees[i], more) {
      ShowsMore(elements[i], trees[i], repr, more);
    }
  }

  lemma ShowsBoth(before: seq<Element>, xs: seq<Xml>, r: set<Element>, after: seq<Element>, ys: seq<Xml>, q: set<Element>)
    requires ShowsAll(before, xs, r) && ShowsAll(after, ys, q)
    ensures ShowsAll(before + after, xs + ys, r + q)
  {
    ShowsAllMore(before, xs, r, r + q);
    ShowsAllMore(after, ys, q, r + q);
  }

  /** Attaches the elements of `value` to `parent`, after the children it already has. */
  method BuildElement(parent: Element, key: string, value: Json) returns (ghost added: seq<Element>, ghost repr: set<Element>)
    modifies parent`children
    ensures parent.children == old(parent.children) + added
    ensures fresh(repr) && ShowsAll(added, Build(key, value), repr)
    decreases value, 1
  {
    match value
    case Dict(entries) =>
      var child := new Element(key, None);
      parent.children := parent.children + [child];
      ghost var inner := BuildEach(child, entries);
      repr := inner + {child};
      ShowsAllMore(child.children, BuildEntries(entries), inner, repr);
      added := [child];
    case List(items) =>
      added, repr := BuildEvery(parent, key, items);
    case Nothing =>
      var child := new Element(key, None);
      parent.children := parent.children + [child];
      added, repr := [child], {child};
    case Str(s) =>
      var child := new Element(key, Some(s));
      parent.children := parent.children + [child];
      added, repr := [child], {child};
    case Other(shown) =>
      var child := new Element(key, Some(shown));
      parent.children := parent.children + [child];
      added, repr := [child], {child};
  }

  /** The loop over the items of a dictionary. */
  method BuildEach(parent: Element, entries: seq<Entry>) returns (ghost repr: set<Element>)
    requires parent.children == []
    modifies parent`children
    ensures fresh(repr) && ShowsAll(parent.children, BuildEntries(entries), repr)
    decreases entries, 0
  {
    hide Build, Shows;
    repr := {};
    for i := 0 to |entries|
      invariant fresh(repr) && ShowsAll(parent.children, BuildEntries(entries[..i]), repr)
    {
      ghost var before := parent.children;
      var entry := entries[i];
      ghost var added, more := BuildElement(parent, entry.key, entry.value);
      ShowsBoth(before, BuildEntries(entries[..i]), repr, added, Build(entry.key, entry.value), more);
      assert entries[..i + 1][..i] == entries[..i];
      repr := repr + more;
    }
    assert entries[..|entries|] == entries;
  }

  /** The loop over the items of a list. */
  method BuildEvery(parent: Element, key: string, items: seq<Json>) returns (ghost added: seq<Element>, ghost repr: set<Element>)
    modifies parent`children
    ensures parent.children == old(parent.children) + added
    ensures fresh(repr) && ShowsAll(added, BuildItems(key, items), repr)
    decreases items, 0
  {
    hide Build, Shows;
    added, repr := [], {};
    for i := 0 to |items|
      invariant parent.children == old(parent.children) + added
      invariant fresh(repr) && ShowsAll(added, BuildItems(key, items[..i]), repr)
    {
      ghost var run, more := BuildElement(parent, key, items[i]);
      ShowsBoth(added, BuildItems(key, items[..i]), repr, run, Build(key, items[i]), more);
      assert items[..i + 1][..i] == items[..i];
      added, repr := added + run, repr + more;
    }
    assert items[..|items|] == items;
  }

  method DictToXml(data: Json, rootTag: string) returns (root: Element, ghost repr: set<Element>)
    ensures fresh(repr) && Shows(root, BuildRoot(data, rootTag), repr)
  {
    match data
    case Dict(entries) =>
      root := new Element(rootTag, None);
      ghost var inner := BuildEach(root, entries);
      repr := inner + {root};
      ShowsAllMore(root.children, BuildEntries(entries), inner, repr);
    case List(items) =>
      root := new Element(rootTag, None);
      ghost var added, inner := BuildEvery(root, "item", items);
      assert root.children == added;
      repr := inner + {root};
      ShowsAllMore(root.children, BuildItems("item", items), inner, repr);
    case Nothing =>
      root := new Element(rootTag, Some("None"));
      repr := {root};
    case Str(s) =>
      root := new Element(rootTag, Some(s));
      repr := {root};
    case Other(shown) =>
      root := new Element(rootTag, Some(shown));
      repr := {root};
  }

  method ElementToDict(e: Element, ghost x: Xml, ghost repr: set<Element>) returns (value: Json)
    requires Shows(e, x, repr)
    ensures value == Parse(x)
    decreases x
  {
    hide Find;
    if e.children == [] {
      value := if e.text.Some? then Str(e.text.value) else Nothing;
      return;
    }
    var result: seq<Entry> := [];
    for i := 0 to |e.children|
      invariant result == Collect(x.children[..i])
    {
      var child := e.children[i];
      var childValue := ElementToDict(child, x.children[i], repr);
      match Find(result, child.tag) {
        case Some(at) =>
          var existing := result[at].value;
          if existing.List? {
            result := result[at := Entry(child.tag, List(existing.items + [childValue]))];
          } else {
            result := result[at := Entry(child.tag, List([existing, childValue]))];
          }
        case None =>
          result := result + [Entry(child.tag, childValue)];
      }
      assert x.children[..i + 1][..i] == x.children[..i];
    }
    assert x.children[..|x.children|] == x.children;
    value := Dict(result);
  }

  /** Parsing what was built gives the normal form under the root tag, whatever well-formed data went in. */
  method WriteThenRead(data: Json, rootTag: string) returns (value: Json)
    requires WellFormed(data)
    ensures value == Dict([Entry(rootTag, Norm(data))])
  {
    var root, repr := DictToXml(data, rootTag);
    var inner := ElementToDict(root, BuildRoot(data, rootTag), repr);
    RoundTrip(data, rootTag);
    value := Dict([Entry(root.tag, inner)]);
  }
}
