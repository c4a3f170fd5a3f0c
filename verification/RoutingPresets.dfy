/**
 The routing presets (src/storage.ts, getRoutingPresets and saveRoutingPresets): a stored list
 into which every load merges the built-in domains that are missing, cached in memory per path.

 Of an item only the fields the merge looks at are told apart. Whether a write succeeds is up to
 the environment; stamp is the clock reading that a seeded item carries.
 */
module RoutingPresets {
  import opened Wrappers
  import opened Sequences

  datatype Item = Item(id: string, builtin: bool, domains: Option<seq<string>>, entries: Option<seq<string>>, rest: string)

  datatype Geo = Geo(id: string, domains: seq<string>, rest: string)

  function Domains(item: Item): seq<string> {
    if item.domains.Some? then item.domains.value else []
  }

  function Entries(item: Item): seq<string> {
    if item.entries.Some? then item.entries.value else []
  }

  /** Array.from(new Set(xs)): the first occurrence of each element, in order. */
  function Dedup(xs: seq<string>): (r: seq<string>)
    ensures forall x :: x in r <==> x in xs
    ensures forall i, j :: 0 <= i < j < |r| ==> r[i] != r[j]
  {
    if xs == [] then []
    else
      var front, last := Dedup(xs[..|xs| - 1]), xs[|xs| - 1];
      if last in front then front else front + [last]
  }

  lemma {:induction false} DedupPrefix(xs: seq<string>, ys: seq<string>)
    ensures Dedup(xs) <= Dedup(xs + ys)
    decreases |ys|
  {
    if ys == [] {
      assert xs + ys == xs;
    } else {
      assert (xs + ys)[..|xs + ys| - 1] == xs + ys[..|ys| - 1];
      DedupPrefix(xs, ys[..|ys| - 1]);
    }
  }

  lemma {:induction false} DedupOfDistinct(xs: seq<string>)
    requires forall i, j :: 0 <= i < j < |xs| ==> xs[i] != xs[j]
    ensures Dedup(xs) == xs
  {
    if xs != [] {
      DedupOfDistinct(xs[..|xs| - 1]);
      assert xs == xs[..|xs| - 1] + [xs[|xs| - 1]];
    }
  }

  // ---------------------------------------------------------------- the merge

  predicate Has(item: Item, domain: string) {
    domain in Domains(item) || domain in Entries(item)
  }

  predicate Covers(item: Item, geo: Geo) {
    forall d :: d in geo.domains ==> Has(item, d)
  }

  function Extended(item: Item, geo: Geo): Item {
    item.(domains := Some(Dedup(Domains(item) + geo.domains)), entries := Some(Dedup(Entries(item) + geo.domains)))
  }

  function Matches(geo: Geo): Item -> bool {
    (item: Item) => item.id == geo.id && item.builtin
  }

  function MergeOne(items: seq<Item>, geo: Geo): (r: seq<Item>)
    ensures |r| == |items|
  {
    match FirstHit(Matches(geo), items)
    case None => items
    case Some(i) => if Covers(items[i], geo) then items else items[i := Extended(items[i], geo)]
  }

  function Merge(items: seq<Item>, geos: seq<Geo>): (r: seq<Item>)
    ensures |r| == |items|
    decreases |geos|
  {
    if geos == [] then items else Merge(MergeOne(items, geos[0]), geos[1..])
  }

  /** The first built-in item with this id, if there is one, has all its domains. */
  predicate Present(items: seq<Item>, geo: Geo) {
    var i := FirstHit(Matches(geo), items);
    i.Some? ==> Covers(items[i.value], geo)
  }

  predicate AllPresent(items: seq<Item>, geos: seq<Geo>) {
    forall k :: 0 <= k < |geos| ==> Present(items, geos[k])
  }

  /** b is a grown: same identity, nothing lost. */
  predicate Grown(a: Item, b: Item) {
    && a.id == b.id && a.builtin == b.builtin && a.rest == b.rest
    && (forall d :: d in Domains(a) ==> d in Domains(b))
    && (forall d :: d in Entries(a) ==> d in Entries(b))
  }

  predicate AllGrown(a: seq<Item>, b: seq<Item>) {
    |a| == |b| && forall i :: 0 <= i < |a| ==> Grown(a[i], b[i])
  }

  lemma MergeOneGrows(items: seq<Item>, geo: Geo)
    ensures AllGrown(items, MergeOne(items, geo))
  {
  }

  lemma SameFirst(a: seq<Item>, b: seq<Item>, geo: Geo)
    requires AllGrown(a, b)
    ensures FirstHit(Matches(geo), a) == FirstHit(Matches(geo), b)
  {
    var i := FirstHit(Matches(geo), a);
    if i.Some? {
      assert forall j :: 0 <= j < |a| ==> Grown(a[j], b[j]);
      FirstHitIs(Matches(geo), b, i.value);
    } else {
      assert forall j :: 0 <= j < |a| ==> Grown(a[j], b[j]) && !Matches(geo)(a[j]);
    }
  }

  lemma PresentStays(a: seq<Item>, b: seq<Item>, geo: Geo)
    requires AllGrown(a, b) && Present(a, geo)
    ensures Present(b, geo)
  {
    SameFirst(a, b, geo);
    var i := FirstHit(Matches(geo), a);
    if i.Some? {
      assert Grown(a[i.value], b[i.value]);
    }
  }

  lemma GrownTransitively(a: seq<Item>, b: seq<Item>, c: seq<Item>)
    requires AllGrown(a, b) && AllGrown(b, c)
    ensures AllGrown(a, c)
  {
    forall i | 0 <= i < |a|
      ensures Grown(a[i], c[i])
    {
      assert Grown(a[i], b[i]) && Grown(b[i], c[i]);
    }
  }

  lemma MergeOneMakesPresent(items: seq<Item>, geo: Geo)
    ensures Present(MergeOne(items, geo), geo)
  {
    MergeOneGrows(items, geo);
    SameFirst(items, MergeOne(items, geo), geo);
  }

  /** Merging loses no item, identity, domain or entry, and leaves every built-in domain present. */
  lemma {:induction false} MergeCompletes(items: seq<Item>, geos: seq<Geo>)
    ensures AllGrown(items, Merge(items, geos)) && AllPresent(Merge(items, geos), geos)
    decreases |geos|
  {
    if geos != [] {
      var t := MergeOne(items, geos[0]);
      MergeOneGrows(items, geos[0]);
      MergeCompletes(t, geos[1..]);
      GrownTransitively(items, t, Merge(t, geos[1..]));
      MergeOneMakesPresent(items, geos[0]);
      PresentStays(t, Merge(t, geos[1..]), geos[0]);
      assert forall k :: 0 < k < |geos| ==> geos[k] == geos[1..][k - 1];
    }
  }

  lemma {:induction false} MergeOfComplete(items: seq<Item>, geos: seq<Geo>)
    requires AllPresent(items, geos)
    ensures Merge(items, geos) == items
    decreases |geos|
  {
    if geos != [] {
      assert Present(items, geos[0]);
      assert forall k :: 0 <= k < |geos[1..]| ==> geos[1..][k] == geos[k + 1];
      MergeOfComplete(items, geos[1..]);
    }
  }

  /** A list is a fixed point of the merge exactly when no built-in domain is missing, and one merge reaches it. */
  lemma MergeReachesFixedPoint(items: seq<Item>, geos: seq<Geo>)
    ensures Merge(items, geos) == items <==> AllPresent(items, geos)
    ensures Merge(Merge(items, geos), geos) == Merge(items, geos)
  {
    MergeCompletes(items, geos);
    MergeOfComplete(Merge(items, geos), geos);
    if AllPresent(items, geos) {
      MergeOfComplete(items, geos);
    }
  }

  // ---------------------------------------------------------------- what the merge leaves alone

  /** The list b begins with a, repeats removed. */
  predicate KeepsOrder(a: seq<string>, b: seq<string>) {
    Dedup(a) <= b
  }

  predicate ItemKept(a: Item, b: Item) {
    a == b || (KeepsOrder(Domains(a), Domains(b)) && KeepsOrder(Entries(a), Entries(b)))
  }

  lemma DistinctPrefixKept(p: seq<string>, xs: seq<string>)
    requires p <= xs && forall i, j :: 0 <= i < j < |p| ==> p[i] != p[j]
    ensures p <= Dedup(xs)
  {
    assert xs == p + xs[|p|..];
    DedupPrefix(p, xs[|p|..]);
    DedupOfDistinct(p);
  }

  lemma PrefixOfDedup(a: seq<string>, b: seq<string>, more: seq<string>)
    requires KeepsOrder(a, b)
    ensures KeepsOrder(a, Dedup(b + more))
  {
    DistinctPrefixKept(Dedup(a), b + more);
  }

  lemma ExtendedKept(a: Item, b: Item, geo: Geo)
    requires ItemKept(a, b)
    ensures ItemKept(a, Extended(b, geo))
  {
    if a == b {
      DedupPrefix(Domains(a), geo.domains);
      DedupPrefix(Entries(a), geo.domains);
    } else {
      PrefixOfDedup(Domains(a), Domains(b), geo.domains);
      PrefixOfDedup(Entries(a), Entries(b), geo.domains);
    }
  }

  lemma {:induction false} MergeKeepsItem(start: Item, items: seq<Item>, geos: seq<Geo>, k: nat)
    requires k < |items| && ItemKept(start, items[k])
    ensures ItemKept(start, Merge(items, geos)[k])
    decreases |geos|
  {
    if geos != [] {
      ExtendedKept(start, items[k], geos[0]);
      MergeKeepsItem(start, MergeOne(items, geos[0]), geos[1..], k);
    }
  }

  /** Every item either stays as it was or keeps its domains and entries in order, repeats removed, in front of what is added. */
  lemma StoredOrderKept(items: seq<Item>, geos: seq<Geo>, k: nat)
    requires k < |items|
    ensures ItemKept(items[k], Merge(items, geos)[k])
  {
    MergeKeepsItem(items[k], items, geos, k);
  }

  /** An item that is not the first built-in match of any preset is not touched. */
  lemma {:induction false} OthersUntouched(items: seq<Item>, geos: seq<Geo>, k: nat)
    requires k < |items| && forall g :: 0 <= g < |geos| ==> FirstHit(Matches(geos[g]), items) != Some(k)
    ensures Merge(items, geos)[k] == items[k]
    decreases |geos|
  {
    if geos != [] {
      var t := MergeOne(items, geos[0]);
      MergeOneGrows(items, geos[0]);
      assert FirstHit(Matches(geos[0]), items) != Some(k);
      forall g | 0 <= g < |geos[1..]|
        ensures FirstHit(Matches(geos[1..][g]), t) != Some(k)
      {
        assert geos[1..][g] == geos[g + 1];
        SameFirst(items, t, geos[g + 1]);
      }
      OthersUntouched(t, geos[1..], k);
    }
  }

  predicate Offered(geos: seq<Geo>, id: string, domain: string) {
    exists g :: 0 <= g < |geos| && geos[g].id == id && domain in geos[g].domains
  }

  /** Nothing is added to an item but domains of presets with its id. */
  lemma {:induction false} NothingForeign(items: seq<Item>, geos: seq<Geo>, k: nat, domain: string)
    requires k < |items| && Has(Merge(items, geos)[k], domain)
    ensures Has(items[k], domain) || Offered(geos, items[k].id, domain)
    decreases |geos|
  {
    if geos != [] {
      var t := MergeOne(items, geos[0]);
      MergeOneGrows(items, geos[0]);
      assert Grown(items[k], t[k]);
      NothingForeign(t, geos[1..], k, domain);
      if Offered(geos[1..], items[k].id, domain) {
        var g :| 0 <= g < |geos[1..]| && geos[1..][g].id == items[k].id && domain in geos[1..][g].domains;
        assert geos[g + 1] == geos[1..][g];
      } else if !Has(items[k], domain) {
        assert geos[0].id == items[k].id && domain in geos[0].domains;
      }
    }
  }

  // ---------------------------------------------------------------- loading, seeding, caching

  datatype Stored = Items(items: seq<Item>) | Unreadable

  datatype State = State(files: map<string, Stored>, cache: Option<(string, seq<Item>)>)

  /** readJsonStore, and whether it yields a list with something in it. */
  function ReadList(s: State, path: string): Option<seq<Item>> {
    if path in s.files && s.files[path].Items? && s.files[path].items != [] then Some(s.files[path].items) else None
  }

  function SeedItem(geo: Geo, stamp: string): Item {
    Item(geo.id, true, Some(geo.domains), Some(geo.domains), geo.rest + stamp)
  }

  function Seed(geos: seq<Geo>, stamp: string): (r: seq<Item>)
    ensures |r| == |geos|
  {
    seq(|geos|, i requires 0 <= i < |geos| => SeedItem(geos[i], stamp))
  }

  function Save(s: State, path: string, items: seq<Item>, writes: bool): State {
    State(if writes then s.files[path := Items(items)] else s.files, Some((path, items)))
  }

  predicate CacheHit(s: State, path: string) {
    s.cache.Some? && s.cache.value.0 == path
  }

  /** What loading returns when nothing is cached. */
  function Fresh(s: State, geos: seq<Geo>, path: string, stamp: string): seq<Item> {
    match ReadList(s, path)
    case Some(stored) => Merge(stored, geos)
    case None => Seed(geos, stamp)
  }

  function Load(s: State, geos: seq<Geo>, path: string, stamp: string, writes: bool): (State, seq<Item>) {
    if CacheHit(s, path) then (s, s.cache.value.1)
    else
      var items := Fresh(s, geos, path, stamp);
      if ReadList(s, path) == Some(items) then (s.(cache := Some((path, items))), items)
      else (Save(s, path, items, writes), items)
  }

  function Uncached(s: State): State {
    s.(cache := None)
  }

  predicate DistinctIds(geos: seq<Geo>) {
    forall i, j :: 0 <= i < j < |geos| ==> geos[i].id != geos[j].id
  }

  lemma SeedComplete(geos: seq<Geo>, stamp: string)
    requires DistinctIds(geos)
    ensures AllPresent(Seed(geos, stamp), geos)
  {
    forall k | 0 <= k < |geos|
      ensures Present(Seed(geos, stamp), geos[k])
    {
      FirstHitIs(Matches(geos[k]), Seed(geos, stamp), k);
    }
  }

  /**
   After a load that found nothing cached, the cached list is what reading the store again would
   give: always if the store had a list, and if it was seeded, whenever the write succeeded.
   */
  lemma CacheAgreesAfterLoad(s: State, geos: seq<Geo>, path: string, stamp: string, writes: bool, later: string)
    requires DistinctIds(geos) && geos != [] && !CacheHit(s, path)
    requires ReadList(s, path).Some? || writes
    ensures var (t, items) := Load(s, geos, path, stamp, writes);
            t.cache == Some((path, items)) && Fresh(t, geos, path, later) == items
  {
    var stored := ReadList(s, path);
    if stored.Some? {
      MergeReachesFixedPoint(stored.value, geos);
    } else {
      SeedComplete(geos, stamp);
      MergeOfComplete(Seed(geos, stamp), geos);
    }
  }

  /** A second load from the store returns the same list and, if the first one's writes succeeded, writes nothing. */
  lemma SecondLoadIsIdle(s: State, geos: seq<Geo>, path: string, stamp: string, later: string, writes: bool)
    requires DistinctIds(geos) && geos != [] && !CacheHit(s, path)
    ensures var (t, items) := Load(s, geos, path, stamp, true);
            Load(Uncached(t), geos, path, later, writes) == (t, items)
  {
    CacheAgreesAfterLoad(s, geos, path, stamp, true, later);
  }

  /**
   A direct save leaves a cached list that agrees with the store exactly when its write succeeds on
   a list that lacks no built-in domain, or fails on the list that the store yields as it is. An
   empty list, which loading replaces by the built-in presets, agrees only if there are none.
   */
  lemma CacheAgreesAfterSave(s: State, geos: seq<Geo>, path: string, items: seq<Item>, writes: bool, later: string)
    ensures Fresh(Save(s, path, items, writes), geos, path, later) == items
       <==> if !writes then Fresh(s, geos, path, later) == items
            else if items == [] then geos == []
            else AllPresent(items, geos)
    ensures !writes ==> Fresh(Save(s, path, items, writes), geos, path, later) == Fresh(s, geos, path, later)
  {
    MergeReachesFixedPoint(items, geos);
  }

  // ---------------------------------------------------------------- the code as it is written

  method FilterMissing(existing: Item, geo: Geo) returns (missing: seq<string>)
    ensures missing == [] <==> Covers(existing, geo)
  {
    missing := [];
    var i := 0;
    while i < |geo.domains|
      invariant 0 <= i <= |geo.domains|
      invariant missing == [] <==> forall k :: 0 <= k < i ==> Has(existing, geo.domains[k])
    {
      var d := geo.domains[i];
      if d !in Domains(existing) && d !in Entries(existing) {
        missing := missing + [d];
      }
      i := i + 1;
    }
  }

  /** One turn of the merge: the first built-in item with this id is overwritten if it lacks a domain. */
  method MergeGeo(loaded: array<Item>, geo: Geo) returns (updated: bool)
    modifies loaded
    ensures loaded[..] == MergeOne(old(loaded[..]), geo)
    ensures updated <==> !Present(old(loaded[..]), geo)
  {
    updated := false;
    var hit := FindFirst(Matches(geo), loaded[..]);
    if hit.Some? {
      var existing := loaded[hit.value];
      var missing := FilterMissing(existing, geo);
      if |missing| > 0 {
        loaded[hit.value] := Extended(existing, geo);
        updated := true;
      }
    }
  }

  /** Merging a preset that is not present makes the list differ from every list it has grown from. */
  lemma MissingChanges(start: seq<Item>, items: seq<Item>, geo: Geo)
    requires AllGrown(start, items) && !Present(items, geo)
    ensures MergeOne(items, geo) != start
  {
    var i := FirstHit(Matches(geo), items).value;
    var d :| d in geo.domains && !Has(items[i], d);
    assert Grown(start[i], items[i]);
    assert d in Domains(Extended(items[i], geo)) && d !in Domains(start[i]);
  }

  /** The loop that overwrites the built-in items of a loaded list. */
  method MergeBuiltins(loaded: array<Item>, geos: seq<Geo>) returns (updated: bool)
    modifies loaded
    ensures loaded[..] == Merge(old(loaded[..]), geos)
    ensures updated <==> loaded[..] != old(loaded[..])
  {
    updated := false;
    ghost var start := loaded[..];
    var g := 0;
    while g < |geos|
      invariant 0 <= g <= |geos|
      invariant Merge(loaded[..], geos[g..]) == Merge(start, geos)
      invariant AllGrown(start, loaded[..])
      invariant updated <==> loaded[..] != start
    {
      ghost var before := loaded[..];
      assert geos[g..][1..] == geos[g + 1..];
      MergeOneGrows(before, geos[g]);
      GrownTransitively(start, before, MergeOne(before, geos[g]));
      if !Present(before, geos[g]) {
        MissingChanges(start, before, geos[g]);
      }
      var changed := MergeGeo(loaded, geos[g]);
      if changed {
        updated := true;
      }
      g := g + 1;
    }
  }

  class PresetStore {
    const geos: seq<Geo>
    var files: map<string, Stored>
    var cachedRoutingPresetsPath: Option<string>
    var cachedRoutingPresets: Option<seq<Item>>

    ghost predicate Valid()
      reads this
    {
      cachedRoutingPresets.Some? <==> cachedRoutingPresetsPath.Some?
    }

    ghost function Value(): State
      reads this
      requires Valid()
    {
      State(files, if cachedRoutingPresets.Some? then Some((cachedRoutingPresetsPath.value, cachedRoutingPresets.value)) else None)
    }

    method ClearRoutingPresetsCache()
      requires Valid()
      modifies this
      ensures Valid() && Value() == Uncached(old(Value()))
    {
      cachedRoutingPresetsPath := None;
      cachedRoutingPresets := None;
    }

    method SaveRoutingPresets(path: string, items: seq<Item>, writes: bool)
      requires Valid()
      modifies this
      ensures Valid() && Value() == Save(old(Value()), path, items, writes)
    {
      cachedRoutingPresetsPath := Some(path);
      cachedRoutingPresets := Some(items);
      if writes {
        files := files[path := Items(items)];
      }
    }

    method GetRoutingPresets(path: string, stamp: string, writes: bool) returns (items: seq<Item>)
      requires Valid()
      modifies this
      ensures Valid() && (Value(), items) == Load(old(Value()), geos, path, stamp, writes)
    {
      if cachedRoutingPresets.Some? && cachedRoutingPresetsPath == Some(path) {
        return cachedRoutingPresets.value;
      }
      if path in files && files[path].Items? && files[path].items != [] {
        var stored := files[path].items;
        var loaded := new Item[|stored|](i requires 0 <= i < |stored| => stored[i]);
        assert loaded[..] == stored;
        var updated := MergeBuiltins(loaded, geos);
        items := loaded[..];
        if updated {
          SaveRoutingPresets(path, items, writes);
        }
        cachedRoutingPresetsPath := Some(path);
        cachedRoutingPresets := Some(items);
        return;
      }
      items := Seed(geos, stamp);
      SaveRoutingPresets(path, items, writes);
      cachedRoutingPresetsPath := Some(path);
      cachedRoutingPresets := Some(items);
    }
  }
}
