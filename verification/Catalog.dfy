/** The dataset catalog: what the registered provider instances offer, grouped, counted, sorted and
    cut into pages. */
module Catalog {

  datatype Dataset = Dataset(code: string, title: string, formats: seq<string>, maxBatchSize: int, supportsDryRun: bool)

  /** An instance and the datasets its metadata declares, if they can be parsed. */
  datatype Instance = Instance(service: string, datasets: seq<Dataset>, parses: bool)

  datatype Key = Key(service: string, code: string)

  datatype Summary = Summary(key: Key, dataset: Dataset, healthyInstances: int)

  /** Library routines on strings. */
  datatype Strings = Strings(lower: string -> string, trim: string -> string)

  // ---- the order of the catalog ----

  /** Lexicographic order. */
  predicate Less(a: string, b: string) {
    b != [] && (a == [] || a[0] < b[0] || (a[0] == b[0] && Less(a[1..], b[1..])))
  }

  lemma {:induction false} LessTransitive(a: string, b: string, c: string)
    requires Less(a, b) && Less(b, c)
    ensures Less(a, c)
  {
    if a != [] && a[0] == b[0] && b[0] == c[0] { LessTransitive(a[1..], b[1..], c[1..]); }
  }

  lemma {:induction false} LessTotal(a: string, b: string)
    ensures a == b || Less(a, b) || Less(b, a)
    ensures !(Less(a, b) && Less(b, a)) && !Less(a, a)
  {
    if a != [] && b != [] {
      LessTotal(a[1..], b[1..]);
      assert a == [a[0]] + a[1..] && b == [b[0]] + b[1..];
    }
    if a != [] { LessTotal(a[1..], a[1..]); }
  }

  predicate Before(a: Key, b: Key) {
    Less(a.service, b.service) || (a.service == b.service && Less(a.code, b.code))
  }

  lemma BeforeTransitive(a: Key, b: Key, c: Key)
    requires Before(a, b) && Before(b, c)
    ensures Before(a, c)
  {
    if Less(a.service, b.service) && Less(b.service, c.service) {
      LessTransitive(a.service, b.service, c.service);
    } else if a.service == b.service == c.service {
      LessTransitive(a.code, b.code, c.code);
    }
  }

  lemma BeforeTotal(a: Key, b: Key)
    ensures a == b || Before(a, b) || Before(b, a)
    ensures !(Before(a, b) && Before(b, a)) && !Before(a, a)
  {
    LessTotal(a.service, b.service);
    LessTotal(a.code, b.code);
    LessTotal(a.service, a.service);
    LessTotal(a.code, a.code);
  }

  ghost predicate Sorted(values: seq<Summary>) {
    forall i, j :: 0 <= i < j < |values| ==> Before(values[i].key, values[j].key)
  }

  // ---- what is counted ----

  predicate PartAt(text: string, part: string, i: int) {
    0 <= i <= |text| - |part| && text[i..i + |part|] == part
  }

  predicate Contains(text: string, part: string) {
    exists i :: 0 <= i <= |text| && PartAt(text, part, i)
  }

  predicate Matches(s: Strings, search: string, service: string, d: Dataset) {
    search == "" || Contains(s.lower(d.code + " " + d.title + " " + service), search)
  }

  /** One matching declaration of a dataset by an instance. */
  datatype Offer = Offer(key: Key, dataset: Dataset)

  function OffersOf(s: Strings, search: string, service: string, datasets: seq<Dataset>): seq<Offer> {
    if datasets == [] then []
    else
      var n := |datasets| - 1;
      OffersOf(s, search, service, datasets[..n]) +
      if Matches(s, search, service, datasets[n]) then [Offer(Key(service, datasets[n].code), datasets[n])] else []
  }

  function Offers(s: Strings, search: string, instances: seq<Instance>): seq<Offer> {
    if instances == [] then []
    else
      var n := |instances| - 1;
      Offers(s, search, instances[..n]) +
      if instances[n].parses then OffersOf(s, search, instances[n].service, instances[n].datasets) else []
  }

  function CountOf(offers: seq<Offer>, key: Key): nat {
    if offers == [] then 0
    else CountOf(offers[..|offers| - 1], key) + if offers[|offers| - 1].key == key then 1 else 0
  }

  /** The first declaration under a key. */
  function First(offers: seq<Offer>, key: Key): Dataset
    requires CountOf(offers, key) > 0
  {
    var n := |offers| - 1;
    if CountOf(offers[..n], key) > 0 then First(offers[..n], key) else offers[n].dataset
  }

  lemma CountSnoc(offers: seq<Offer>, o: Offer, key: Key)
    ensures CountOf(offers + [o], key) == CountOf(offers, key) + if o.key == key then 1 else 0
    ensures CountOf(offers + [o], key) > 0 ==>
              First(offers + [o], key) == if CountOf(offers, key) > 0 then First(offers, key) else o.dataset
  {
    assert (offers + [o])[..|offers|] == offers;
  }

  /** The entry of a key that was offered. */
  ghost predicate IsEntry(offers: seq<Offer>, v: Summary) {
    v.healthyInstances == CountOf(offers, v.key) && v.healthyInstances > 0 && v.dataset == First(offers, v.key)
  }

  /** The catalog of some offers: one entry for each key offered, in strict order. */
  ghost predicate IsCatalog(offers: seq<Offer>, values: seq<Summary>) {
    && Sorted(values)
    && (forall i :: 0 <= i < |values| ==> IsEntry(offers, values[i]))
    && (forall key :: CountOf(offers, key) > 0 ==> HasEntry(values, key))
  }

  ghost predicate HasEntry(values: seq<Summary>, key: Key) {
    exists i :: 0 <= i < |values| && values[i].key == key
  }

  /** There is only one: the order in which the map is walked leaves no trace. */
  lemma {:induction false} CatalogIsUnique(offers: seq<Offer>, a: seq<Summary>, b: seq<Summary>, n: nat)
    requires IsCatalog(offers, a) && IsCatalog(offers, b) && n <= |a| && n <= |b|
    requires a[..n] == b[..n]
    ensures a == b
    decreases |a| - n
  {
    if n < |a| {
      SameNext(offers, a, b, n);
      CatalogIsUnique(offers, a, b, n + 1);
    } else if n < |b| {
      SameNext(offers, b, a, n);
    } else {
      assert a == a[..n] && b == b[..n];
    }
  }

  lemma SameNext(offers: seq<Offer>, a: seq<Summary>, b: seq<Summary>, n: nat)
    requires IsCatalog(offers, a) && IsCatalog(offers, b) && n < |a| && n <= |b| && a[..n] == b[..n]
    ensures n < |b| && a[n] == b[n]
  {
    NotEarlier(offers, a, b, n);
    NotEarlier(offers, b, a, n);
    BeforeTotal(a[n].key, b[n].key);
  }

  /** The next key of `a` is one of `b`, and not before its next. */
  lemma NotEarlier(offers: seq<Offer>, a: seq<Summary>, b: seq<Summary>, n: nat)
    requires IsCatalog(offers, a) && IsCatalog(offers, b) && n < |a| && n <= |b| && a[..n] == b[..n]
    ensures n < |b| && !Before(a[n].key, b[n].key)
  {
    assert IsEntry(offers, a[n]);
    forall k | 0 <= k < n ensures b[k].key != a[n].key {
      assert a[..n][k] == b[..n][k];
      BeforeTotal(a[n].key, a[n].key);
    }
    assert HasEntry(b, a[n].key);
    var i :| 0 <= i < |b| && b[i].key == a[n].key;
    BeforeTotal(a[n].key, a[n].key);
    if i > n { BeforeTotal(b[n].key, b[i].key); }
  }

  // ---- building the catalog ----

  /** The map after some offers: an entry for each key among them. */
  ghost predicate Grouped(offers: seq<Offer>, result: map<Key, Summary>) {
    forall key :: (key in result <==> CountOf(offers, key) > 0)
               && (key in result ==> result[key].key == key && IsEntry(offers, result[key]))
  }

  /** Count one more declaration. */
  function Counted(result: map<Key, Summary>, o: Offer): map<Key, Summary> {
    var current := if o.key in result then result[o.key] else Summary(o.key, o.dataset, 0);
    result[o.key := current.(healthyInstances := current.healthyInstances + 1)]
  }

  lemma GroupedSnoc(offers: seq<Offer>, result: map<Key, Summary>, o: Offer)
    requires Grouped(offers, result)
    ensures Grouped(offers + [o], Counted(result, o))
  {
    forall key
      ensures (key in Counted(result, o) <==> CountOf(offers + [o], key) > 0)
      ensures key in Counted(result, o) ==>
                Counted(result, o)[key].key == key && IsEntry(offers + [o], Counted(result, o)[key])
    {
      CountSnoc(offers, o, key);
    }
  }

  lemma OffersOfNext(s: Strings, text: string, service: string, datasets: seq<Dataset>, j: nat)
    requires j < |datasets|
    ensures OffersOf(s, text, service, datasets[..j + 1])
         == if Matches(s, text, service, datasets[j]) then
              OffersOf(s, text, service, datasets[..j]) + [Offer(Key(service, datasets[j].code), datasets[j])]
            else OffersOf(s, text, service, datasets[..j])
  {
    assert datasets[..j + 1][..j] == datasets[..j];
    var before := OffersOf(s, text, service, datasets[..j]);
    assert before + [] == before;
  }

  method GroupInstance(s: Strings, text: string, service: string, datasets: seq<Dataset>,
                       before: map<Key, Summary>, ghost offers: seq<Offer>)
    returns (result: map<Key, Summary>)
    requires Grouped(offers, before)
    ensures Grouped(offers + OffersOf(s, text, service, datasets), result)
  {
    result := before;
    ghost var all := offers;
    assert offers + OffersOf(s, text, service, datasets[..0]) == offers;
    var j := 0;
    while j < |datasets|
      invariant 0 <= j <= |datasets| && all == offers + OffersOf(s, text, service, datasets[..j])
      invariant Grouped(all, result)
    {
      var d := datasets[j];
      OffersOfNext(s, text, service, datasets, j);
      if Matches(s, text, service, d) {
        var o := Offer(Key(service, d.code), d);
        GroupedSnoc(all, result, o);
        result := Counted(result, o);
        all := all + [o];
      }
      j := j + 1;
    }
    assert datasets[..|datasets|] == datasets;
  }

  method Group(s: Strings, text: string, instances: seq<Instance>) returns (result: map<Key, Summary>)
    ensures Grouped(Offers(s, text, instances), result)
  {
    result := map[];
    var i := 0;
    while i < |instances|
      invariant 0 <= i <= |instances| && Grouped(Offers(s, text, instances[..i]), result)
    {
      ghost var offers := Offers(s, text, instances[..i]);
      assert instances[..i + 1][..i] == instances[..i] && offers + [] == offers;
      if instances[i].parses {
        result := GroupInstance(s, text, instances[i].service, instances[i].datasets, result, offers);
      }
      i := i + 1;
    }
    assert instances[..|instances|] == instances;
  }

  /** The values of a map, in whatever order they come. */
  method Values(result: map<Key, Summary>) returns (values: seq<Summary>)
    requires forall key :: key in result ==> result[key].key == key
    ensures forall v :: v in values <==> v.key in result && result[v.key] == v
    ensures forall i, j :: 0 <= i < j < |values| ==> values[i].key != values[j].key
  {
    values := [];
    var rest := result.Keys;
    while rest != {}
      invariant rest <= result.Keys
      invariant forall v :: v in values <==> v.key in result && v.key !in rest && result[v.key] == v
      invariant forall i, j :: 0 <= i < j < |values| ==> values[i].key != values[j].key
      decreases |rest|
    {
      var key :| key in rest;
      ghost var before := values;
      values := values + [result[key]];
      rest := rest - {key};
      forall v ensures v in values <==> v.key in result && v.key !in rest && result[v.key] == v {
        assert v in values <==> v in before || v == result[key];
      }
    }
  }

  /** Insert a value with a new key into its place. */
  method Insert(sorted: seq<Summary>, v: Summary) returns (r: seq<Summary>)
    requires Sorted(sorted) && forall i :: 0 <= i < |sorted| ==> sorted[i].key != v.key
    ensures Sorted(r) && forall w :: w in r <==> w in sorted || w == v
  {
    var k := 0;
    while k < |sorted| && Before(sorted[k].key, v.key)
      invariant 0 <= k <= |sorted| && forall i :: 0 <= i < k ==> Before(sorted[i].key, v.key)
    {
      k := k + 1;
    }
    forall i | k <= i < |sorted| ensures Before(v.key, sorted[i].key) {
      BeforeTotal(v.key, sorted[k].key);
      if k < i { BeforeTransitive(v.key, sorted[k].key, sorted[i].key); }
    }
    r := sorted[..k] + [v] + sorted[k..];
    assert sorted == sorted[..k] + sorted[k..];
  }

  method Sort(values: seq<Summary>) returns (sorted: seq<Summary>)
    requires forall i, j :: 0 <= i < j < |values| ==> values[i].key != values[j].key
    ensures Sorted(sorted) && forall v :: v in sorted <==> v in values
  {
    sorted := [];
    var i := 0;
    while i < |values|
      invariant 0 <= i <= |values| && Sorted(sorted)
      invariant forall v :: v in sorted <==> v in values[..i]
    {
      forall k | 0 <= k < |sorted| ensures sorted[k].key != values[i].key {
        assert sorted[k] in values[..i];
      }
      sorted := Insert(sorted, values[i]);
      assert values[..i + 1] == values[..i] + [values[i]];
      i := i + 1;
    }
    assert values[..|values|] == values;
  }

  method SummarizeDatasets(s: Strings, instances: seq<Instance>, search: string) returns (values: seq<Summary>)
    ensures IsCatalog(Offers(s, s.lower(s.trim(search)), instances), values)
  {
    var text := s.lower(s.trim(search));
    var result := Group(s, text, instances);
    var unsorted := Values(result);
    values := Sort(unsorted);
    ghost var offers := Offers(s, text, instances);
    forall i | 0 <= i < |values| ensures IsEntry(offers, values[i]) { assert values[i] in values; }
    forall key | CountOf(offers, key) > 0 ensures HasEntry(values, key) {
      assert result[key] in values;
    }
  }

  // ---- the counters ----

  function Total(values: seq<Summary>): int {
    if values == [] then 0 else Total(values[..|values| - 1]) + values[|values| - 1].healthyInstances
  }

  /** How often the keys of `values` are offered. */
  function TotalCount(offers: seq<Offer>, values: seq<Summary>): nat {
    if values == [] then 0
    else TotalCount(offers, values[..|values| - 1]) + CountOf(offers, values[|values| - 1].key)
  }

  /** Every matching declaration is counted once. */
  lemma CountsAddUp(offers: seq<Offer>, values: seq<Summary>)
    requires IsCatalog(offers, values)
    ensures Total(values) == |offers|
  {
    TotalIsCount(offers, values);
    forall i | 0 <= i < |offers| ensures HasEntry(values, offers[i].key) { OfferedCounts(offers, i); }
    forall i, j | 0 <= i < j < |values| ensures values[i].key != values[j].key { BeforeTotal(values[i].key, values[j].key); }
    CountsCover(offers, values);
  }

  lemma {:induction false} TotalIsCount(offers: seq<Offer>, values: seq<Summary>)
    requires forall i :: 0 <= i < |values| ==> IsEntry(offers, values[i])
    ensures Total(values) == TotalCount(offers, values)
  {
    if values != [] {
      TotalIsCount(offers, values[..|values| - 1]);
      assert IsEntry(offers, values[|values| - 1]);
    }
  }

  lemma {:induction false} OfferedCounts(offers: seq<Offer>, i: nat)
    requires i < |offers|
    ensures CountOf(offers, offers[i].key) > 0
  {
    if i < |offers| - 1 { OfferedCounts(offers[..|offers| - 1], i); }
  }

  lemma {:induction false} CountsCover(offers: seq<Offer>, values: seq<Summary>)
    requires forall i :: 0 <= i < |offers| ==> HasEntry(values, offers[i].key)
    requires forall i, j :: 0 <= i < j < |values| ==> values[i].key != values[j].key
    ensures TotalCount(offers, values) == |offers|
  {
    if offers == [] {
      NoOffers(values);
    } else {
      var init, o := offers[..|offers| - 1], offers[|offers| - 1];
      CountsCover(init, values);
      assert HasEntry(values, offers[|offers| - 1].key);
      var k :| 0 <= k < |values| && values[k].key == o.key;
      OneMoreOffer(init, o, values, k);
      assert init + [o] == offers;
    }
  }

  lemma {:induction false} NoOffers(values: seq<Summary>)
    ensures TotalCount([], values) == 0
  {
    if values != [] { NoOffers(values[..|values| - 1]); }
  }

  /** One more offer raises the count of one entry, at position `k`. */
  lemma {:induction false} OneMoreOffer(offers: seq<Offer>, o: Offer, values: seq<Summary>, k: int)
    requires forall i :: 0 <= i < |values| ==> (values[i].key == o.key <==> i == k)
    ensures TotalCount(offers + [o], values) == TotalCount(offers, values) + if 0 <= k < |values| then 1 else 0
  {
    if values != [] {
      OneMoreOffer(offers, o, values[..|values| - 1], k);
      CountSnoc(offers, o, values[|values| - 1].key);
    }
  }

  // ---- pages ----

  /** A 32-bit signed integer after wrap-around. */
  function Wrap32(x: int): (w: int)
    ensures -0x8000_0000 <= w < 0x8000_0000
    ensures -0x8000_0000 <= x < 0x8000_0000 ==> w == x
  {
    (x + 0x8000_0000) % 0x1_0000_0000 - 0x8000_0000
  }

  function NormalPage(page: int): int { if page < 1 then 1 else page }

  function NormalSize(size: int): int { if size < 1 then 20 else if size > 100 then 100 else size }

  /** The requested page; a negative start is a run-time failure. */
  function ListPage<T>(values: seq<T>, page: int, pageSize: int): (r: (seq<T>, bool))
  {
    var size := NormalSize(pageSize);
    var start := Wrap32((NormalPage(page) - 1) * size);
    if start >= |values| then ([], true)
    else if start < 0 then ([], false)
    else (values[start..if start + size < |values| then start + size else |values|], true)
  }

  /** One request: the page of the current catalog and its length; `fine` is false for a run-time failure. */
  method ListDatasets(s: Strings, instances: seq<Instance>, search: string, page: int, pageSize: int)
    returns (items: seq<Summary>, total: int, fine: bool)
    ensures exists all :: IsCatalog(Offers(s, s.lower(s.trim(search)), instances), all)
                       && (items, fine) == ListPage(all, page, pageSize) && total == |all|
  {
    var values := SummarizeDatasets(s, instances, search);
    var listed := ListPage(values, page, pageSize);
    items, total, fine := listed.0, |values|, listed.1;
  }

  /** The page as it is meant: `size` values from position (page-1)*size on. */
  function MeantPage<T>(values: seq<T>, page: int, pageSize: int): seq<T>
  {
    var size := NormalSize(pageSize);
    var start := (NormalPage(page) - 1) * size;
    if start >= |values| then []
    else values[start..if start + size < |values| then start + size else |values|]
  }

  /** A page is right exactly when the 32-bit product does not wrap, or wraps from beyond the list to
      beyond the list. */
  lemma PageIsRight<T>(values: seq<T>, page: int, pageSize: int)
    requires forall i, j :: 0 <= i < j < |values| ==> values[i] != values[j]
    ensures var start := (NormalPage(page) - 1) * NormalSize(pageSize);
      ListPage(values, page, pageSize) == (MeantPage(values, page, pageSize), true)
      <==> Wrap32(start) == start || (start >= |values| && Wrap32(start) >= |values|)
  {
    var size := NormalSize(pageSize);
    var start := (NormalPage(page) - 1) * size;
    StartIsNatural(NormalPage(page) - 1, size);
    var w := Wrap32(start);
    if w != start && 0 <= w < |values| {
      assert ListPage(values, page, pageSize).0[0] == values[w];
      if start < |values| { assert MeantPage(values, page, pageSize)[0] == values[start]; }
    }
  }

  lemma StartIsNatural(a: int, b: int)
    requires a >= 0 && b >= 0
    ensures a * b >= 0
  {
  }

  /** A request for a page far beyond the end fails at run time instead of returning an empty page. */
  lemma FarPageFails<T>(values: seq<T>)
    ensures ListPage(values, 0x7fff_ffff, 100) == ([], false)
  {
    assert Wrap32(0x7fff_fffe * 100) == -200;
  }

  /** The first `n` pages put together. */
  function Pages<T>(values: seq<T>, n: nat, pageSize: int): seq<T> {
    if n == 0 then [] else Pages(values, n - 1, pageSize) + ListPage(values, n, pageSize).0
  }

  /** Page after page gives the whole list, once. */
  lemma {:induction false} PagesCoverList<T>(values: seq<T>, n: nat, pageSize: int)
    requires n * NormalSize(pageSize) < 0x8000_0000
    ensures Pages(values, n, pageSize)
         == values[..if n * NormalSize(pageSize) < |values| then n * NormalSize(pageSize) else |values|]
  {
    if n > 0 {
      var size := NormalSize(pageSize);
      OnePageMore(n, size);
      PagesCoverList(values, n - 1, pageSize);
      assert Wrap32((n - 1) * size) == (n - 1) * size;
    }
  }

  lemma OnePageMore(n: nat, size: nat)
    requires n > 0
    ensures (n - 1) * size + size == n * size && 0 <= (n - 1) * size
  {
  }
}
