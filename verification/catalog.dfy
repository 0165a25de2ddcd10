/** The provider catalog merged from the country packages (kernel/provider_manager/catalog.py). */
module Catalog {
  import opened Common
  import opened Sorting
  import opened Selection

  datatype Provider = Provider(id: string, displayName: string, category: string, authMethod: string,
                               credentialFields: seq<string>, live: bool)

  datatype Package = Package(code: string, active: bool, providers: Option<seq<Provider>>)

  datatype Entry = Entry(provider: string, displayName: string, category: string, countries: seq<string>,
                         authMethod: string, credentialFields: seq<string>, live: bool)

  // ---------- text order ----------

  predicate TextLe(a: string, b: string) {
    a == "" || (b != "" && (a[0] < b[0] || (a[0] == b[0] && TextLe(a[1..], b[1..]))))
  }

  lemma {:induction false} TextTotal(a: string, b: string)
    ensures TextLe(a, b) || TextLe(b, a)
    ensures TextLe(a, b) && TextLe(b, a) ==> a == b
  {
    if a != "" && b != "" && a[0] == b[0] {
      TextTotal(a[1..], b[1..]);
      assert a == [a[0]] + a[1..] && b == [b[0]] + b[1..];
    }
  }

  lemma {:induction false} TextTransitive(a: string, b: string, c: string)
    requires TextLe(a, b) && TextLe(b, c)
    ensures TextLe(a, c)
  {
    if a != "" && a[0] == b[0] == c[0] {
      TextTransitive(a[1..], b[1..], c[1..]);
    }
  }

  /** In the order of characters, shorter first: a begins b, or is smaller where they first differ. */
  ghost predicate Before(a: string, b: string) {
    a <= b || exists k :: 0 <= k < |a| && k < |b| && a[..k] == b[..k] && a[k] < b[k]
  }

  lemma {:induction false} TextLeIff(a: string, b: string)
    ensures TextLe(a, b) <==> Before(a, b)
  {
    if a != "" && b != "" {
      if a[0] == b[0] {
        TextLeIff(a[1..], b[1..]);
        BeforeOfRests(a, b);
      } else if a[0] < b[0] {
        assert a[..0] == b[..0];
      } else {
        assert forall k :: 0 < k < |a| && k < |b| && a[..k] == b[..k] ==> a[..k][0] == b[..k][0];
      }
    }
  }

  lemma BeforeOfRests(a: string, b: string)
    requires a != "" && b != "" && a[0] == b[0]
    ensures Before(a, b) <==> Before(a[1..], b[1..])
  {
    assert a == [a[0]] + a[1..] && b == [b[0]] + b[1..];
    if k :| 0 <= k < |a| && k < |b| && a[..k] == b[..k] && a[k] < b[k] {
      assert k > 0 && a[1..][..k - 1] == a[..k][1..] && b[1..][..k - 1] == b[..k][1..];
      assert a[1..][k - 1] < b[1..][k - 1];
    }
    if k :| 0 <= k < |a[1..]| && k < |b[1..]| && a[1..][..k] == b[1..][..k] && a[1..][k] < b[1..][k] {
      assert a[..k + 1] == [a[0]] + a[1..][..k] && b[..k + 1] == [b[0]] + b[1..][..k];
      assert a[k + 1] < b[k + 1];
    }
  }

  /** By category, and within a category by provider. */
  ghost predicate InCatalogOrder(catalog: seq<Entry>) {
    forall i, j :: 0 <= i < j < |catalog| ==>
      && Before(catalog[i].category, catalog[j].category)
      && (catalog[i].category == catalog[j].category ==> Before(catalog[i].provider, catalog[j].provider))
  }

  lemma SortedIsInOrder(catalog: seq<Entry>)
    requires Sorted(EntryLe, catalog)
    ensures InCatalogOrder(catalog)
  {
    forall i, j | 0 <= i < j < |catalog|
      ensures Before(catalog[i].category, catalog[j].category)
      ensures catalog[i].category == catalog[j].category ==> Before(catalog[i].provider, catalog[j].provider)
    {
      assert EntryLe(catalog[i], catalog[j]);
      TextLeIff(catalog[i].category, catalog[j].category);
      TextLeIff(catalog[i].provider, catalog[j].provider);
    }
  }

  predicate EntryLe(e: Entry, f: Entry) {
    if e.category == f.category then TextLe(e.provider, f.provider) else TextLe(e.category, f.category)
  }

  lemma TextIsPreorder()
    ensures TotalPreorder(TextLe)
  {
    forall a, b
      ensures TextLe(a, b) || TextLe(b, a)
    {
      TextTotal(a, b);
    }
    forall a, b, c | TextLe(a, b) && TextLe(b, c)
      ensures TextLe(a, c)
    {
      TextTransitive(a, b, c);
    }
  }

  lemma EntryIsPreorder()
    ensures TotalPreorder(EntryLe)
  {
    forall a, b
      ensures EntryLe(a, b) || EntryLe(b, a)
    {
      TextTotal(a.provider, b.provider);
      TextTotal(a.category, b.category);
    }
    forall a, b, c | EntryLe(a, b) && EntryLe(b, c)
      ensures EntryLe(a, c)
    {
      EntryTransitive(a, b, c);
    }
  }

  lemma EntryTransitive(a: Entry, b: Entry, c: Entry)
    requires EntryLe(a, b) && EntryLe(b, c)
    ensures EntryLe(a, c)
  {
    if a.category == b.category == c.category {
      TextTransitive(a.provider, b.provider, c.provider);
    } else if a.category != b.category && b.category != c.category {
      TextTransitive(a.category, b.category, c.category);
      TextTotal(a.category, b.category);
    }
  }

  // ---------- what is listed ----------

  datatype Listing = Listing(code: string, provider: Provider)

  function ListingsOf(code: string, providers: seq<Provider>): (r: seq<Listing>)
    ensures |r| == |providers| && forall i :: 0 <= i < |r| ==> r[i] == Listing(code, providers[i])
  {
    seq(|providers|, i requires 0 <= i < |providers| => Listing(code, providers[i]))
  }

  function Contributes(pkg: Package): seq<Listing> {
    if pkg.active && pkg.providers.Some? then ListingsOf(pkg.code, pkg.providers.value) else []
  }

  /** Every provider every active package lists, in order. */
  function Listings(packages: seq<Package>): seq<Listing> {
    if packages == [] then []
    else Listings(packages[..|packages| - 1]) + Contributes(packages[|packages| - 1])
  }

  predicate Lists(listings: seq<Listing>, code: string, id: string) {
    exists k :: 0 <= k < |listings| && listings[k].code == code && listings[k].provider.id == id
  }

  predicate IsFirstListing(listings: seq<Listing>, k: nat, id: string) {
    k < |listings| && listings[k].provider.id == id && forall j :: 0 <= j < k ==> listings[j].provider.id != id
  }

  predicate Describes(e: Entry, p: Provider) {
    e.provider == p.id && e.displayName == p.displayName && e.category == p.category
    && e.authMethod == p.authMethod && e.credentialFields == p.credentialFields && e.live == p.live
  }

  predicate NoRepeats(texts: seq<string>) {
    forall i, j :: 0 <= i < j < |texts| ==> texts[i] != texts[j]
  }

  predicate ProvidersUnique(entries: seq<Entry>) {
    forall i, j :: 0 <= i < j < |entries| ==> entries[i].provider != entries[j].provider
  }

  /** The entry stands for its provider: described by its first listing, present in
      exactly the countries that list it, each once. */
  ghost predicate StandsFor(e: Entry, listings: seq<Listing>) {
    && (exists k: nat :: IsFirstListing(listings, k, e.provider) && Describes(e, listings[k].provider))
    && NoRepeats(e.countries)
    && (forall code :: code in e.countries <==> Lists(listings, code, e.provider))
  }

  ghost predicate Merged(entries: seq<Entry>, listings: seq<Listing>) {
    && ProvidersUnique(entries)
    && (forall i :: 0 <= i < |entries| ==> StandsFor(entries[i], listings))
    && (forall k :: 0 <= k < |listings| ==> HasEntry(entries, listings[k].provider.id))
  }

  predicate HasEntry(entries: seq<Entry>, id: string) {
    exists i :: 0 <= i < |entries| && entries[i].provider == id
  }

  // ---------- the merge ----------

  function Find(entries: seq<Entry>, id: string): (i: nat)
    ensures i <= |entries|
    ensures i < |entries| ==> entries[i].provider == id
    ensures forall j :: 0 <= j < i ==> entries[j].provider != id
  {
    if entries == [] || entries[0].provider == id then 0 else 1 + Find(entries[1..], id)
  }

  function NewEntry(code: string, p: Provider): Entry {
    Entry(p.id, p.displayName, p.category, [code], p.authMethod, p.credentialFields, p.live)
  }

  /** One listing into the insertion-ordered dictionary. */
  function MergeOne(entries: seq<Entry>, code: string, p: Provider): seq<Entry> {
    var i := Find(entries, p.id);
    if i == |entries| then entries + [NewEntry(code, p)]
    else if code in entries[i].countries then entries
    else entries[i := entries[i].(countries := entries[i].countries + [code])]
  }

  lemma ListsAppend(listings: seq<Listing>, l: Listing, code: string, id: string)
    ensures Lists(listings + [l], code, id) <==> Lists(listings, code, id) || (l.code == code && l.provider.id == id)
  {
    var all := listings + [l];
    assert all[|listings|] == l;
    assert forall k :: 0 <= k < |listings| ==> all[k] == listings[k];
  }

  lemma OtherEntryStands(e: Entry, listings: seq<Listing>, l: Listing)
    requires StandsFor(e, listings) && (e.provider != l.provider.id || l.code in e.countries)
    ensures StandsFor(e, listings + [l])
  {
    var k: nat :| IsFirstListing(listings, k, e.provider) && Describes(e, listings[k].provider);
    assert IsFirstListing(listings + [l], k, e.provider) && (listings + [l])[k] == listings[k];
    forall code
      ensures code in e.countries <==> Lists(listings + [l], code, e.provider)
    {
      ListsAppend(listings, l, code, e.provider);
    }
  }

  lemma ExtendedEntryStands(e: Entry, listings: seq<Listing>, l: Listing)
    requires StandsFor(e, listings) && e.provider == l.provider.id && l.code !in e.countries
    ensures StandsFor(e.(countries := e.countries + [l.code]), listings + [l])
  {
    var k: nat :| IsFirstListing(listings, k, e.provider) && Describes(e, listings[k].provider);
    assert IsFirstListing(listings + [l], k, e.provider) && (listings + [l])[k] == listings[k];
    forall code
      ensures code in e.countries + [l.code] <==> Lists(listings + [l], code, e.provider)
    {
      ListsAppend(listings, l, code, e.provider);
    }
  }

  lemma NewEntryStands(listings: seq<Listing>, l: Listing)
    requires forall k :: 0 <= k < |listings| ==> listings[k].provider.id != l.provider.id
    ensures StandsFor(NewEntry(l.code, l.provider), listings + [l])
  {
    assert IsFirstListing(listings + [l], |listings|, l.provider.id);
    forall code
      ensures code in [l.code] <==> Lists(listings + [l], code, l.provider.id)
    {
      ListsAppend(listings, l, code, l.provider.id);
    }
  }

  lemma MergedEntryStands(entries: seq<Entry>, listings: seq<Listing>, l: Listing, i: nat)
    requires Merged(entries, listings) && i < |MergeOne(entries, l.code, l.provider)|
    ensures StandsFor(MergeOne(entries, l.code, l.provider)[i], listings + [l])
  {
    var at := Find(entries, l.provider.id);
    if i == |entries| {
      forall k | 0 <= k < |listings|
        ensures listings[k].provider.id != l.provider.id
      {
        assert HasEntry(entries, listings[k].provider.id);
      }
      NewEntryStands(listings, l);
    } else if i == at && l.code !in entries[at].countries {
      ExtendedEntryStands(entries[i], listings, l);
    } else {
      OtherEntryStands(entries[i], listings, l);
    }
  }

  lemma MergeHasEntries(entries: seq<Entry>, code: string, p: Provider, id: string)
    ensures HasEntry(MergeOne(entries, code, p), p.id)
    ensures HasEntry(entries, id) ==> HasEntry(MergeOne(entries, code, p), id)
  {
    var after := MergeOne(entries, code, p);
    assert after[Find(entries, p.id)].provider == p.id;
    if HasEntry(entries, id) {
      var i :| 0 <= i < |entries| && entries[i].provider == id;
      assert after[i].provider == id;
    }
  }

  lemma MergeStaysUnique(entries: seq<Entry>, code: string, p: Provider)
    requires ProvidersUnique(entries)
    ensures ProvidersUnique(MergeOne(entries, code, p))
  {
  }

  lemma MergeKeeps(entries: seq<Entry>, listings: seq<Listing>, code: string, p: Provider)
    requires Merged(entries, listings)
    ensures Merged(MergeOne(entries, code, p), listings + [Listing(code, p)])
  {
    var l := Listing(code, p);
    var after := MergeOne(entries, code, p);
    MergeStaysUnique(entries, code, p);
    forall i | 0 <= i < |after|
      ensures StandsFor(after[i], listings + [l])
    {
      MergedEntryStands(entries, listings, l, i);
    }
    forall k | 0 <= k < |listings + [l]|
      ensures HasEntry(after, (listings + [l])[k].provider.id)
    {
      MergeHasEntries(entries, code, p, (listings + [l])[k].provider.id);
      if k < |listings| {
        assert HasEntry(entries, listings[k].provider.id);
      }
    }
  }

  // ---------- the escape hatch and the final order ----------

  function ActiveCodes(packages: seq<Package>): seq<string> {
    if packages == [] then []
    else
      var last := packages[|packages| - 1];
      ActiveCodes(packages[..|packages| - 1]) + if last.active then [last.code] else []
  }

  function Custom(countries: seq<string>): Entry {
    Entry("custom", "Custom Financial Provider", "custom", countries, "api_key", ["api_key"], false)
  }

  function Put(entries: seq<Entry>, e: Entry): seq<Entry> {
    var i := Find(entries, e.provider);
    if i == |entries| then entries + [e] else entries[i := e]
  }

  /** Non-custom entries stand for the listed providers; one custom entry covers every
      active country; the whole is in order. */
  ghost predicate IsCatalog(packages: seq<Package>, catalog: seq<Entry>) {
    var listings := Listings(packages);
    && ProvidersUnique(catalog)
    && (forall i :: 0 <= i < |catalog| && catalog[i].provider != "custom" ==> StandsFor(catalog[i], listings))
    && (forall i :: 0 <= i < |catalog| && catalog[i].provider == "custom" ==>
          && catalog[i] == Custom(catalog[i].countries)
          && multiset(catalog[i].countries) == multiset(ActiveCodes(packages))
          && Sorted(TextLe, catalog[i].countries))
    && (forall k :: 0 <= k < |listings| ==> HasEntry(catalog, listings[k].provider.id))
    && HasEntry(catalog, "custom")
  }

  lemma CatalogPermuted(packages: seq<Package>, entries: seq<Entry>, catalog: seq<Entry>)
    requires IsCatalog(packages, entries) && multiset(entries) == multiset(catalog)
    ensures IsCatalog(packages, catalog)
  {
    forall e: Entry
      ensures e in entries <==> e in catalog
    {
      assert e in entries <==> e in multiset(entries);
      assert e in catalog <==> e in multiset(catalog);
    }
    PermutedUnique(entries, catalog);
    var listings := Listings(packages);
    forall id | HasEntry(entries, id)
      ensures HasEntry(catalog, id)
    {
      var i :| 0 <= i < |entries| && entries[i].provider == id;
      assert entries[i] in catalog;
    }
    forall j | 0 <= j < |catalog|
      ensures catalog[j] in entries
    {
    }
  }

  lemma PermutedUnique(a: seq<Entry>, b: seq<Entry>)
    requires ProvidersUnique(a) && multiset(a) == multiset(b)
    ensures ProvidersUnique(b)
  {
    forall i, j | 0 <= i < j < |b|
      ensures b[i].provider != b[j].provider
    {
      if b[i] == b[j] {
        CountTwo(b, i, j);
        CountUnique(a, b[i]);
      } else {
        assert b[i] in multiset(a) && b[j] in multiset(a);
      }
    }
  }

  lemma CountTwo(s: seq<Entry>, i: nat, j: nat)
    requires i < j < |s| && s[i] == s[j]
    ensures multiset(s)[s[i]] >= 2
  {
    assert s == s[..j] + [s[j]] + s[j + 1..];
    assert s[..j][i] == s[i];
    assert s[i] in multiset(s[..j]);
  }

  lemma {:induction false} CountUnique(s: seq<Entry>, e: Entry)
    requires ProvidersUnique(s)
    ensures multiset(s)[e] <= 1
  {
    if s != [] {
      CountUnique(s[1..], e);
      assert s == [s[0]] + s[1..];
      if s[0] == e {
        assert e !in s[1..];
      }
    }
  }

  lemma PutHasEntries(entries: seq<Entry>, e: Entry, id: string)
    ensures HasEntry(Put(entries, e), e.provider)
    ensures HasEntry(entries, id) ==> HasEntry(Put(entries, e), id)
  {
    var after := Put(entries, e);
    assert after[Find(entries, e.provider)].provider == e.provider;
    if HasEntry(entries, id) {
      var i :| 0 <= i < |entries| && entries[i].provider == id;
      assert after[i].provider == id;
    }
  }

  lemma PutStaysUnique(entries: seq<Entry>, e: Entry)
    requires ProvidersUnique(entries)
    ensures ProvidersUnique(Put(entries, e))
    ensures forall i :: 0 <= i < |Put(entries, e)| ==>
              if Put(entries, e)[i].provider == e.provider then Put(entries, e)[i] == e
              else i < |entries| && Put(entries, e)[i] == entries[i]
  {
  }

  lemma PutCustom(packages: seq<Package>, entries: seq<Entry>, countries: seq<string>)
    requires Merged(entries, Listings(packages))
    requires multiset(countries) == multiset(ActiveCodes(packages)) && Sorted(TextLe, countries)
    ensures IsCatalog(packages, Put(entries, Custom(countries)))
  {
    var custom := Custom(countries);
    PutStaysUnique(entries, custom);
    forall id
      ensures HasEntry(entries, id) ==> HasEntry(Put(entries, custom), id)
      ensures HasEntry(Put(entries, custom), "custom")
    {
      PutHasEntries(entries, custom, id);
    }
  }

  lemma ListingsStep(packages: seq<Package>, i: nat)
    requires i < |packages|
    ensures Listings(packages[..i + 1])
         == if packages[i].active && packages[i].providers.Some?
            then Listings(packages[..i]) + ListingsOf(packages[i].code, packages[i].providers.value)
            else Listings(packages[..i])
  {
    assert packages[..i + 1][..i] == packages[..i];
    assert Listings(packages[..i]) + [] == Listings(packages[..i]);
  }

  lemma NothingMerged()
    ensures Merged([], Listings([]))
  {
  }

  method BuildCatalog(packages: seq<Package>) returns (catalog: seq<Entry>)
    ensures IsCatalog(packages, catalog)
    ensures Sorted(EntryLe, catalog)
    ensures InCatalogOrder(catalog)
  {
    var merged: seq<Entry> := [];
    var i := 0;
    NothingMerged();
    assert packages[..0] == [];
    while i < |packages|
      invariant 0 <= i <= |packages|
      invariant Merged(merged, Listings(packages[..i]))
    {
      var pkg := packages[i];
      ListingsStep(packages, i);
      if pkg.active && pkg.providers.Some? {
        merged := MergePackage(merged, Listings(packages[..i]), pkg.code, pkg.providers.value);
      }
      i := i + 1;
    }
    assert packages[..i] == packages;
    var countries := SortedTexts(ActiveCodes(packages));
    PutCustom(packages, merged, countries);
    merged := Put(merged, Custom(countries));
    catalog := SortedEntries(merged);
    CatalogPermuted(packages, merged, catalog);
    SortedIsInOrder(catalog);
  }

  method SortedTexts(texts: seq<string>) returns (sorted: seq<string>)
    ensures multiset(sorted) == multiset(texts) && Sorted(TextLe, sorted)
  {
    TextIsPreorder();
    sorted := StableSort(TextLe, texts);
    StableSortIsStable(TextLe, texts);
    StableSortPermutes(TextLe, texts, sorted);
  }

  method SortedEntries(entries: seq<Entry>) returns (sorted: seq<Entry>)
    ensures multiset(sorted) == multiset(entries) && Sorted(EntryLe, sorted)
  {
    EntryIsPreorder();
    sorted := StableSort(EntryLe, entries);
    StableSortIsStable(EntryLe, entries);
    StableSortPermutes(EntryLe, entries, sorted);
  }

  lemma ListingsExtend(listings: seq<Listing>, code: string, providers: seq<Provider>, j: nat)
    requires j < |providers|
    ensures listings + ListingsOf(code, providers[..j]) + [Listing(code, providers[j])]
         == listings + ListingsOf(code, providers[..j + 1])
  {
    assert ListingsOf(code, providers[..j + 1]) == ListingsOf(code, providers[..j]) + [Listing(code, providers[j])];
  }

  /** The inner loop: one package's providers. */
  method MergePackage(before: seq<Entry>, ghost listings: seq<Listing>, code: string, providers: seq<Provider>)
    returns (merged: seq<Entry>)
    requires Merged(before, listings)
    ensures Merged(merged, listings + ListingsOf(code, providers))
  {
    merged := before;
    var j := 0;
    assert listings + ListingsOf(code, []) == listings;
    assert providers[..0] == [];
    while j < |providers|
      invariant 0 <= j <= |providers|
      invariant Merged(merged, listings + ListingsOf(code, providers[..j]))
    {
      MergeKeeps(merged, listings + ListingsOf(code, providers[..j]), code, providers[j]);
      ListingsExtend(listings, code, providers, j);
      merged := MergeOne(merged, code, providers[j]);
      j := j + 1;
    }
    assert providers[..j] == providers;
  }

  // ---------- lookups ----------

  /** `str.upper` on ASCII letters. */
  function Upper(s: string): (r: string)
    ensures |r| == |s|
  {
    seq(|s|, i requires 0 <= i < |s| => if 'a' <= s[i] <= 'z' then s[i] - 'a' + 'A' else s[i])
  }

  function ForCountry(catalog: seq<Entry>, country: string): seq<Entry> {
    if country == "" then catalog else Covering(catalog, Upper(country))
  }

  function Covering(catalog: seq<Entry>, code: string): seq<Entry> {
    Selected((e: Entry) => code in e.countries, catalog)
  }

  /** The active package of that code lists the provider. */
  predicate PackageLists(pkg: Package, code: string, id: string) {
    && pkg.active && pkg.code == code && pkg.providers.Some?
    && exists i :: 0 <= i < |pkg.providers.value| && pkg.providers.value[i].id == id
  }

  lemma ListsConcat(a: seq<Listing>, b: seq<Listing>, code: string, id: string)
    ensures Lists(a + b, code, id) <==> Lists(a, code, id) || Lists(b, code, id)
  {
    assert forall k :: 0 <= k < |a| ==> (a + b)[k] == a[k];
    assert forall k :: 0 <= k < |b| ==> (a + b)[|a| + k] == b[k];
  }

  lemma ContributesIff(pkg: Package, code: string, id: string)
    ensures Lists(Contributes(pkg), code, id) <==> PackageLists(pkg, code, id)
  {
    if PackageLists(pkg, code, id) {
      var i :| 0 <= i < |pkg.providers.value| && pkg.providers.value[i].id == id;
      assert Contributes(pkg)[i].provider.id == id;
    }
  }

  lemma SomePackageSplit(packages: seq<Package>, code: string, id: string)
    requires packages != []
    ensures var n := |packages| - 1;
            (exists k :: 0 <= k < |packages| && PackageLists(packages[k], code, id)) <==>
              (exists k :: 0 <= k < |packages[..n]| && PackageLists(packages[..n][k], code, id))
              || PackageLists(packages[n], code, id)
  {
    var n := |packages| - 1;
    assert forall k :: 0 <= k < n ==> packages[..n][k] == packages[k];
  }

  lemma {:induction false} ListsIffPackageLists(packages: seq<Package>, code: string, id: string)
    ensures Lists(Listings(packages), code, id) <==>
              exists k :: 0 <= k < |packages| && PackageLists(packages[k], code, id)
  {
    if packages != [] {
      var n := |packages| - 1;
      ListsIffPackageLists(packages[..n], code, id);
      ListsConcat(Listings(packages[..n]), Contributes(packages[n]), code, id);
      ContributesIff(packages[n], code, id);
      SomePackageSplit(packages, code, id);
    }
  }

  lemma {:induction false} ActiveCodesMembers(packages: seq<Package>, code: string)
    ensures code in ActiveCodes(packages) <==>
              exists k :: 0 <= k < |packages| && packages[k].active && packages[k].code == code
  {
    if packages != [] {
      var n := |packages| - 1;
      ActiveCodesMembers(packages[..n], code);
      assert packages == packages[..n] + [packages[n]];
    }
  }

  predicate Offered(catalog: seq<Entry>, country: string, id: string) {
    exists e :: e in ForCountry(catalog, country) && e.provider == id
  }

  lemma OfferedIffCovered(catalog: seq<Entry>, country: string, id: string)
    requires country != ""
    ensures Offered(catalog, country, id) <==>
              exists i :: 0 <= i < |catalog| && catalog[i].provider == id && Upper(country) in catalog[i].countries
  {
    var code := Upper(country);
    forall e: Entry
      ensures e in Covering(catalog, code) <==> e in catalog && code in e.countries
    {
      SelectedHas((e: Entry) => code in e.countries, catalog, e);
    }
    if i :| 0 <= i < |catalog| && catalog[i].provider == id && code in catalog[i].countries {
      assert catalog[i] in Covering(catalog, code);
    }
  }

  lemma CustomOffered(packages: seq<Package>, catalog: seq<Entry>, country: string)
    requires IsCatalog(packages, catalog) && country != ""
    ensures Offered(catalog, country, "custom") <==> Upper(country) in ActiveCodes(packages)
  {
    var code := Upper(country);
    OfferedIffCovered(catalog, country, "custom");
    assert HasEntry(catalog, "custom");
    var i :| 0 <= i < |catalog| && catalog[i].provider == "custom";
    CustomCovers(packages, catalog[i].countries, code);
    assert forall j :: 0 <= j < |catalog| && catalog[j].provider == "custom" ==> j == i;
  }

  lemma ListedOffered(packages: seq<Package>, catalog: seq<Entry>, country: string, id: string)
    requires IsCatalog(packages, catalog) && country != "" && id != "custom"
    ensures Offered(catalog, country, id) <==> Lists(Listings(packages), Upper(country), id)
  {
    var code := Upper(country);
    OfferedIffCovered(catalog, country, id);
    if Lists(Listings(packages), code, id) {
      assert HasEntry(catalog, id);
      var i :| 0 <= i < |catalog| && catalog[i].provider == id;
      assert StandsFor(catalog[i], Listings(packages));
    }
  }

  /** For a requested country, a provider other than "custom" is offered exactly when the
      active package of that country lists it; "custom" exactly when there is such a package. */
  lemma OfferedIffListed(packages: seq<Package>, catalog: seq<Entry>, country: string, id: string)
    requires IsCatalog(packages, catalog) && country != ""
    ensures
      Offered(catalog, country, id) <==>
        if id == "custom" then
          exists k :: 0 <= k < |packages| && packages[k].active && packages[k].code == Upper(country)
        else exists k :: 0 <= k < |packages| && PackageLists(packages[k], Upper(country), id)
  {
    if id == "custom" {
      CustomOffered(packages, catalog, country);
      ActiveCodesMembers(packages, Upper(country));
    } else {
      ListedOffered(packages, catalog, country, id);
      ListsIffPackageLists(packages, Upper(country), id);
    }
  }

  /** The ASCII capitals stand thirty-two places before their small letters; nothing else changes. */
  lemma UpperIs(s: string, i: nat)
    requires i < |s|
    ensures Upper(s)[i] as int == if 97 <= s[i] as int <= 122 then s[i] as int - 32 else s[i] as int
  {
  }

  /** A country is offered the catalog's entries that cover it, in the catalog's order; no country, or
      an empty one, is offered all of them. */
  lemma ForCountryInOrder(catalog: seq<Entry>, country: string) returns (ks: seq<nat>)
    ensures KeptInOrder((e: Entry) => country == "" || Upper(country) in e.countries, catalog,
                        ForCountry(catalog, country), ks)
  {
    if country == "" {
      ks := seq(|catalog|, i => i);
      assert forall k :: 0 <= k < |catalog| ==> ks[k] == k;
    } else {
      ks := SelectedInOrder((e: Entry) => Upper(country) in e.countries, catalog);
    }
  }

  /** Without a country every provider that some active package lists is offered, and "custom". */
  lemma OfferedAnywhereIff(packages: seq<Package>, catalog: seq<Entry>, id: string)
    requires IsCatalog(packages, catalog)
    ensures Offered(catalog, "", id) <==>
              id == "custom" || exists k :: 0 <= k < |packages| && PackageLists(packages[k], packages[k].code, id)
  {
    if id != "custom" {
      ListedSomewhereIff(catalog, Listings(packages), id);
      if k :| 0 <= k < |packages| && PackageLists(packages[k], packages[k].code, id) {
        ListsIffPackageLists(packages, packages[k].code, id);
      }
      if code :| Lists(Listings(packages), code, id) {
        ListsIffPackageLists(packages, code, id);
      }
    }
  }

  lemma EntryIsListed(e: Entry, listings: seq<Listing>) returns (code: string)
    requires StandsFor(e, listings)
    ensures Lists(listings, code, e.provider)
  {
    var k: nat :| IsFirstListing(listings, k, e.provider) && Describes(e, listings[k].provider);
    code := listings[k].code;
  }

  lemma ListedHasEntry(catalog: seq<Entry>, listings: seq<Listing>, code: string, id: string)
    requires forall k :: 0 <= k < |listings| ==> HasEntry(catalog, listings[k].provider.id)
    requires Lists(listings, code, id)
    ensures HasEntry(catalog, id)
  {
    var k :| 0 <= k < |listings| && listings[k].code == code && listings[k].provider.id == id;
    assert HasEntry(catalog, listings[k].provider.id);
  }

  lemma ListedSomewhereIff(catalog: seq<Entry>, listings: seq<Listing>, id: string)
    requires forall i :: 0 <= i < |catalog| && catalog[i].provider == id ==> StandsFor(catalog[i], listings)
    requires forall k :: 0 <= k < |listings| ==> HasEntry(catalog, listings[k].provider.id)
    ensures HasEntry(catalog, id) <==> exists code :: Lists(listings, code, id)
  {
    if i :| 0 <= i < |catalog| && catalog[i].provider == id {
      var code := EntryIsListed(catalog[i], listings);
    }
    if code :| Lists(listings, code, id) {
      ListedHasEntry(catalog, listings, code, id);
    }
  }

  lemma CustomCovers(packages: seq<Package>, countries: seq<string>, code: string)
    requires multiset(countries) == multiset(ActiveCodes(packages))
    ensures code in countries <==> code in ActiveCodes(packages)
  {
    assert code in countries <==> code in multiset(countries);
    assert code in ActiveCodes(packages) <==> code in multiset(ActiveCodes(packages));
  }
}
