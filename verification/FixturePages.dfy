/**
 Paged billing fixtures: a manifest pins pages by digest and membership, and each page is checked
 against it on its own. Together the pages are the whole fixture.
 */
module FixturePages {
  import opened Ordering

  // The parts of a fixture record that membership and baseline speak about; `data` is the rest.
  datatype Record = Record(sourceKey: string, hasOrder: bool, hasInvoice: bool, data: string)

  // A digest pins the records: equal digests mean equal pages.
  datatype Digest = Sha256(records: seq<Record>)

  datatype PageRef = PageRef(artifactId: string, digest: Digest, keys: seq<string>)

  datatype Manifest = Manifest(orders: seq<string>, invoices: seq<string>, pages: seq<PageRef>)

  // The membership a scenario declares, in canonical order.
  datatype Scenario = Scenario(recordKeys: seq<string>, orders: seq<string>, invoices: seq<string>)

  function Keys(records: seq<Record>): (keys: seq<string>)
    ensures |keys| == |records|
    ensures forall i :: 0 <= i < |records| ==> keys[i] == records[i].sourceKey
  {
    seq(|records|, i requires 0 <= i < |records| => records[i].sourceKey)
  }

  function PinnedKeys(pages: seq<PageRef>): seq<string> {
    if pages == [] then [] else pages[0].keys + PinnedKeys(pages[1..])
  }

  function AllRecords(pages: seq<seq<Record>>): seq<Record> {
    if pages == [] then [] else pages[0] + AllRecords(pages[1..])
  }

  ghost predicate ManifestOk(m: Manifest) {
    var keys := PinnedKeys(m.pages);
    && 1 <= |m.pages| <= 10000
    && (forall i :: 0 <= i < |m.pages| ==> Ascending(m.pages[i].keys, Itself) && 1 <= |m.pages[i].keys| <= 100)
    && 2 <= |keys| <= 10000 && DistinctKeys(keys, Itself)
    && (forall i, j :: 0 <= i < j < |m.pages| ==> m.pages[i].artifactId != m.pages[j].artifactId)
    && Elements(m.invoices) <= Elements(m.orders) <= Elements(keys)
  }

  // `validate_for`, after the digests of manifest, mapping and configuration agree.
  ghost predicate MatchesScenario(m: Manifest, s: Scenario) {
    && SortBy(PinnedKeys(m.pages), Itself) == s.recordKeys
    && m.orders == s.orders && m.invoices == s.invoices
  }

  // `validate_page` of the manifest at one index.
  predicate PageOk(m: Manifest, index: nat, records: seq<Record>)
    requires index < |m.pages|
  {
    && Sha256(records) == m.pages[index].digest
    && Keys(records) == m.pages[index].keys
    && forall i :: 0 <= i < |records| ==>
         && (records[i].hasOrder <==> records[i].sourceKey in m.orders)
         && (records[i].hasInvoice <==> records[i].sourceKey in m.invoices)
  }

  ghost predicate PagesOk(m: Manifest, pages: seq<seq<Record>>) {
    |pages| == |m.pages| && forall i :: 0 <= i < |pages| ==> PageOk(m, i, pages[i])
  }

  lemma {:induction false} PagesHoldPinnedKeys(refs: seq<PageRef>, pages: seq<seq<Record>>)
    requires |refs| == |pages| && forall i :: 0 <= i < |refs| ==> Keys(pages[i]) == refs[i].keys
    ensures Keys(AllRecords(pages)) == PinnedKeys(refs)
    decreases |refs|
  {
    if refs != [] {
      PagesHoldPinnedKeys(refs[1..], pages[1..]);
      assert Keys(pages[0]) == refs[0].keys;
      assert Keys(pages[0] + AllRecords(pages[1..])) == Keys(pages[0]) + Keys(AllRecords(pages[1..]));
    } else {
      assert Keys(AllRecords(pages)) == [];
    }
  }

  lemma {:induction false} RecordsAreOnPages(pages: seq<seq<Record>>, r: Record)
    requires r in AllRecords(pages)
    ensures exists i :: 0 <= i < |pages| && r in pages[i]
    decreases |pages|
  {
    if r !in pages[0] {
      RecordsAreOnPages(pages[1..], r);
      var i :| 0 <= i < |pages[1..]| && r in pages[1..][i];
      assert r in pages[i + 1];
    }
  }

  /** If the manifest matches the scenario and every page passes at its index, reading all pages
      yields every record key of the scenario exactly once and no other, and the records that carry
      an initial Order or invoice are exactly the scenario's existing Orders and invoices. */
  lemma PagesAreTheFixture(m: Manifest, s: Scenario, pages: seq<seq<Record>>)
    requires ManifestOk(m) && MatchesScenario(m, s) && PagesOk(m, pages)
    ensures var all := AllRecords(pages);
            && SortBy(Keys(all), Itself) == s.recordKeys
            && DistinctKeys(Keys(all), Itself)
            && (forall k :: k in s.recordKeys <==> exists i :: 0 <= i < |all| && all[i].sourceKey == k)
            && Elements(s.orders) == (set r | r in all && r.hasOrder :: r.sourceKey)
            && Elements(s.invoices) == (set r | r in all && r.hasInvoice :: r.sourceKey)
  {
    var all := AllRecords(pages);
    assert forall i :: 0 <= i < |pages| ==> PageOk(m, i, pages[i]);
    PagesHoldPinnedKeys(m.pages, pages);
    forall k ensures k in s.recordKeys <==> exists i :: 0 <= i < |all| && all[i].sourceKey == k {
      assert k in s.recordKeys <==> k in multiset(Keys(all));
      if k in Keys(all) {
        var i :| 0 <= i < |all| && Keys(all)[i] == k;
        assert all[i].sourceKey == k;
      }
      if i :| 0 <= i < |all| && all[i].sourceKey == k {
        assert Keys(all)[i] == k;
      }
    }
    forall r | r in all ensures (r.hasOrder <==> r.sourceKey in m.orders) && (r.hasInvoice <==> r.sourceKey in m.invoices) {
      RecordsAreOnPages(pages, r);
      var i :| 0 <= i < |pages| && r in pages[i];
      assert PageOk(m, i, pages[i]);
    }
    forall k | k in Elements(m.orders)
      ensures exists i :: 0 <= i < |all| && all[i].sourceKey == k
    {
      assert k in Elements(PinnedKeys(m.pages));
      var i :| 0 <= i < |all| && Keys(all)[i] == k;
    }
    BaselineCovers(all, m.orders, m.invoices);
  }

  lemma BaselineCovers(all: seq<Record>, orders: seq<string>, invoices: seq<string>)
    requires forall r :: r in all ==> (r.hasOrder <==> r.sourceKey in orders) && (r.hasInvoice <==> r.sourceKey in invoices)
    requires forall k :: k in Elements(orders) ==> exists i :: 0 <= i < |all| && all[i].sourceKey == k
    requires Elements(invoices) <= Elements(orders)
    ensures Elements(orders) == (set r | r in all && r.hasOrder :: r.sourceKey)
    ensures Elements(invoices) == (set r | r in all && r.hasInvoice :: r.sourceKey)
  {
    forall k | k in Elements(orders) ensures k in (set r | r in all && r.hasOrder :: r.sourceKey) {
      var i :| 0 <= i < |all| && all[i].sourceKey == k;
      assert all[i] in all && all[i].hasOrder;
    }
    forall k | k in Elements(invoices) ensures k in (set r | r in all && r.hasInvoice :: r.sourceKey) {
      assert k in Elements(orders);
      var i :| 0 <= i < |all| && all[i].sourceKey == k;
      assert all[i] in all && all[i].hasInvoice;
    }
  }

  /** A page that was pinned under one index never passes under another. */
  lemma PagesCannotBeSwapped(m: Manifest, i: nat, j: nat, records: seq<Record>)
    requires ManifestOk(m) && i < j < |m.pages| && PageOk(m, i, records)
    ensures !PageOk(m, j, records)
  {
    if m.pages[i].keys == m.pages[j].keys {
      PagesShareNoKey(m.pages, i, j, m.pages[i].keys[0]);
    }
  }

  /** Under one manifest exactly one page passes at each index, to the last byte of its records. */
  lemma PassesIffPinned(m: Manifest, i: nat, records: seq<Record>, others: seq<Record>)
    requires i < |m.pages| && PageOk(m, i, records)
    ensures PageOk(m, i, others) <==> others == records
  {
  }

  // The manifest that pins some pages under some artifact identities.
  function Pin(ids: seq<string>, pages: seq<seq<Record>>, orders: seq<string>, invoices: seq<string>): Manifest
    requires |ids| == |pages|
  {
    Manifest(orders, invoices, seq(|pages|, i requires 0 <= i < |pages| => PageRef(ids[i], Sha256(pages[i]), Keys(pages[i]))))
  }

  lemma {:induction false} FewerPagesThanRecords(pages: seq<seq<Record>>)
    requires forall i :: 0 <= i < |pages| ==> pages[i] != []
    ensures |pages| <= |AllRecords(pages)|
    decreases |pages|
  {
    if pages != [] { FewerPagesThanRecords(pages[1..]); }
  }

  // What a fixture may be: pages of one to a hundred records in the order of their keys, two to ten thousand
  // records in all, no key and no artifact twice, and a baseline of billed and unbilled Orders among them.
  ghost predicate Paged(ids: seq<string>, pages: seq<seq<Record>>, orders: seq<string>, invoices: seq<string>) {
    && |ids| == |pages| && (forall i, j :: 0 <= i < j < |ids| ==> ids[i] != ids[j])
    && (forall i :: 0 <= i < |pages| ==> 1 <= |pages[i]| <= 100 && Ascending(Keys(pages[i]), Itself))
    && 2 <= |AllRecords(pages)| <= 10000 && DistinctKeys(Keys(AllRecords(pages)), Itself)
    && Elements(invoices) <= Elements(orders) <= Elements(Keys(AllRecords(pages)))
  }

  // Each record carries an initial Order or invoice exactly if it is in the baseline.
  ghost predicate Baselined(pages: seq<seq<Record>>, orders: seq<string>, invoices: seq<string>) {
    forall i, j :: 0 <= i < |pages| && 0 <= j < |pages[i]| ==>
      && (pages[i][j].hasOrder <==> pages[i][j].sourceKey in orders)
      && (pages[i][j].hasInvoice <==> pages[i][j].sourceKey in invoices)
  }

  lemma PagedIsPinned(ids: seq<string>, pages: seq<seq<Record>>, orders: seq<string>, invoices: seq<string>)
    requires Paged(ids, pages, orders, invoices) && Baselined(pages, orders, invoices)
    ensures ManifestOk(Pin(ids, pages, orders, invoices)) && PagesOk(Pin(ids, pages, orders, invoices), pages)
  {
    var m := Pin(ids, pages, orders, invoices);
    PagesHoldPinnedKeys(m.pages, pages);
    assert |PinnedKeys(m.pages)| == |AllRecords(pages)|;
    assert forall i :: 0 <= i < |pages| ==> |m.pages[i].keys| == |pages[i]|;
    FewerPagesThanRecords(pages);
    assert pages == [] ==> AllRecords(pages) == [];
    assert forall i, j :: 0 <= i < j < |m.pages| ==> m.pages[i].artifactId != m.pages[j].artifactId;
  }

  lemma PinnedIsPaged(ids: seq<string>, pages: seq<seq<Record>>, orders: seq<string>, invoices: seq<string>)
    requires |ids| == |pages| && ManifestOk(Pin(ids, pages, orders, invoices)) && PagesOk(Pin(ids, pages, orders, invoices), pages)
    ensures Paged(ids, pages, orders, invoices) && Baselined(pages, orders, invoices)
  {
    var m := Pin(ids, pages, orders, invoices);
    PagesHoldPinnedKeys(m.pages, pages);
    assert |PinnedKeys(m.pages)| == |AllRecords(pages)|;
    forall i, j | 0 <= i < j < |ids| ensures ids[i] != ids[j] { assert m.pages[i].artifactId != m.pages[j].artifactId; }
    forall i | 0 <= i < |pages| ensures 1 <= |pages[i]| <= 100 && Ascending(Keys(pages[i]), Itself) { assert m.pages[i].keys == Keys(pages[i]); }
    forall i, j | 0 <= i < |pages| && 0 <= j < |pages[i]|
      ensures (pages[i][j].hasOrder <==> pages[i][j].sourceKey in orders) && (pages[i][j].hasInvoice <==> pages[i][j].sourceKey in invoices)
    {
      assert PageOk(m, i, pages[i]);
    }
  }

  /** Pages have an admissible manifest under which they pass exactly if they are such a fixture. */
  lemma PinnedIffPaged(ids: seq<string>, pages: seq<seq<Record>>, orders: seq<string>, invoices: seq<string>)
    requires |ids| == |pages|
    ensures ManifestOk(Pin(ids, pages, orders, invoices)) && PagesOk(Pin(ids, pages, orders, invoices), pages)
       <==> Paged(ids, pages, orders, invoices) && Baselined(pages, orders, invoices)
  {
    if Paged(ids, pages, orders, invoices) && Baselined(pages, orders, invoices) { PagedIsPinned(ids, pages, orders, invoices); }
    if ManifestOk(Pin(ids, pages, orders, invoices)) && PagesOk(Pin(ids, pages, orders, invoices), pages) {
      PinnedIsPaged(ids, pages, orders, invoices);
    }
  }

  lemma {:induction false} PagesShareNoKey(pages: seq<PageRef>, i: nat, j: nat, k: string)
    requires DistinctKeys(PinnedKeys(pages), Itself) && i < j < |pages|
    requires k in pages[i].keys
    ensures k !in pages[j].keys
    decreases |pages|
  {
    var keys, rest := PinnedKeys(pages), PinnedKeys(pages[1..]);
    assert forall a :: 0 <= a < |rest| ==> keys[|pages[0].keys| + a] == rest[a];
    if i > 0 {
      PagesShareNoKey(pages[1..], i - 1, j - 1, k);
    } else {
      var a :| 0 <= a < |pages[0].keys| && pages[0].keys[a] == k;
      forall b | 0 <= b < |rest| ensures rest[b] != k {
        assert keys[a] == k && keys[|pages[0].keys| + b] == rest[b];
      }
      UnpinnedKey(pages[1..], j - 1, k);
    }
  }

  lemma UnpinnedKey(pages: seq<PageRef>, j: nat, k: string)
    requires j < |pages| && k !in PinnedKeys(pages)
    ensures k !in pages[j].keys
  {
    if k in pages[j].keys {
      KeyIsPinned(pages, j, k);
    }
  }

  lemma {:induction false} KeyIsPinned(pages: seq<PageRef>, j: nat, k: string)
    requires j < |pages| && k in pages[j].keys
    ensures k in PinnedKeys(pages)
    decreases |pages|
  {
    if j > 0 { KeyIsPinned(pages[1..], j - 1, k); }
  }
}
