/**
 Freezing the candidates of one route: the plan reads every page of the source and keeps the
 trimmed identities in canonical order. The source may answer each read as it likes.
 */
module Candidates {
  import opened Basics
  import opened Ordering

  // `records` holds the raw identity of each record, None when the field is absent or null.
  datatype Page = Page(records: seq<Option<string>>, hasMore: bool, nextCursor: Option<string>)

  datatype Frozen =
    | Candidates(ids: seq<string>)
    | MissingIdentity
    | DuplicateIdentity
    | NotAdvancing

  // The n-th read of the run, at a cursor.
  type Source = (nat, Option<string>) -> Page

  // `str.strip`
  function Strip(s: string): (t: string)
    ensures t != "" ==> !IsSpace(t[0]) && !IsSpace(t[|t| - 1])
    ensures |t| <= |s|
    decreases |s|
  {
    if s == "" then ""
    else if IsSpace(s[0]) then Strip(s[1..])
    else if IsSpace(s[|s| - 1]) then Strip(s[..|s| - 1])
    else s
  }

  function Identity(raw: Option<string>): string {
    if raw.None? then "" else Strip(raw.value)
  }

  function Cursor(page: Page): string {
    if page.nextCursor.None? then "" else Strip(page.nextCursor.value)
  }

  // The trimmed identities of a run of pages, in reading order.
  function Identities(pages: seq<Page>): (ids: seq<string>) {
    if pages == [] then [] else Identities(pages[..|pages| - 1]) + PageIdentities(pages[|pages| - 1].records)
  }

  function PageIdentities(records: seq<Option<string>>): (ids: seq<string>)
    ensures |ids| == |records|
  {
    seq(|records|, i requires 0 <= i < |records| => Identity(records[i]))
  }

  // The cursor of the k-th read: none at first, then the one the page before announced.
  function CursorAt(pages: seq<Page>, k: nat): Option<string>
    requires k <= |pages|
  {
    if k == 0 then None else Some(Cursor(pages[k - 1]))
  }

  // pages[k] answers the k-th read.
  ghost predicate Reads(source: Source, pages: seq<Page>) {
    forall k :: 0 <= k < |pages| ==> pages[k] == source(k, CursorAt(pages, k))
  }

  ghost predicate CursorsFrom(source: Source, cursors: set<string>) {
    forall n, c :: Cursor(source(n, c)) in cursors
  }

  // Every page but the last announced another one, at a cursor that was not read before.
  ghost predicate Advances(pages: seq<Page>) {
    && (forall k :: 0 <= k < |pages| - 1 ==> pages[k].hasMore && Cursor(pages[k]) != "")
    && forall j, k :: 0 <= j < k < |pages| - 1 ==> Cursor(pages[j]) != Cursor(pages[k])
  }

  // The last page announces another one but names no cursor, or one that was already read.
  ghost predicate Stuck(pages: seq<Page>) {
    && |pages| > 0 && pages[|pages| - 1].hasMore
    && (|| Cursor(pages[|pages| - 1]) == ""
        || exists k :: 0 <= k < |pages| - 1 && Cursor(pages[k]) == Cursor(pages[|pages| - 1]))
  }

  ghost predicate NoneBlank(ids: seq<string>) {
    forall i :: 0 <= i < |ids| ==> ids[i] != ""
  }

  lemma OneMoreElement(ids: seq<string>, id: string)
    ensures Elements(ids + [id]) == Elements(ids) + {id}
  {
    forall x | x in Elements(ids) ensures x in Elements(ids + [id]) {
      var k :| 0 <= k < |ids| && ids[k] == x;
      assert (ids + [id])[k] == x;
    }
    assert (ids + [id])[|ids|] == id;
  }

  // One page: every record needs an identity that no earlier record has.
  method AddPage(records: seq<Option<string>>, candidates: seq<string>, seenIds: set<string>)
    returns (fault: Option<Frozen>, candidates': seq<string>, seenIds': set<string>)
    requires seenIds == Elements(candidates) && DistinctKeys(candidates, Itself) && NoneBlank(candidates)
    ensures fault.None? ==>
              && candidates' == candidates + PageIdentities(records) && seenIds' == Elements(candidates')
              && DistinctKeys(candidates', Itself) && NoneBlank(candidates')
    ensures fault.Some? ==>
              || (fault.value == MissingIdentity && !NoneBlank(candidates + PageIdentities(records)))
              || (fault.value == DuplicateIdentity && !DistinctKeys(candidates + PageIdentities(records), Itself))
  {
    var all := PageIdentities(records);
    candidates', seenIds' := candidates, seenIds;
    var i := 0;
    while i < |records|
      invariant 0 <= i <= |records|
      invariant candidates' == candidates + all[..i] && seenIds' == Elements(candidates')
      invariant DistinctKeys(candidates', Itself) && NoneBlank(candidates')
    {
      var identity := Identity(records[i]);
      assert (candidates + all)[|candidates| + i] == identity;
      if identity == "" {
        return Some(MissingIdentity), candidates', seenIds';
      }
      if identity in seenIds' {
        ghost var k :| 0 <= k < |candidates'| && candidates'[k] == identity;
        assert (candidates + all)[k] == identity;
        return Some(DuplicateIdentity), candidates', seenIds';
      }
      seenIds' := seenIds' + {identity};
      assert all[..i + 1] == all[..i] + [identity];
      ghost var before := candidates';
      candidates' := candidates' + [identity];
      OneMoreElement(before, identity);
      i := i + 1;
    }
    assert all[..i] == all;
    fault := None;
  }

  function CursorSet(pages: seq<Page>): set<string> {
    if pages == [] then {} else CursorSet(pages[..|pages| - 1]) + {Cursor(pages[|pages| - 1])}
  }

  // Every page so far announced another one, at a cursor no other page announced.
  ghost predicate Announced(pages: seq<Page>) {
    && (forall k :: 0 <= k < |pages| ==> pages[k].hasMore && Cursor(pages[k]) != "")
    && forall j, k :: 0 <= j < k < |pages| ==> Cursor(pages[j]) != Cursor(pages[k])
  }

  lemma {:induction false} InCursorSet(pages: seq<Page>, c: string)
    ensures c in CursorSet(pages) <==> exists k :: 0 <= k < |pages| && Cursor(pages[k]) == c
    decreases |pages|
  {
    if pages != [] {
      var front := pages[..|pages| - 1];
      InCursorSet(front, c);
      if c in CursorSet(front) {
        var k :| 0 <= k < |front| && Cursor(front[k]) == c;
        assert pages[k] == front[k];
      }
    }
  }

  lemma OneMoreRead(source: Source, pages: seq<Page>, cursor: Option<string>, page: Page)
    requires Reads(source, pages) && cursor == CursorAt(pages, |pages|) && page == source(|pages|, cursor)
    ensures Reads(source, pages + [page])
  {
    var more := pages + [page];
    forall k | 0 <= k < |more| ensures more[k] == source(k, CursorAt(more, k)) {
      assert CursorAt(more, k) == CursorAt(pages, k);
      assert more[k] == if k < |pages| then pages[k] else page;
    }
  }

  lemma IdentitiesOneMore(pages: seq<Page>, page: Page)
    ensures Identities(pages + [page]) == Identities(pages) + PageIdentities(page.records)
  {
    var more := pages + [page];
    assert more[..|more| - 1] == pages && more[|more| - 1] == page;
  }

  lemma OneMoreCursor(pages: seq<Page>, page: Page)
    requires Announced(pages)
    ensures Advances(pages + [page])
    ensures CursorSet(pages + [page]) == CursorSet(pages) + {Cursor(page)}
    ensures page.hasMore && (Cursor(page) == "" || Cursor(page) in CursorSet(pages)) ==> Stuck(pages + [page])
    ensures page.hasMore && Cursor(page) != "" && Cursor(page) !in CursorSet(pages) ==> Announced(pages + [page])
  {
    var more := pages + [page];
    assert more[..|pages|] == pages;
    assert forall k :: 0 <= k < |pages| ==> more[k] == pages[k];
    InCursorSet(pages, Cursor(page));
    if Cursor(page) in CursorSet(pages) {
      var k :| 0 <= k < |pages| && Cursor(pages[k]) == Cursor(page);
      assert more[k] == pages[k];
    }
  }

  /** On a source with finitely many cursors the loop ends and reads each cursor at most once. When
      it returns, the list is ascending, so sorted and free of duplicates, and holds exactly the
      identities of all pages up to one without a successor; otherwise it names what is wrong. */
  method CandidateIds(source: Source, ghost cursors: set<string>) returns (frozen: Frozen, pages: seq<Page>)
    requires CursorsFrom(source, cursors)
    ensures |pages| > 0 && Reads(source, pages) && Advances(pages)
    ensures frozen.Candidates? ==>
              && !pages[|pages| - 1].hasMore
              && Ascending(frozen.ids, Itself)
              && multiset(frozen.ids) == multiset(Identities(pages))
              && NoneBlank(frozen.ids)
    ensures frozen.MissingIdentity? ==> !NoneBlank(Identities(pages))
    ensures frozen.DuplicateIdentity? ==> !DistinctKeys(Identities(pages), Itself)
    ensures frozen.NotAdvancing? ==> Stuck(pages)
  {
    pages := [];
    var candidates: seq<string> := [];
    var seenIds: set<string> := {};
    var seenCursors: set<string> := {};
    var cursor: Option<string> := None;
    var calls := 0;
    while true
      invariant calls == |pages| && Reads(source, pages) && cursor == CursorAt(pages, |pages|)
      invariant Announced(pages) && seenCursors == CursorSet(pages) && seenCursors <= cursors
      invariant candidates == Identities(pages) && seenIds == Elements(candidates)
      invariant DistinctKeys(candidates, Itself) && NoneBlank(candidates)
      decreases cursors - seenCursors
    {
      var page := source(calls, cursor);
      OneMoreRead(source, pages, cursor, page);
      IdentitiesOneMore(pages, page);
      OneMoreCursor(pages, page);
      assert cursor.Some? ==> cursor.value in seenCursors;
      pages := pages + [page];
      var fault;
      fault, candidates, seenIds := AddPage(page.records, candidates, seenIds);
      if fault.Some? {
        return fault.value, pages;
      }
      if !page.hasMore {
        SortAscends(candidates, Itself);
        SortedNoneBlank(candidates);
        return Candidates(SortBy(candidates, Itself)), pages;
      }
      var next := Cursor(page);
      if next == "" || cursor == Some(next) || next in seenCursors {
        return NotAdvancing, pages;
      }
      assert next in cursors;
      seenCursors := seenCursors + {next};
      cursor := Some(next);
      calls := calls + 1;
    }
  }

  lemma SortedNoneBlank(ids: seq<string>)
    requires NoneBlank(ids)
    ensures NoneBlank(SortBy(ids, Itself))
  {
    var sorted := SortBy(ids, Itself);
    forall k | 0 <= k < |sorted| ensures sorted[k] != "" {
      assert sorted[k] in multiset(ids);
    }
  }

  /** The frozen list depends only on the set of identities: not on the batch size, the page
      boundaries or the order in which the source delivered them. */
  lemma FrozenListIsCanonical(ids: seq<string>, others: seq<string>)
    requires Ascending(ids, Itself) && Ascending(others, Itself) && Elements(ids) == Elements(others)
    ensures ids == others
  {
    forall x ensures multiset(ids)[x] == multiset(others)[x] {
      CountsAreMembership(ids, x);
      CountsAreMembership(others, x);
      assert x in ids <==> x in Elements(ids);
      assert x in others <==> x in Elements(others);
    }
    assert multiset(ids) == multiset(others);
    AscendingIsUnique(ids, others, Itself);
  }

  lemma CountsAreMembership(ids: seq<string>, x: string)
    requires Ascending(ids, Itself)
    ensures multiset(ids)[x] == if x in ids then 1 else 0
  {
    if x in ids {
      var a :| 0 <= a < |ids| && ids[a] == x;
      OnceWhenAscending(ids, a, Itself);
    }
  }

  /** Freezing twice, with any two paginations of the same records, approves the same list. */
  lemma SamePagesSameCandidates(pages: seq<Page>, others: seq<Page>, ids: seq<string>, otherIds: seq<string>)
    requires Elements(Identities(pages)) == Elements(Identities(others))
    requires Ascending(ids, Itself) && multiset(ids) == multiset(Identities(pages))
    requires Ascending(otherIds, Itself) && multiset(otherIds) == multiset(Identities(others))
    ensures ids == otherIds
  {
    SameElements(ids, Identities(pages));
    SameElements(otherIds, Identities(others));
    FrozenListIsCanonical(ids, otherIds);
  }

  lemma SameElements(a: seq<string>, b: seq<string>)
    requires multiset(a) == multiset(b)
    ensures Elements(a) == Elements(b)
  {
    forall x | x in Elements(a) ensures x in Elements(b) { assert x in multiset(b); }
    forall x | x in Elements(b) ensures x in Elements(a) { assert x in multiset(a); }
  }
}
