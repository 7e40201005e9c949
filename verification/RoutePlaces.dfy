/**
 Where a batch leaves each open route: at the record before the first one that has not arrived, at the
 next page, completed, or back at the first page. What is said here is said of the page that the source
 gave and of the marker and results after the whole batch.
 */
module RoutePlaces {
  import opened Basics
  import opened Ordering
  import opened MigrationRuns
  import opened RouteBatches
  import Candidates
  import Ledger

  // -- One page -------------------------------------------------------------------------------------------

  // Every approved record of the page has arrived.
  predicate PageArrived(run: string, r: Route, page: Page, after: Ledger.Pairs) {
    forall i :: 0 <= i < |page.identities| && page.identities[i] in r.candidates ==> Arrived(after, run, r, page.identities[i])
  }

  // The j-th record of the page is the first approved one that has not arrived.
  predicate FirstMissing(run: string, r: Route, page: Page, after: Ledger.Pairs, j: nat) {
    && j < |page.identities| && page.identities[j] in r.candidates && !Arrived(after, run, r, page.identities[j])
    && forall i :: 0 <= i < j && page.identities[i] in r.candidates ==> Arrived(after, run, r, page.identities[i])
  }

  // The i-th record is the last approved one before the j-th.
  predicate LastBefore(r: Route, page: Page, j: nat, i: nat)
    requires j <= |page.identities|
  {
    i < j && page.identities[i] in r.candidates && forall k :: i < k < j ==> page.identities[k] !in r.candidates
  }

  predicate NoneBefore(r: Route, page: Page, j: nat)
    requires j <= |page.identities|
  {
    forall k :: 0 <= k < j ==> page.identities[k] !in r.candidates
  }

  function SavedAt(checkpoints: map<string, string>, r: Route): Option<string> {
    if KeyOf(r) in checkpoints then Some(checkpoints[KeyOf(r)]) else None
  }

  // Where the route stands after a page that was read at the cursor.
  ghost predicate LeftAt(run: string, r: Route, cursor: Option<string>, page: Page, after: Ledger.Pairs, checkpoints: map<string, string>, completed: set<string>) {
    if !PageArrived(run, r, page, after) then
      && KeyOf(r) !in completed
      && forall j: nat :: FirstMissing(run, r, page, after, j) ==>
           && (forall i: nat :: LastBefore(r, page, j, i) ==> SavedAt(checkpoints, r) == Some(page.identities[i]))
           && (NoneBefore(r, page, j) ==> SavedAt(checkpoints, r) == cursor)
    else if page.hasMore && page.nextCursor != "" then
      KeyOf(r) !in completed && SavedAt(checkpoints, r) == Some(page.nextCursor)
    else
      (KeyOf(r) in completed <==> AllArrived(after, run, r)) && SavedAt(checkpoints, r) == None
  }

  lemma {:induction false} AmongSplits(xs: seq<string>, ys: seq<string>, candidates: seq<string>)
    ensures Among(xs + ys, candidates) == Among(xs, candidates) + Among(ys, candidates)
    decreases |xs|
  {
    if xs == [] {
      assert xs + ys == ys;
    } else {
      assert (xs + ys)[1..] == xs[1..] + ys;
      AmongSplits(xs[1..], ys, candidates);
    }
  }

  lemma {:induction false} NoneAmong(xs: seq<string>, candidates: seq<string>)
    requires forall i :: 0 <= i < |xs| ==> xs[i] !in candidates
    ensures Among(xs, candidates) == []
  {
    if xs != [] { NoneAmong(xs[1..], candidates); }
  }

  // An approved record of the page comes after the approved ones before it.
  lemma PlaceAmong(xs: seq<string>, candidates: seq<string>, j: nat)
    requires j < |xs| && xs[j] in candidates
    ensures var k := |Among(xs[..j], candidates)|;
            k < |Among(xs, candidates)| && Among(xs, candidates)[..k] == Among(xs[..j], candidates) && Among(xs, candidates)[k] == xs[j]
  {
    assert xs == xs[..j] + xs[j..];
    AmongSplits(xs[..j], xs[j..], candidates);
    assert xs[j..][0] == xs[j];
  }

  // The last approved record before a place.
  lemma LastAmong(xs: seq<string>, candidates: seq<string>, j: nat, i: nat)
    requires i < j <= |xs| && xs[i] in candidates && forall k :: i < k < j ==> xs[k] !in candidates
    ensures var before := Among(xs[..j], candidates); before != [] && before[|before| - 1] == xs[i]
  {
    assert xs[..j] == xs[..i] + ([xs[i]] + xs[i + 1..j]);
    AmongSplits(xs[..i], [xs[i]] + xs[i + 1..j], candidates);
    AmongSplits([xs[i]], xs[i + 1..j], candidates);
    NoneAmong(xs[i + 1..j], candidates);
    assert [xs[i]][1..] == [];
    assert Among([xs[i]], candidates) == [xs[i]];
  }

  // How far a page got: its first k approved records have arrived, the next has not.
  predicate GotTo(run: string, r: Route, page: Page, after: Ledger.Pairs, k: nat) {
    var ids := Among(page.identities, r.candidates);
    && k <= |ids| && (forall j :: 0 <= j < k ==> Arrived(after, run, r, ids[j])) && (k < |ids| ==> !Arrived(after, run, r, ids[k]))
  }

  // The record before the place that was got to.
  function PlaceOf(r: Route, page: Page, cursor: Option<string>, k: nat): Option<string>
    requires k <= |Among(page.identities, r.candidates)|
  {
    if k == 0 then cursor else Some(Among(page.identities, r.candidates)[k - 1])
  }

  lemma PageEndsAtPlace(n: nat, outside: Outside, run: string, r: Route, cursor: Option<string>, page: Page, before: Ledger.Pairs, pass: Pass) returns (k: nat)
    requires KeyOf(r) !in pass.completed && KeyOf(r) !in pass.checkpoints
    ensures var left := TakePage(n, outside, run, r, cursor, page, before, pass);
            var after := Wrote(before, run, Writes(n, outside, run, r, Among(page.identities, r.candidates), before));
            && GotTo(run, r, page, after, k)
            && (if k < |Among(page.identities, r.candidates)| then
                  KeyOf(r) !in left.completed && left.hasMore && SavedAt(left.checkpoints, r) == PlaceOf(r, page, cursor, k)
                else if page.hasMore && page.nextCursor != "" then
                  KeyOf(r) !in left.completed && left.hasMore && SavedAt(left.checkpoints, r) == Some(page.nextCursor)
                else
                  && (KeyOf(r) in left.completed <==> AllArrived(after, run, r)) && SavedAt(left.checkpoints, r) == None
                  && (KeyOf(r) !in left.completed ==> left.hasMore))
  {
    k := FailedPageKeepsItsPlace(n, outside, run, r, Among(page.identities, r.candidates), cursor, before);
  }

  /** After a page on which some approved record has not arrived the route stays open, and its checkpoint
      is the approved record before the first such one, or the cursor the page was read at if there is
      none before; otherwise it is the next page, or none, and the route is completed exactly if there is
      no next page and every candidate has arrived. */
  lemma PageLeavesRoute(n: nat, outside: Outside, run: string, r: Route, cursor: Option<string>, page: Page, before: Ledger.Pairs, pass: Pass)
    requires KeyOf(r) !in pass.completed && KeyOf(r) !in pass.checkpoints
    ensures var left := TakePage(n, outside, run, r, cursor, page, before, pass);
            var after := Wrote(before, run, Writes(n, outside, run, r, Among(page.identities, r.candidates), before));
            LeftAt(run, r, cursor, page, after, left.checkpoints, left.completed) && (KeyOf(r) !in left.completed ==> left.hasMore)
  {
    var left := TakePage(n, outside, run, r, cursor, page, before, pass);
    var after := Wrote(before, run, Writes(n, outside, run, r, Among(page.identities, r.candidates), before));
    var k := PageEndsAtPlace(n, outside, run, r, cursor, page, before, pass);
    PlaceLeavesRoute(run, r, cursor, page, after, left.checkpoints, left.completed, k);
  }

  lemma PlaceLeavesRoute(run: string, r: Route, cursor: Option<string>, page: Page, after: Ledger.Pairs, checkpoints: map<string, string>, completed: set<string>, k: nat)
    requires GotTo(run, r, page, after, k)
    requires if k < |Among(page.identities, r.candidates)| then KeyOf(r) !in completed && SavedAt(checkpoints, r) == PlaceOf(r, page, cursor, k)
             else if page.hasMore && page.nextCursor != "" then KeyOf(r) !in completed && SavedAt(checkpoints, r) == Some(page.nextCursor)
             else (KeyOf(r) in completed <==> AllArrived(after, run, r)) && SavedAt(checkpoints, r) == None
    ensures LeftAt(run, r, cursor, page, after, checkpoints, completed)
  {
    ArrivedIffNoneFails(run, r, page, after, k);
    if !PageArrived(run, r, page, after) {
      forall j: nat | FirstMissing(run, r, page, after, j)
        ensures forall i: nat :: LastBefore(r, page, j, i) ==> PlaceOf(r, page, cursor, k) == Some(page.identities[i])
        ensures NoneBefore(r, page, j) ==> PlaceOf(r, page, cursor, k) == cursor
      {
        forall i: nat | LastBefore(r, page, j, i) ensures PlaceOf(r, page, cursor, k) == Some(page.identities[i]) {
          PlaceAfterRecord(run, r, page, cursor, after, j, k, i);
        }
        if NoneBefore(r, page, j) { PlaceAtCursor(run, r, page, cursor, after, j, k); }
      }
    }
  }

  lemma ArrivedIffNoneFails(run: string, r: Route, page: Page, after: Ledger.Pairs, k: nat)
    requires GotTo(run, r, page, after, k)
    ensures PageArrived(run, r, page, after) <==> k == |Among(page.identities, r.candidates)|
  {
    var ids := Among(page.identities, r.candidates);
    if k == |ids| {
      forall i | 0 <= i < |page.identities| && page.identities[i] in r.candidates ensures Arrived(after, run, r, page.identities[i]) {
        assert page.identities[i] in ids;
        var j :| 0 <= j < |ids| && ids[j] == page.identities[i];
      }
    } else {
      assert ids[k] in page.identities && ids[k] in r.candidates;
      var i :| 0 <= i < |page.identities| && page.identities[i] == ids[k];
    }
  }

  lemma PlaceIsBeforeMissing(run: string, r: Route, page: Page, after: Ledger.Pairs, j: nat, k: nat)
    requires FirstMissing(run, r, page, after, j) && GotTo(run, r, page, after, k)
    ensures var ids, front := Among(page.identities, r.candidates), Among(page.identities[..j], r.candidates);
            k == |front| && k < |ids| && ids[..k] == front
  {
    var ids, front := Among(page.identities, r.candidates), Among(page.identities[..j], r.candidates);
    PlaceAmong(page.identities, r.candidates, j);
    forall i | 0 <= i < |front| ensures Arrived(after, run, r, ids[i]) {
      assert front[i] in page.identities[..j] && ids[..|front|][i] == ids[i];
      var m :| 0 <= m < j && page.identities[..j][m] == ids[i];
    }
  }

  lemma PlaceAfterRecord(run: string, r: Route, page: Page, cursor: Option<string>, after: Ledger.Pairs, j: nat, k: nat, i: nat)
    requires FirstMissing(run, r, page, after, j) && GotTo(run, r, page, after, k) && LastBefore(r, page, j, i)
    ensures PlaceOf(r, page, cursor, k) == Some(page.identities[i])
  {
    PlaceIsBeforeMissing(run, r, page, after, j, k);
    LastOfFront(page.identities, r.candidates, j, i);
  }

  lemma PlaceAtCursor(run: string, r: Route, page: Page, cursor: Option<string>, after: Ledger.Pairs, j: nat, k: nat)
    requires FirstMissing(run, r, page, after, j) && GotTo(run, r, page, after, k) && NoneBefore(r, page, j)
    ensures PlaceOf(r, page, cursor, k) == cursor
  {
    PlaceIsBeforeMissing(run, r, page, after, j, k);
    NoneAmong(page.identities[..j], r.candidates);
  }

  lemma LastOfFront(xs: seq<string>, candidates: seq<string>, j: nat, i: nat)
    requires i < j < |xs| && xs[j] in candidates && xs[i] in candidates && forall k :: i < k < j ==> xs[k] !in candidates
    ensures var k := |Among(xs[..j], candidates)|; 0 < k < |Among(xs, candidates)| && Among(xs, candidates)[k - 1] == xs[i]
  {
    LastAmong(xs, candidates, j, i);
    PlaceAmong(xs, candidates, j);
    var k := |Among(xs[..j], candidates)|;
    assert Among(xs, candidates)[..k][k - 1] == Among(xs[..j], candidates)[k - 1];
  }

  // A page that is not all there has a first record that is missing.
  lemma SomeFirstMissing(run: string, r: Route, page: Page, after: Ledger.Pairs) returns (j: nat)
    requires !PageArrived(run, r, page, after)
    ensures FirstMissing(run, r, page, after, j)
  {
    j := 0;
    while !(page.identities[j] in r.candidates && !Arrived(after, run, r, page.identities[j]))
      invariant j < |page.identities|
      invariant forall i :: 0 <= i < j && page.identities[i] in r.candidates ==> Arrived(after, run, r, page.identities[i])
      decreases |page.identities| - j
    {
      j := j + 1;
    }
  }

  // -- Which records a page brings ------------------------------------------------------------------------

  // The destination takes the record at one of its places among the approved records of the page.
  ghost predicate Accepted(n: nat, outside: Outside, r: Route, page: Page, id: string) {
    var ids := Among(page.identities, r.candidates);
    exists k: nat :: k < |ids| && ids[k] == id && Ledger.Terminal(outside.write(n, r, k, id).status)
  }

  // A candidate has arrived after the page exactly if it had before or is on the page and was taken.
  ghost predicate Brings(n: nat, outside: Outside, run: string, r: Route, page: Page, before: Ledger.Pairs, after: Ledger.Pairs) {
    forall i :: 0 <= i < |r.candidates| ==>
      (Arrived(after, run, r, r.candidates[i]) <==> Arrived(before, run, r, r.candidates[i]) || Accepted(n, outside, r, page, r.candidates[i]))
  }

  lemma {:induction false} BroughtWasTaken(n: nat, outside: Outside, run: string, r: Route, ids: seq<string>, results: Ledger.Pairs, id: string) returns (k: nat)
    requires Brought(Writes(n, outside, run, r, ids, results), r, id)
    ensures k < |ids| && ids[k] == id && Ledger.Terminal(outside.write(n, r, k, id).status)
    decreases |ids|
  {
    var last := |ids| - 1;
    var writes, before := Writes(n, outside, run, r, ids, results), Writes(n, outside, run, r, ids[..last], results);
    var i :| 0 <= i < |writes| && RouteBatches.Brings(writes[i], r, id);
    if i < |before| {
      assert RouteBatches.Brings(before[i], r, id);
      k := BroughtWasTaken(n, outside, run, r, ids[..last], results, id);
    } else {
      k := last;
    }
  }

  lemma PageBrings(n: nat, outside: Outside, run: string, r: Route, page: Page, before: Ledger.Pairs)
    ensures Brings(n, outside, run, r, page, before, Wrote(before, run, Writes(n, outside, run, r, Among(page.identities, r.candidates), before)))
  {
    var ids := Among(page.identities, r.candidates);
    var writes := Writes(n, outside, run, r, ids, before);
    forall i | 0 <= i < |r.candidates|
      ensures Arrived(Wrote(before, run, writes), run, r, r.candidates[i]) <==> Arrived(before, run, r, r.candidates[i]) || Accepted(n, outside, r, page, r.candidates[i])
    {
      var id := r.candidates[i];
      ArrivesIffBrought(before, run, writes, r, id);
      if Brought(writes, r, id) {
        var k := BroughtWasTaken(n, outside, run, r, ids, before, id);
      }
      if Accepted(n, outside, r, page, id) && !Arrived(before, run, r, id) {
        var k: nat :| k < |ids| && ids[k] == id && Ledger.Terminal(outside.write(n, r, k, id).status);
        WriteBrings(n, outside, run, r, ids, before, k);
      }
    }
  }

  // -- The whole batch ------------------------------------------------------------------------------------

  // What a batch leaves of a route.
  ghost predicate Left(n: nat, outside: Outside, run: string, r: Route, cursor: Option<string>, page: Page, results: Ledger.Pairs, after: Ledger.Pairs, checkpoints: map<string, string>, completed: set<string>) {
    LeftAt(run, r, cursor, page, after, checkpoints, completed) && Brings(n, outside, run, r, page, results, after)
  }

  // Two results say the same of a route's records.
  ghost predicate Alike(run: string, r: Route, a: Ledger.Pairs, b: Ledger.Pairs) {
    forall id :: Arrived(a, run, r, id) <==> Arrived(b, run, r, id)
  }

  lemma OthersAlike(run: string, r: Route, s: Route, results: Ledger.Pairs, before: Pass, after: Pass)
    requires OnlyOf(s, before, after) && KeyOf(r) != KeyOf(s)
    ensures Alike(run, r, Wrote(results, run, before.written), Wrote(results, run, after.written))
    ensures SavedAt(after.checkpoints, r) == SavedAt(before.checkpoints, r) && (KeyOf(r) in after.completed <==> KeyOf(r) in before.completed)
  {
    var extra := after.written[|before.written|..];
    assert after.written == before.written + extra;
    WroteAppends(results, run, before.written, extra);
    forall id ensures Arrived(Wrote(results, run, after.written), run, r, id) <==> Arrived(Wrote(results, run, before.written), run, r, id) {
      ArrivesIffBrought(Wrote(results, run, before.written), run, extra, r, id);
      assert forall j :: 0 <= j < |extra| ==> For(extra[j], s) && !RouteBatches.Brings(extra[j], r, id);
    }
  }

  lemma LeftAlike(n: nat, outside: Outside, run: string, r: Route, cursor: Option<string>, page: Page, results: Ledger.Pairs, a: Ledger.Pairs, b: Ledger.Pairs,
                  checkpoints: map<string, string>, completed: set<string>, later: map<string, string>, done: set<string>)
    requires Left(n, outside, run, r, cursor, page, results, a, checkpoints, completed) && Alike(run, r, a, b)
    requires SavedAt(later, r) == SavedAt(checkpoints, r) && (KeyOf(r) in done <==> KeyOf(r) in completed)
    ensures Left(n, outside, run, r, cursor, page, results, b, later, done)
  {
    forall j: nat | FirstMissing(run, r, page, b, j) ensures FirstMissing(run, r, page, a, j) {
    }
  }

  // What the routes before it leave of a route.
  ghost predicate Untouched(run: string, r: Route, done: set<string>, results: Ledger.Pairs, pass: Pass) {
    SavedAt(pass.checkpoints, r) == None && (KeyOf(r) in pass.completed <==> KeyOf(r) in done) && Alike(run, r, results, Wrote(results, run, pass.written))
  }

  lemma {:induction false} OthersComeFirst(n: nat, outside: Outside, run: string, routes: seq<Route>, saved: map<string, string>, done: set<string>, results: Ledger.Pairs, r: Route)
    requires forall s :: s in routes ==> KeyOf(s) != KeyOf(r)
    ensures Untouched(run, r, done, results, RunRoutes(n, outside, run, routes, saved, results, Pass(map[], done, false, [])).0)
    decreases |routes|
  {
    if routes != [] {
      var last := |routes| - 1;
      OthersComeFirst(n, outside, run, routes[..last], saved, done, results, r);
      var (before, stopped) := RunRoutes(n, outside, run, routes[..last], saved, results, Pass(map[], done, false, []));
      var after := RunRoute(n, outside, run, routes[last], saved, results, before);
      RouteTouchesOne(n, outside, run, routes[last], saved, results, before);
      if !stopped && after.Some? { OthersAlike(run, r, routes[last], results, before, after.value); }
    }
  }

  lemma BringsAlike(n: nat, outside: Outside, run: string, r: Route, page: Page, results: Ledger.Pairs, now: Ledger.Pairs, after: Ledger.Pairs)
    requires Brings(n, outside, run, r, page, now, after) && Alike(run, r, results, now)
    ensures Brings(n, outside, run, r, page, results, after)
  {
  }

  // The route itself, met untouched.
  lemma MetRoute(n: nat, outside: Outside, run: string, r: Route, saved: map<string, string>, done: set<string>, results: Ledger.Pairs, before: Pass, page: Page)
    requires Untouched(run, r, done, results, before) && KeyOf(r) !in done && r.candidates != []
    requires outside.read(n, r, ReadAt(saved, r)) == Some(page)
    ensures var after := RunRoute(n, outside, run, r, saved, results, before);
            && after.Some? && (KeyOf(r) !in after.value.completed ==> after.value.hasMore)
            && Left(n, outside, run, r, ReadAt(saved, r), page, results, Wrote(results, run, after.value.written), after.value.checkpoints, after.value.completed)
  {
    var now := Wrote(results, run, before.written);
    var writes := Writes(n, outside, run, r, Among(page.identities, r.candidates), now);
    PageLeavesRoute(n, outside, run, r, ReadAt(saved, r), page, now, before);
    PageBrings(n, outside, run, r, page, now);
    BringsAlike(n, outside, run, r, page, results, now, Wrote(now, run, writes));
    WroteAppends(results, run, before.written, writes);
    var left := TakePage(n, outside, run, r, ReadAt(saved, r), page, now, before);
    assert left.written == before.written + writes;
    assert RunRoute(n, outside, run, r, saved, results, before) == Some(left);
  }

  lemma {:induction false} RoutesLeave(n: nat, outside: Outside, run: string, routes: seq<Route>, saved: map<string, string>, done: set<string>, results: Ledger.Pairs, r: Route, page: Page)
    requires DistinctKeys(routes, KeyOf) && r in routes && KeyOf(r) !in done && r.candidates != []
    requires outside.read(n, r, ReadAt(saved, r)) == Some(page)
    ensures var (pass, stopped) := RunRoutes(n, outside, run, routes, saved, results, Pass(map[], done, false, []));
            !stopped ==>
              && (KeyOf(r) !in pass.completed ==> pass.hasMore)
              && Left(n, outside, run, r, ReadAt(saved, r), page, results, Wrote(results, run, pass.written), pass.checkpoints, pass.completed)
    decreases |routes|
  {
    var last := |routes| - 1;
    LastIsDistinct(routes);
    var (before, stopped) := RunRoutes(n, outside, run, routes[..last], saved, results, Pass(map[], done, false, []));
    if routes[last] == r {
      OthersComeFirst(n, outside, run, routes[..last], saved, done, results, r);
      MetRoute(n, outside, run, r, saved, done, results, before, page);
    } else {
      assert routes == routes[..last] + [routes[last]];
      RoutesLeave(n, outside, run, routes[..last], saved, done, results, r, page);
      if !stopped { PassedRoute(n, outside, run, routes[last], saved, results, before, r, page); }
    }
  }

  // A later route leaves what an earlier one was left at.
  lemma PassedRoute(n: nat, outside: Outside, run: string, s: Route, saved: map<string, string>, results: Ledger.Pairs, before: Pass, r: Route, page: Page)
    requires KeyOf(s) != KeyOf(r) && (KeyOf(r) !in before.completed ==> before.hasMore)
    requires Left(n, outside, run, r, ReadAt(saved, r), page, results, Wrote(results, run, before.written), before.checkpoints, before.completed)
    ensures var after := RunRoute(n, outside, run, s, saved, results, before);
            after.Some? ==>
              && (KeyOf(r) !in after.value.completed ==> after.value.hasMore)
              && Left(n, outside, run, r, ReadAt(saved, r), page, results, Wrote(results, run, after.value.written), after.value.checkpoints, after.value.completed)
  {
    var after := RunRoute(n, outside, run, s, saved, results, before);
    RouteTouchesOne(n, outside, run, s, saved, results, before);
    RouteKeeps(n, outside, run, s, saved, results, before);
    if after.Some? {
      OthersAlike(run, r, s, results, before, after.value);
      LeftAlike(n, outside, run, r, ReadAt(saved, r), page, results, Wrote(results, run, before.written), Wrote(results, run, after.value.written),
                before.checkpoints, before.completed, after.value.checkpoints, after.value.completed);
    }
  }

  /** After a batch whose reads succeed, every route it found open has brought exactly the approved records
      of its page that the destination takes, and is left as its page says: kept at the record before the
      first approved one that has not arrived, moved to the next page, or completed if all candidates
      have arrived. */
  lemma BatchLeavesRoute(n: nat, outside: Outside, run: string, approved: Approved, m: Marker, results: Ledger.Pairs, r: Route, page: Page)
    requires DistinctKeys(approved, KeyOf) && r in approved && KeyOf(r) !in m.completedRoutes && r.candidates != []
    requires outside.read(n, r, ReadAt(m.checkpoints, r)) == Some(page)
    ensures var outcome := RunBatch(n, outside, run, approved, m, results);
            outcome.Batch? ==>
              && (KeyOf(r) !in outcome.marker.completedRoutes ==> outcome.hasMore)
              && Left(n, outside, run, r, ReadAt(m.checkpoints, r), page, results, Wrote(results, run, outcome.written),
                      outcome.marker.checkpoints, outcome.marker.completedRoutes)
  {
    RoutesLeave(n, outside, run, approved, m.checkpoints, m.completedRoutes, results, r, page);
  }

  /** The next batch reads on from the failure: at the approved record before the first one that has not
      arrived, so that the failed record is met again. */
  lemma NextReadIsBeforeTheFailure(n: nat, outside: Outside, run: string, approved: Approved, m: Marker, results: Ledger.Pairs, r: Route, page: Page, j: nat, i: nat)
    requires DistinctKeys(approved, KeyOf) && r in approved && KeyOf(r) !in m.completedRoutes && r.candidates != []
    requires outside.read(n, r, ReadAt(m.checkpoints, r)) == Some(page) && RunBatch(n, outside, run, approved, m, results).Batch?
    requires FirstMissing(run, r, page, Wrote(results, run, RunBatch(n, outside, run, approved, m, results).written), j) && LastBefore(r, page, j, i)
    requires page.identities[i] != "" && Candidates.Strip(page.identities[i]) == page.identities[i]
    ensures var outcome := RunBatch(n, outside, run, approved, m, results);
            && outcome.hasMore && KeyOf(r) !in outcome.marker.completedRoutes
            && ReadAt(outcome.marker.checkpoints, r) == Some(page.identities[i])
  {
    BatchLeavesRoute(n, outside, run, approved, m, results, r, page);
  }

  // The route is open and its page cannot be read.
  predicate Unreadable(n: nat, outside: Outside, m: Marker, r: Route) {
    KeyOf(r) !in m.completedRoutes && r.candidates != [] && outside.read(n, r, ReadAt(m.checkpoints, r)) == None
  }

  ghost predicate SomeUnreadable(n: nat, outside: Outside, m: Marker, routes: seq<Route>) {
    exists i :: 0 <= i < |routes| && Unreadable(n, outside, m, routes[i])
  }

  lemma UnreadableSplits(n: nat, outside: Outside, m: Marker, some: seq<Route>, r: Route)
    ensures SomeUnreadable(n, outside, m, some + [r]) <==> SomeUnreadable(n, outside, m, some) || Unreadable(n, outside, m, r)
  {
    if SomeUnreadable(n, outside, m, some) {
      var i :| 0 <= i < |some| && Unreadable(n, outside, m, some[i]);
      assert Unreadable(n, outside, m, (some + [r])[i]);
    }
    if Unreadable(n, outside, m, r) { assert Unreadable(n, outside, m, (some + [r])[|some|]); }
  }

  lemma {:induction false} StopsAtUnreadable(n: nat, outside: Outside, run: string, routes: seq<Route>, m: Marker, results: Ledger.Pairs)
    requires DistinctKeys(routes, KeyOf)
    ensures RunRoutes(n, outside, run, routes, m.checkpoints, results, Pass(map[], m.completedRoutes, false, [])).1
       <==> SomeUnreadable(n, outside, m, routes)
    decreases |routes|
  {
    if routes != [] {
      var last := |routes| - 1;
      LastIsDistinct(routes);
      assert routes == routes[..last] + [routes[last]];
      StopsAtUnreadable(n, outside, run, routes[..last], m, results);
      OthersComeFirst(n, outside, run, routes[..last], m.checkpoints, m.completedRoutes, results, routes[last]);
      UnreadableSplits(n, outside, m, routes[..last], routes[last]);
    }
  }

  /** A batch fails exactly if the page of some open route cannot be read, and then no checkpoint moves. */
  lemma BatchFailsIffUnreadable(n: nat, outside: Outside, run: string, approved: Approved, m: Marker, results: Ledger.Pairs)
    requires DistinctKeys(approved, KeyOf)
    ensures var outcome := RunBatch(n, outside, run, approved, m, results);
            && (outcome.Fault? <==> SomeUnreadable(n, outside, m, approved))
            && (outcome.Fault? ==> outcome.marker.checkpoints == m.checkpoints)
  {
    StopsAtUnreadable(n, outside, run, approved, m, results);
  }

  lemma {:induction false} RoutesLeaveClosed(n: nat, outside: Outside, run: string, routes: seq<Route>, saved: map<string, string>, done: set<string>, results: Ledger.Pairs, r: Route)
    requires DistinctKeys(routes, KeyOf) && r in routes && (KeyOf(r) in done || r.candidates == [])
    ensures var (pass, stopped) := RunRoutes(n, outside, run, routes, saved, results, Pass(map[], done, false, []));
            !stopped ==> KeyOf(r) in pass.completed && SavedAt(pass.checkpoints, r) == None && Alike(run, r, results, Wrote(results, run, pass.written))
    decreases |routes|
  {
    var last := |routes| - 1;
    LastIsDistinct(routes);
    var (before, stopped) := RunRoutes(n, outside, run, routes[..last], saved, results, Pass(map[], done, false, []));
    if routes[last] == r {
      OthersComeFirst(n, outside, run, routes[..last], saved, done, results, r);
    } else {
      assert routes == routes[..last] + [routes[last]];
      RoutesLeaveClosed(n, outside, run, routes[..last], saved, done, results, r);
      var after := RunRoute(n, outside, run, routes[last], saved, results, before);
      RouteTouchesOne(n, outside, run, routes[last], saved, results, before);
      if !stopped && after.Some? { OthersAlike(run, r, routes[last], results, before, after.value); }
    }
  }

  /** A route that is completed, or has no candidates, is completed after the batch, and nothing of it is read or brought. */
  lemma ClosedRoutesRest(n: nat, outside: Outside, run: string, approved: Approved, m: Marker, results: Ledger.Pairs, r: Route)
    requires DistinctKeys(approved, KeyOf) && r in approved && (KeyOf(r) in m.completedRoutes || r.candidates == [])
    ensures var outcome := RunBatch(n, outside, run, approved, m, results);
            outcome.Batch? ==>
              && KeyOf(r) in outcome.marker.completedRoutes && KeyOf(r) !in outcome.marker.checkpoints
              && Alike(run, r, results, Wrote(results, run, outcome.written))
  {
    RoutesLeaveClosed(n, outside, run, approved, m.checkpoints, m.completedRoutes, results, r);
  }

  // What the destination answered for an approved record of the page of an open route.
  ghost predicate Answered(n: nat, outside: Outside, m: Marker, approved: Approved, w: Written) {
    exists r :: r in approved && KeyOf(r) !in m.completedRoutes && AnsweredFor(n, outside, m, r, w)
  }

  ghost predicate AnsweredFor(n: nat, outside: Outside, m: Marker, r: Route, w: Written) {
    var page := outside.read(n, r, ReadAt(m.checkpoints, r));
    && page.Some?
    && var ids := Among(page.value.identities, r.candidates);
       exists k: nat :: k < |ids| && w == Written(r.from, r.to, Ledger.Entry(ids[k], outside.write(n, r, k, ids[k])))
  }

  lemma {:induction false} WritesAreAnswers(n: nat, outside: Outside, run: string, r: Route, ids: seq<string>, results: Ledger.Pairs, w: Written) returns (k: nat)
    requires w in Writes(n, outside, run, r, ids, results)
    ensures k < |ids| && w == Written(r.from, r.to, Ledger.Entry(ids[k], outside.write(n, r, k, ids[k])))
    decreases |ids|
  {
    var last := |ids| - 1;
    if w in Writes(n, outside, run, r, ids[..last], results) {
      k := WritesAreAnswers(n, outside, run, r, ids[..last], results, w);
    } else {
      k := last;
    }
  }

  lemma {:induction false} RoutesWriteAnswers(n: nat, outside: Outside, run: string, routes: seq<Route>, m: Marker, results: Ledger.Pairs, w: Written)
    requires DistinctKeys(routes, KeyOf)
    requires w in RunRoutes(n, outside, run, routes, m.checkpoints, results, Pass(map[], m.completedRoutes, false, [])).0.written
    ensures Answered(n, outside, m, routes, w)
    decreases |routes|
  {
    if routes != [] {
      var last := |routes| - 1;
      var r := routes[last];
      LastIsDistinct(routes);
      var (before, stopped) := RunRoutes(n, outside, run, routes[..last], m.checkpoints, results, Pass(map[], m.completedRoutes, false, []));
      if w in before.written {
        RoutesWriteAnswers(n, outside, run, routes[..last], m, results, w);
        var s :| s in routes[..last] && KeyOf(s) !in m.completedRoutes && AnsweredFor(n, outside, m, s, w);
        assert s in routes;
      } else {
        OthersComeFirst(n, outside, run, routes[..last], m.checkpoints, m.completedRoutes, results, r);
        RouteWritesAnswers(n, outside, run, r, m, results, before, w);
      }
    }
  }

  lemma RouteWritesAnswers(n: nat, outside: Outside, run: string, r: Route, m: Marker, results: Ledger.Pairs, before: Pass, w: Written)
    requires RunRoute(n, outside, run, r, m.checkpoints, results, before).Some? && w !in before.written
    requires w in RunRoute(n, outside, run, r, m.checkpoints, results, before).value.written
    ensures KeyOf(r) !in before.completed && AnsweredFor(n, outside, m, r, w)
  {
    var page := outside.read(n, r, ReadAt(m.checkpoints, r));
    assert KeyOf(r) !in before.completed && r.candidates != [] && page.Some?;
    var now, ids := Wrote(results, run, before.written), Among(page.value.identities, r.candidates);
    PageWrites(n, outside, run, r, ReadAt(m.checkpoints, r), page.value, now, before);
    assert w in Writes(n, outside, run, r, ids, now);
    var k := WritesAreAnswers(n, outside, run, r, ids, now, w);
  }

  lemma PageWrites(n: nat, outside: Outside, run: string, r: Route, cursor: Option<string>, page: Page, before: Ledger.Pairs, pass: Pass)
    ensures TakePage(n, outside, run, r, cursor, page, before, pass).written
         == pass.written + Writes(n, outside, run, r, Among(page.identities, r.candidates), before)
  {
  }

  /** Every result of a batch is what the destination answered for that record, of a page of an open route. */
  lemma BatchWritesAnswers(n: nat, outside: Outside, run: string, approved: Approved, m: Marker, results: Ledger.Pairs, w: Written)
    requires DistinctKeys(approved, KeyOf) && w in RunBatch(n, outside, run, approved, m, results).written
    ensures Answered(n, outside, m, approved, w)
  {
    RoutesWriteAnswers(n, outside, run, approved, m, results, w);
  }
}
