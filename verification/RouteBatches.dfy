/**
 One batch of an apply, `run_batch` under an exact scope: a page of every open route, cut down to the
 approved candidates, written, and recorded in the results; a route completes once the results hold a
 terminal row for every candidate. The source and the destination answer as they like.
 */
module RouteBatches {
  import opened Basics
  import opened Ordering
  import opened MigrationRuns
  import Candidates
  import Ledger

  // The trimmed identity of each record, and the cursor of the next page or "".
  datatype Page = Page(identities: seq<string>, hasMore: bool, nextCursor: string)

  datatype Outside = Outside(
    read: (nat, Route, Option<string>) -> Option<Page>,      // None: the read fails
    write: (nat, Route, nat, string) -> Ledger.Row)          // the i-th record that the n-th batch takes from a page

  // A batch on its way through the routes.
  datatype Pass = Pass(checkpoints: map<string, string>, completed: set<string>, hasMore: bool, written: seq<Written>)

  // Where a route is read next; older snapshots keep a cursor under the object name.
  function ReadAt(saved: map<string, string>, r: Route): Option<string> {
    var raw := if KeyOf(r) in saved && saved[KeyOf(r)] != "" then saved[KeyOf(r)] else if r.from in saved then saved[r.from] else "";
    CursorOf(raw)
  }

  function CursorOf(raw: string): Option<string> {
    if Candidates.Strip(raw) == "" then None else Some(Candidates.Strip(raw))
  }

  // The record has a terminal row.
  predicate Arrived(results: Ledger.Pairs, run: string, r: Route, id: string) {
    var key := Ledger.PairKey(run, r.from, r.to, id);
    key in results && Ledger.Terminal(results[key].status)
  }

  predicate AllArrived(results: Ledger.Pairs, run: string, r: Route) {
    forall i :: 0 <= i < |r.candidates| ==> Arrived(results, run, r, r.candidates[i])
  }

  // The approved records of a page.
  function Among(identities: seq<string>, candidates: seq<string>): (ids: seq<string>)
    ensures forall i :: 0 <= i < |ids| ==> ids[i] in candidates && ids[i] in identities
    ensures forall id :: id in identities && id in candidates ==> id in ids
  {
    if identities == [] then [] else
    (if identities[0] in candidates then [identities[0]] else []) + Among(identities[1..], candidates)
  }

  // What is written for the records that have no terminal row yet.
  function Writes(n: nat, outside: Outside, run: string, r: Route, ids: seq<string>, results: Ledger.Pairs): seq<Written> {
    if ids == [] then [] else
    var last := |ids| - 1;
    Writes(n, outside, run, r, ids[..last], results)
    + if Arrived(results, run, r, ids[last]) then []
      else [Written(r.from, r.to, Ledger.Entry(ids[last], outside.write(n, r, last, ids[last])))]
  }

  // A failed write counts as failed unless the results know better.
  predicate Fails(n: nat, outside: Outside, run: string, r: Route, ids: seq<string>, i: nat, before: Ledger.Pairs, after: Ledger.Pairs)
    requires i < |ids|
  {
    !Arrived(before, run, r, ids[i]) && outside.write(n, r, i, ids[i]).status.Failed? && !Arrived(after, run, r, ids[i])
  }

  predicate AnyFails(n: nat, outside: Outside, run: string, r: Route, ids: seq<string>, before: Ledger.Pairs, after: Ledger.Pairs) {
    exists i: nat :: i < |ids| && Fails(n, outside, run, r, ids, i, before, after)
  }

  // The last record before the first failure.
  function LastTerminal(n: nat, outside: Outside, run: string, r: Route, ids: seq<string>, i: nat, cursor: Option<string>, before: Ledger.Pairs, after: Ledger.Pairs): Option<string>
    decreases |ids| - i
  {
    if i >= |ids| || Fails(n, outside, run, r, ids, i, before, after) then cursor
    else LastTerminal(n, outside, run, r, ids, i + 1, Some(ids[i]), before, after)
  }

  // A page of a route, with the results as they are before it.
  function TakePage(n: nat, outside: Outside, run: string, r: Route, cursor: Option<string>, page: Page, before: Ledger.Pairs, pass: Pass): Pass {
    var ids := Among(page.identities, r.candidates);
    var writes := Writes(n, outside, run, r, ids, before);
    var after := Wrote(before, run, writes);
    var taken := pass.(written := pass.written + writes);
    if AnyFails(n, outside, run, r, ids, before, after) then
      var last := LastTerminal(n, outside, run, r, ids, 0, cursor, before, after);
      taken.(hasMore := true, checkpoints := if last.Some? then taken.checkpoints[KeyOf(r) := last.value] else taken.checkpoints)
    else if page.hasMore && page.nextCursor != "" then
      taken.(hasMore := true, checkpoints := taken.checkpoints[KeyOf(r) := page.nextCursor])
    else if AllArrived(after, run, r) then
      taken.(completed := taken.completed + {KeyOf(r)})
    else
      taken.(hasMore := true)
  }

  function RunRoute(n: nat, outside: Outside, run: string, r: Route, saved: map<string, string>, results: Ledger.Pairs, pass: Pass): Option<Pass> {
    if KeyOf(r) in pass.completed then Some(pass)
    else if r.candidates == [] then Some(pass.(completed := pass.completed + {KeyOf(r)}))
    else
      var page := outside.read(n, r, ReadAt(saved, r));
      if page.None? then None
      else Some(TakePage(n, outside, run, r, ReadAt(saved, r), page.value, Wrote(results, run, pass.written), pass))
  }

  // The routes in turn, up to the first whose read fails.
  function RunRoutes(n: nat, outside: Outside, run: string, routes: seq<Route>, saved: map<string, string>, results: Ledger.Pairs, pass: Pass): (Pass, bool) {
    if routes == [] then (pass, false) else
    var (before, stopped) := RunRoutes(n, outside, run, routes[..|routes| - 1], saved, results, pass);
    if stopped then (before, true) else
    match RunRoute(n, outside, run, routes[|routes| - 1], saved, results, before)
    case None => (before, true)
    case Some(after) => (after, false)
  }

  function RunBatch(n: nat, outside: Outside, run: string, approved: Approved, m: Marker, results: Ledger.Pairs): BatchOutcome {
    var (pass, stopped) := RunRoutes(n, outside, run, approved, m.checkpoints, results, Pass(map[], m.completedRoutes, false, []));
    if stopped then Fault(Marker(m.checkpoints, pass.completed), pass.written)
    else Batch(pass.hasMore, Marker(pass.checkpoints, pass.completed), pass.written)
  }

  // A world whose batches are these.
  ghost predicate RunsBatches(world: World, outside: Outside, run: string) {
    forall n: nat, approved, m, results {:trigger RunBatch(n, outside, run, approved, m, results)} ::
      world.batch(n, approved, m, results) == RunBatch(n, outside, run, approved, m, results)
  }

  // -- What writing does to the results -------------------------------------------------------------------

  // A result that is written for a candidate of the route.
  predicate For(w: Written, r: Route) {
    w.from == r.from && w.to == r.to && w.entry.source in r.candidates
  }

  // A key that a batch may write: of a candidate of an approved route that is not skipped.
  ghost predicate Touchable(k: Ledger.PairKey, run: string, approved: Approved, skipped: set<string>) {
    k.run == run && exists r :: r in approved && KeyOf(r) !in skipped && k.from == r.from && k.to == r.to && k.source in r.candidates
  }

  // Results differ at most where a batch may write, and no terminal row is lost.
  ghost predicate Touched(before: Ledger.Pairs, after: Ledger.Pairs, run: string, approved: Approved, skipped: set<string>) {
    && (forall k :: !Touchable(k, run, approved, skipped) ==> Ledger.At(after, k) == Ledger.At(before, k))
    && (forall k :: k in before && Ledger.Terminal(before[k].status) ==> k in after && Ledger.Terminal(after[k].status))
  }

  predicate Brings(w: Written, r: Route, id: string) {
    w.from == r.from && w.to == r.to && w.entry.source == id && Ledger.Terminal(w.entry.row.status)
  }

  ghost predicate Brought(written: seq<Written>, r: Route, id: string) {
    exists i :: 0 <= i < |written| && Brings(written[i], r, id)
  }

  lemma OneWrite(results: Ledger.Pairs, run: string, w: Written)
    ensures var key := Ledger.PairKey(run, w.from, w.to, w.entry.source);
            Ledger.Upserted(results, run, w.from, w.to, [w.entry]) == results[key := Ledger.Merged(Ledger.At(results, key), w.entry.row)]
  {
    assert Ledger.Upserted(results, run, w.from, w.to, []) == results;
  }

  lemma {:induction false} WroteAppends(results: Ledger.Pairs, run: string, a: seq<Written>, b: seq<Written>)
    ensures Wrote(results, run, a + b) == Wrote(Wrote(results, run, a), run, b)
    decreases |b|
  {
    if b == [] {
      assert a + b == a;
    } else {
      var last := |b| - 1;
      assert (a + b)[..|a + b| - 1] == a + b[..last];
      WroteAppends(results, run, a, b[..last]);
    }
  }

  // A record has arrived exactly when it had before or was written with a terminal status.
  lemma {:induction false} ArrivesIffBrought(results: Ledger.Pairs, run: string, written: seq<Written>, r: Route, id: string)
    ensures Arrived(Wrote(results, run, written), run, r, id) <==> Arrived(results, run, r, id) || Brought(written, r, id)
    decreases |written|
  {
    if written != [] {
      var last := |written| - 1;
      var w := written[last];
      ArrivesIffBrought(results, run, written[..last], r, id);
      OneWrite(Wrote(results, run, written[..last]), run, w);
      if Brought(written[..last], r, id) {
        var i :| 0 <= i < last && Brings(written[..last][i], r, id);
        assert Brings(written[i], r, id);
      }
      if Brought(written, r, id) && !Brings(w, r, id) {
        var i :| 0 <= i < |written| && Brings(written[i], r, id);
        assert Brings(written[..last][i], r, id);
      }
    }
  }

  lemma {:induction false} WroteTouches(results: Ledger.Pairs, run: string, written: seq<Written>, approved: Approved, skipped: set<string>)
    requires forall i :: 0 <= i < |written| ==> Touchable(Ledger.PairKey(run, written[i].from, written[i].to, written[i].entry.source), run, approved, skipped)
    ensures Touched(results, Wrote(results, run, written), run, approved, skipped)
    decreases |written|
  {
    if written != [] {
      var last := |written| - 1;
      WroteTouches(results, run, written[..last], approved, skipped);
      OneWrite(Wrote(results, run, written[..last]), run, written[last]);
    }
  }

  ghost predicate AllFor(written: seq<Written>, r: Route) {
    forall i :: 0 <= i < |written| ==> For(written[i], r)
  }

  lemma {:induction false} WritesAreFor(n: nat, outside: Outside, run: string, r: Route, ids: seq<string>, results: Ledger.Pairs)
    requires forall i :: 0 <= i < |ids| ==> ids[i] in r.candidates
    ensures AllFor(Writes(n, outside, run, r, ids, results), r)
    decreases |ids|
  {
    if ids != [] {
      var last := |ids| - 1;
      WritesAreFor(n, outside, run, r, ids[..last], results);
      assert For(Written(r.from, r.to, Ledger.Entry(ids[last], outside.write(n, r, last, ids[last]))), r);
    }
  }

  // A record whose write succeeds is brought.
  lemma {:induction false} WriteBrings(n: nat, outside: Outside, run: string, r: Route, ids: seq<string>, results: Ledger.Pairs, i: nat)
    requires i < |ids| && !Arrived(results, run, r, ids[i]) && Ledger.Terminal(outside.write(n, r, i, ids[i]).status)
    ensures Brought(Writes(n, outside, run, r, ids, results), r, ids[i])
    decreases |ids|
  {
    var last := |ids| - 1;
    var writes, before := Writes(n, outside, run, r, ids, results), Writes(n, outside, run, r, ids[..last], results);
    if i == last {
      assert Brings(writes[|before|], r, ids[i]);
    } else {
      WriteBrings(n, outside, run, r, ids[..last], results, i);
      var j :| 0 <= j < |before| && Brings(before[j], r, ids[i]);
      assert writes[j] == before[j];
    }
  }

  // A record of a page fails exactly if it has not arrived when the page is recorded.
  lemma FailsIffMissing(n: nat, outside: Outside, run: string, r: Route, ids: seq<string>, before: Ledger.Pairs, i: nat)
    requires i < |ids|
    ensures var after := Wrote(before, run, Writes(n, outside, run, r, ids, before));
            Fails(n, outside, run, r, ids, i, before, after) <==> !Arrived(after, run, r, ids[i])
  {
    var writes := Writes(n, outside, run, r, ids, before);
    ArrivesIffBrought(before, run, writes, r, ids[i]);
    if !Arrived(before, run, r, ids[i]) && !outside.write(n, r, i, ids[i]).status.Failed? {
      WriteBrings(n, outside, run, r, ids, before, i);
    }
  }

  lemma {:induction false} LastTerminalAt(n: nat, outside: Outside, run: string, r: Route, ids: seq<string>, i: nat, k: nat, cursor: Option<string>, before: Ledger.Pairs, after: Ledger.Pairs)
    requires i <= k <= |ids| && (k < |ids| ==> Fails(n, outside, run, r, ids, k, before, after))
    requires forall j: nat :: i <= j < k ==> !Fails(n, outside, run, r, ids, j, before, after)
    ensures LastTerminal(n, outside, run, r, ids, i, cursor, before, after) == if k == i then cursor else Some(ids[k - 1])
    decreases k - i
  {
    if i < k { LastTerminalAt(n, outside, run, r, ids, i + 1, k, Some(ids[i]), before, after); }
  }

  /** A page on which a write fails keeps its place: the checkpoint is the record before the first one
      that has not arrived, and every record up to it has. */
  lemma FailedPageKeepsItsPlace(n: nat, outside: Outside, run: string, r: Route, ids: seq<string>, cursor: Option<string>, before: Ledger.Pairs) returns (k: nat)
    ensures var after := Wrote(before, run, Writes(n, outside, run, r, ids, before));
            && k <= |ids| && (forall j :: 0 <= j < k ==> Arrived(after, run, r, ids[j]))
            && (k < |ids| ==> !Arrived(after, run, r, ids[k])) && (AnyFails(n, outside, run, r, ids, before, after) <==> k < |ids|)
            && LastTerminal(n, outside, run, r, ids, 0, cursor, before, after) == if k == 0 then cursor else Some(ids[k - 1])
  {
    var after := Wrote(before, run, Writes(n, outside, run, r, ids, before));
    k := 0;
    while k < |ids| && Arrived(after, run, r, ids[k])
      invariant k <= |ids| && forall j :: 0 <= j < k ==> Arrived(after, run, r, ids[j])
    {
      k := k + 1;
    }
    forall j: nat | j < |ids| ensures Fails(n, outside, run, r, ids, j, before, after) <==> !Arrived(after, run, r, ids[j]) {
      FailsIffMissing(n, outside, run, r, ids, before, j);
    }
    LastTerminalAt(n, outside, run, r, ids, 0, k, cursor, before, after);
  }

  // -- One batch ------------------------------------------------------------------------------------------

  // What one route does to the batch.
  ghost predicate RouteKept(run: string, r: Route, results: Ledger.Pairs, before: Pass, after: Pass) {
    && |before.written| <= |after.written| && after.written[..|before.written|] == before.written
    && AllFor(after.written[|before.written|..], r)
    && (after.completed == before.completed || after.completed == before.completed + {KeyOf(r)})
    && (KeyOf(r) in before.completed ==> after == before)
    && (KeyOf(r) in after.completed && KeyOf(r) !in before.completed ==> AllArrived(Wrote(results, run, after.written), run, r))
    && (KeyOf(r) in after.completed || after.hasMore) && (before.hasMore ==> after.hasMore)
  }

  // The batch has touched nothing but this route.
  ghost predicate OnlyOf(r: Route, before: Pass, after: Pass) {
    && (forall x :: x != KeyOf(r) ==> (x in after.checkpoints <==> x in before.checkpoints))
    && (forall x :: x != KeyOf(r) && x in before.checkpoints ==> x in after.checkpoints && after.checkpoints[x] == before.checkpoints[x])
    && (forall x :: x != KeyOf(r) ==> (x in after.completed <==> x in before.completed))
    && |before.written| <= |after.written| && after.written[..|before.written|] == before.written
    && AllFor(after.written[|before.written|..], r)
  }

  // The route is left open for another batch, or closed with every candidate arrived.
  predicate Closes(run: string, r: Route, before: Ledger.Pairs, writes: seq<Written>, pass: Pass, after: Pass) {
    if KeyOf(r) in after.completed
    then after.completed == pass.completed + {KeyOf(r)} && after.hasMore == pass.hasMore && AllArrived(Wrote(before, run, writes), run, r)
    else after.completed == pass.completed && after.hasMore
  }

  // What a page leaves, apart from what was written.
  lemma PageEnds(n: nat, outside: Outside, run: string, r: Route, cursor: Option<string>, page: Page, before: Ledger.Pairs, pass: Pass)
    requires KeyOf(r) !in pass.completed
    ensures var after := TakePage(n, outside, run, r, cursor, page, before, pass);
            var writes := Writes(n, outside, run, r, Among(page.identities, r.candidates), before);
            && after.written == pass.written + writes && AllFor(writes, r)
            && Closes(run, r, before, writes, pass, after)
  {
    WritesAreFor(n, outside, run, r, Among(page.identities, r.candidates), before);
  }

  lemma RouteKeeps(n: nat, outside: Outside, run: string, r: Route, saved: map<string, string>, results: Ledger.Pairs, pass: Pass)
    ensures var after := RunRoute(n, outside, run, r, saved, results, pass); after.Some? ==> RouteKept(run, r, results, pass, after.value)
  {
    var page := outside.read(n, r, ReadAt(saved, r));
    var after := RunRoute(n, outside, run, r, saved, results, pass);
    if KeyOf(r) !in pass.completed && r.candidates != [] && page.Some? {
      var before := Wrote(results, run, pass.written);
      PageEnds(n, outside, run, r, ReadAt(saved, r), page.value, before, pass);
      var writes := Writes(n, outside, run, r, Among(page.value.identities, r.candidates), before);
      PageKept(run, r, results, pass, after.value, writes);
    }
  }

  lemma PageKept(run: string, r: Route, results: Ledger.Pairs, pass: Pass, after: Pass, writes: seq<Written>)
    requires KeyOf(r) !in pass.completed && after.written == pass.written + writes && AllFor(writes, r)
    requires Closes(run, r, Wrote(results, run, pass.written), writes, pass, after)
    ensures RouteKept(run, r, results, pass, after)
  {
    WroteAppends(results, run, pass.written, writes);
    assert after.written[|pass.written|..] == writes;
    assert after.written[..|pass.written|] == pass.written;
  }

  /** Whatever happens to one route of a batch, the checkpoints, completion and results of the others stay. */
  lemma RouteTouchesOne(n: nat, outside: Outside, run: string, r: Route, saved: map<string, string>, results: Ledger.Pairs, pass: Pass)
    ensures var after := RunRoute(n, outside, run, r, saved, results, pass); after.Some? ==> OnlyOf(r, pass, after.value)
  {
    var page := outside.read(n, r, ReadAt(saved, r));
    if KeyOf(r) !in pass.completed && r.candidates != [] && page.Some? {
      PageTouchesOne(n, outside, run, r, ReadAt(saved, r), page.value, Wrote(results, run, pass.written), pass);
    }
  }

  lemma PageTouchesOne(n: nat, outside: Outside, run: string, r: Route, cursor: Option<string>, page: Page, before: Ledger.Pairs, pass: Pass)
    ensures OnlyOf(r, pass, TakePage(n, outside, run, r, cursor, page, before, pass))
  {
    var writes := Writes(n, outside, run, r, Among(page.identities, r.candidates), before);
    var after := TakePage(n, outside, run, r, cursor, page, before, pass);
    WritesAreFor(n, outside, run, r, Among(page.identities, r.candidates), before);
    assert after.written == pass.written + writes;
    OnlyAppends(r, pass, after, writes);
  }

  lemma OnlyAppends(r: Route, before: Pass, after: Pass, writes: seq<Written>)
    requires after.written == before.written + writes && AllFor(writes, r)
    requires forall x :: x != KeyOf(r) ==> (x in after.checkpoints <==> x in before.checkpoints)
    requires forall x :: x != KeyOf(r) && x in before.checkpoints ==> x in after.checkpoints && after.checkpoints[x] == before.checkpoints[x]
    requires forall x :: x != KeyOf(r) ==> (x in after.completed <==> x in before.completed)
    ensures OnlyOf(r, before, after)
  {
    assert after.written[|before.written|..] == writes && after.written[..|before.written|] == before.written;
  }

  // Whoever is written is a candidate of an approved route that was open.
  ghost predicate WrittenFor(written: seq<Written>, run: string, approved: Approved, skipped: set<string>) {
    forall i :: 0 <= i < |written| ==> Touchable(Ledger.PairKey(run, written[i].from, written[i].to, written[i].entry.source), run, approved, skipped)
  }

  // The batch after some of the routes.
  ghost predicate Honest(run: string, routes: seq<Route>, done: set<string>, results: Ledger.Pairs, pass: Pass) {
    && done <= pass.completed
    && (forall r :: r in routes && KeyOf(r) in pass.completed && KeyOf(r) !in done ==> AllArrived(Wrote(results, run, pass.written), run, r))
    && (forall k :: k in pass.completed && k !in done ==> exists r :: r in routes && KeyOf(r) == k)
    && WrittenFor(pass.written, run, routes, done)
  }

  lemma StaysArrived(results: Ledger.Pairs, run: string, some: seq<Written>, all: seq<Written>, r: Route)
    requires |some| <= |all| && all[..|some|] == some && AllArrived(Wrote(results, run, some), run, r)
    ensures AllArrived(Wrote(results, run, all), run, r)
  {
    assert all == some + all[|some|..];
    WroteAppends(results, run, some, all[|some|..]);
    forall i | 0 <= i < |r.candidates| ensures Arrived(Wrote(results, run, all), run, r, r.candidates[i]) {
      ArrivesIffBrought(Wrote(results, run, some), run, all[|some|..], r, r.candidates[i]);
    }
  }

  lemma WrittenForMore(written: seq<Written>, longer: seq<Written>, run: string, routes: seq<Route>, r: Route, done: set<string>)
    requires WrittenFor(written, run, routes, done) && |written| <= |longer| && longer[..|written|] == written
    requires AllFor(longer[|written|..], r) && (KeyOf(r) !in done || longer == written)
    ensures WrittenFor(longer, run, routes + [r], done)
  {
    forall i | 0 <= i < |longer| ensures Touchable(Ledger.PairKey(run, longer[i].from, longer[i].to, longer[i].entry.source), run, routes + [r], done) {
      if i < |written| {
        assert longer[i] == written[i];
        var s :| s in routes && KeyOf(s) !in done && written[i].from == s.from && written[i].to == s.to && written[i].entry.source in s.candidates;
        assert s in routes + [r];
      } else {
        assert For(longer[|written|..][i - |written|], r);
        assert r in routes + [r];
      }
    }
  }

  lemma OneMoreRoute(run: string, routes: seq<Route>, r: Route, done: set<string>, results: Ledger.Pairs, before: Pass, after: Pass)
    requires Honest(run, routes, done, results, before) && RouteKept(run, r, results, before, after)
    requires forall s :: s in routes ==> KeyOf(s) != KeyOf(r)
    ensures Honest(run, routes + [r], done, results, after)
  {
    forall s | s in routes + [r] && KeyOf(s) in after.completed && KeyOf(s) !in done ensures AllArrived(Wrote(results, run, after.written), run, s) {
      if s in routes { StaysArrived(results, run, before.written, after.written, s); }
    }
    forall k | k in after.completed && k !in done ensures exists s :: s in routes + [r] && KeyOf(s) == k {
      if k in before.completed {
        var s :| s in routes && KeyOf(s) == k;
        assert s in routes + [r];
      } else {
        assert r in routes + [r];
      }
    }
    WrittenForMore(before.written, after.written, run, routes, r, done);
  }

  // A batch that stops before a route has done nothing to it.
  lemma HonestWithMore(run: string, routes: seq<Route>, r: Route, done: set<string>, results: Ledger.Pairs, pass: Pass)
    requires Honest(run, routes, done, results, pass) && forall s :: s in routes ==> KeyOf(s) != KeyOf(r)
    ensures Honest(run, routes + [r], done, results, pass)
  {
    forall k | k in pass.completed && k !in done ensures k != KeyOf(r) && exists s :: s in routes + [r] && KeyOf(s) == k {
      var s :| s in routes && KeyOf(s) == k;
      assert s in routes + [r];
    }
    WrittenForMore(pass.written, pass.written, run, routes, r, done);
  }

  lemma LastIsDistinct(routes: seq<Route>)
    requires DistinctKeys(routes, KeyOf) && routes != []
    ensures var last := |routes| - 1; DistinctKeys(routes[..last], KeyOf) && forall s :: s in routes[..last] ==> KeyOf(s) != KeyOf(routes[last])
  {
  }

  ghost predicate AllCompleted(routes: seq<Route>, completed: set<string>) {
    forall r :: r in routes ==> KeyOf(r) in completed
  }

  lemma NextRouteIsHonest(n: nat, outside: Outside, run: string, some: seq<Route>, r: Route, saved: map<string, string>, done: set<string>, results: Ledger.Pairs, before: Pass)
    requires Honest(run, some, done, results, before) && forall s :: s in some ==> KeyOf(s) != KeyOf(r)
    requires !before.hasMore ==> AllCompleted(some, before.completed)
    ensures Honest(run, some + [r], done, results, before)
    ensures var after := RunRoute(n, outside, run, r, saved, results, before);
            after.Some? ==> Honest(run, some + [r], done, results, after.value) && (!after.value.hasMore ==> AllCompleted(some + [r], after.value.completed))
  {
    HonestWithMore(run, some, r, done, results, before);
    RouteKeeps(n, outside, run, r, saved, results, before);
    var after := RunRoute(n, outside, run, r, saved, results, before);
    if after.Some? { OneMoreRoute(run, some, r, done, results, before, after.value); }
  }

  lemma {:induction false} RoutesAreHonest(n: nat, outside: Outside, run: string, routes: seq<Route>, saved: map<string, string>, done: set<string>, results: Ledger.Pairs)
    requires DistinctKeys(routes, KeyOf)
    ensures var (pass, stopped) := RunRoutes(n, outside, run, routes, saved, results, Pass(map[], done, false, []));
            Honest(run, routes, done, results, pass) && (!stopped && !pass.hasMore ==> AllCompleted(routes, pass.completed))
    decreases |routes|
  {
    if routes != [] {
      var last := |routes| - 1;
      LastIsDistinct(routes);
      RoutesAreHonest(n, outside, run, routes[..last], saved, done, results);
      var (before, stopped) := RunRoutes(n, outside, run, routes[..last], saved, results, Pass(map[], done, false, []));
      assert routes == routes[..last] + [routes[last]];
      if stopped { HonestWithMore(run, routes[..last], routes[last], done, results, before); }
      else { NextRouteIsHonest(n, outside, run, routes[..last], routes[last], saved, done, results, before); }
    }
  }

  // -- The batch as it runs -------------------------------------------------------------------------------

  function EntriesOf(written: seq<Written>): (entries: seq<Ledger.Entry>)
    ensures |entries| == |written|
  {
    seq(|written|, i requires 0 <= i < |written| => written[i].entry)
  }

  // One upsert of a batch of one pair is its results one after another.
  lemma {:induction false} OneUpsert(results: Ledger.Pairs, run: string, from: string, to: string, written: seq<Written>)
    requires forall i :: 0 <= i < |written| ==> written[i].from == from && written[i].to == to
    ensures Ledger.Upserted(results, run, from, to, EntriesOf(written)) == Wrote(results, run, written)
    decreases |written|
  {
    if written != [] {
      var last := |written| - 1;
      OneUpsert(results, run, from, to, written[..last]);
      assert EntriesOf(written)[..last] == EntriesOf(written[..last]);
      OneWrite(Wrote(results, run, written[..last]), run, written[last]);
    }
  }

  lemma FailsFrom(n: nat, outside: Outside, run: string, r: Route, ids: seq<string>, i: nat, before: Ledger.Pairs, after: Ledger.Pairs)
    requires i <= |ids| && (i < |ids| ==> Fails(n, outside, run, r, ids, i, before, after))
    requires forall j: nat :: j < i ==> !Fails(n, outside, run, r, ids, j, before, after)
    ensures AnyFails(n, outside, run, r, ids, before, after) <==> i < |ids|
  {
  }

  // The `ExecutionSnapshot` of a run, as far as it decides what the next batch does, and the results.
  class Snapshot {
    var checkpoints: map<string, string>
    var completed: set<string>
    const store: Ledger.Store

    constructor (checkpoints: map<string, string>, completed: set<string>, store: Ledger.Store)
      ensures this.checkpoints == checkpoints && this.completed == completed && this.store == store
    {
      this.checkpoints, this.completed, this.store := checkpoints, completed, store;
    }

    // The write phase of one page: what the destination makes of the records without a terminal row.
    method WritePage(n: nat, outside: Outside, run: string, r: Route, ids: seq<string>) returns (writes: seq<Written>)
      modifies store`results
      ensures writes == Writes(n, outside, run, r, ids, old(store.results))
      ensures store.results == Wrote(old(store.results), run, writes)
    {
      writes := [];
      for i := 0 to |ids|
        invariant writes == Writes(n, outside, run, r, ids[..i], store.results) && AllFor(writes, Route(r.from, r.to, r.identity, ids))
      {
        assert ids[..i + 1][..i] == ids[..i];
        if !Arrived(store.results, run, r, ids[i]) {
          var w := Written(r.from, r.to, Ledger.Entry(ids[i], outside.write(n, r, i, ids[i])));
          writes := writes + [w];
        }
      }
      assert ids[..|ids|] == ids;
      OneUpsert(store.results, run, r.from, r.to, writes);
      store.UpsertResults(run, r.from, r.to, EntriesOf(writes));
    }

    // How far the page got: the cursor of the last record before the first failure, if one failed.
    method LastCursor(n: nat, outside: Outside, run: string, r: Route, ids: seq<string>, cursor: Option<string>, before: Ledger.Pairs)
      returns (failed: bool, last: Option<string>)
      ensures failed == AnyFails(n, outside, run, r, ids, before, store.results)
      ensures last == LastTerminal(n, outside, run, r, ids, 0, cursor, before, store.results)
    {
      failed, last := false, cursor;
      var i := 0;
      while i < |ids| && !failed
        invariant 0 <= i <= |ids| && (failed ==> i < |ids| && Fails(n, outside, run, r, ids, i, before, store.results))
        invariant forall j: nat :: j < i ==> !Fails(n, outside, run, r, ids, j, before, store.results)
        invariant LastTerminal(n, outside, run, r, ids, i, last, before, store.results)
               == LastTerminal(n, outside, run, r, ids, 0, cursor, before, store.results)
        decreases |ids| - i, !failed
      {
        if Fails(n, outside, run, r, ids, i, before, store.results) {
          failed := true;
        } else {
          last, i := Some(ids[i]), i + 1;
        }
      }
      FailsFrom(n, outside, run, r, ids, i, before, store.results);
    }

    // One page of a route: write, then move the route's checkpoint, complete it, or leave it for another pass.
    method DoPage(n: nat, outside: Outside, run: string, r: Route, cursor: Option<string>, page: Page, next: map<string, string>, more: bool)
      returns (checkpoints: map<string, string>, hasMore: bool, ghost writes: seq<Written>)
      modifies this`completed, store`results
      ensures store.results == Wrote(old(store.results), run, writes)
      ensures forall written :: TakePage(n, outside, run, r, cursor, page, old(store.results), Pass(next, old(completed), more, written))
                             == Pass(checkpoints, completed, hasMore, written + writes)
    {
      var was := store.results;
      var ids := Among(page.identities, r.candidates);
      var wrote := WritePage(n, outside, run, r, ids);
      writes := wrote;
      var failed, last := LastCursor(n, outside, run, r, ids, cursor, was);
      checkpoints, hasMore := next, more;
      if failed {
        if last.Some? { checkpoints := checkpoints[KeyOf(r) := last.value]; }
        hasMore := true;
      } else if page.hasMore && page.nextCursor != "" {
        checkpoints := checkpoints[KeyOf(r) := page.nextCursor];
        hasMore := true;
      } else if AllArrived(store.results, run, r) {
        completed := completed + {KeyOf(r)};
      } else {
        hasMore := true;
      }
    }

    // `run_batch`: None where a read fails, with what was done before it.
    method TakeBatch(n: nat, outside: Outside, run: string, approved: Approved) returns (more: Option<bool>, ghost written: seq<Written>)
      modifies this, store`results
      ensures store.results == Wrote(old(store.results), run, written)
      ensures RunBatch(n, outside, run, approved, old(Marker(checkpoints, completed)), old(store.results))
           == if more.Some? then Batch(more.value, Marker(checkpoints, completed), written) else Fault(Marker(checkpoints, completed), written)
    {
      var next: map<string, string>, hasMore := map[], false;
      written := [];
      ghost var m, first := Marker(checkpoints, completed), store.results;
      for i := 0 to |approved|
        invariant checkpoints == m.checkpoints && store.results == Wrote(first, run, written)
        invariant RunRoutes(n, outside, run, approved[..i], m.checkpoints, first, Pass(map[], m.completedRoutes, false, []))
               == (Pass(next, completed, hasMore, written), false)
      {
        var r := approved[i];
        assert approved[..i + 1][..i] == approved[..i];
        if KeyOf(r) in completed {
          // nothing is read for a completed route
        } else if r.candidates == [] {
          completed := completed + {KeyOf(r)};
        } else {
          var cursor := ReadAt(checkpoints, r);
          var page := outside.read(n, r, cursor);
          if page.None? {
            StoppedAt(n, outside, run, approved, i, m, first, Pass(next, completed, hasMore, written));
            return None, written;
          }
          ghost var writes;
          next, hasMore, writes := DoPage(n, outside, run, r, cursor, page.value, next, hasMore);
          WroteAppends(first, run, written, writes);
          written := written + writes;
        }
      }
      assert approved[..|approved|] == approved;
      checkpoints := next;
      more := Some(hasMore);
    }
  }

  // Once a read has failed, the routes after it are not met.
  lemma {:induction false} StoppedAt(n: nat, outside: Outside, run: string, approved: Approved, i: nat, m: Marker, results: Ledger.Pairs, pass: Pass)
    requires i < |approved|
    requires RunRoutes(n, outside, run, approved[..i], m.checkpoints, results, Pass(map[], m.completedRoutes, false, [])) == (pass, false)
    requires RunRoute(n, outside, run, approved[i], m.checkpoints, results, pass) == None
    ensures RunBatch(n, outside, run, approved, m, results) == Fault(Marker(m.checkpoints, pass.completed), pass.written)
  {
    assert approved[..i + 1][..i] == approved[..i];
    StaysStopped(n, outside, run, approved, i + 1, |approved|, m, results, pass);
    assert approved[..|approved|] == approved;
  }

  lemma {:induction false} StaysStopped(n: nat, outside: Outside, run: string, approved: Approved, i: nat, j: nat, m: Marker, results: Ledger.Pairs, pass: Pass)
    requires i <= j <= |approved|
    requires RunRoutes(n, outside, run, approved[..i], m.checkpoints, results, Pass(map[], m.completedRoutes, false, [])) == (pass, true)
    ensures RunRoutes(n, outside, run, approved[..j], m.checkpoints, results, Pass(map[], m.completedRoutes, false, [])) == (pass, true)
    decreases j
  {
    if i < j {
      StaysStopped(n, outside, run, approved, i, j - 1, m, results, pass);
      assert approved[..j][..j - 1] == approved[..j - 1];
    }
  }
}
