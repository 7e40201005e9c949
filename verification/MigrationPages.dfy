/**
 A first apply over a source that does not change and a destination that takes every record. It ends
 if and only if every route with a candidate the source no longer has is read in one page: over two
 pages or more the marker goes round with the pages, and the loop never sees it stand still.
 */
module MigrationPages {
  import opened Basics
  import opened Ordering
  import opened MigrationRuns
  import opened MigrationProgress
  import opened RouteBatches
  import Candidates
  import Ledger

  // A fixed source with so many pages for each route, and the results before the apply.
  datatype Course = Course(outside: Outside, run: string, approved: Approved, pages: Route -> nat, first: Ledger.Pairs)

  // The page at a raw cursor, and the raw cursor it announces.
  function PageOf(outside: Outside, r: Route, cursor: string): Option<Page> {
    outside.read(0, r, CursorOf(cursor))
  }

  function NextOf(page: Option<Page>): string {
    if page.None? then "" else page.value.nextCursor
  }

  // The raw cursor after so many pages, and the page there.
  function CursorAfter(outside: Outside, r: Route, i: nat): string {
    if i == 0 then "" else NextOf(PageOf(outside, r, CursorAfter(outside, r, i - 1)))
  }

  function PageAt(outside: Outside, r: Route, i: nat): Option<Page> {
    PageOf(outside, r, CursorAfter(outside, r, i))
  }

  predicate IsLast(page: Page) { !page.hasMore || page.nextCursor == "" }

  // The route is read in k pages.
  ghost predicate Paged(outside: Outside, r: Route, k: nat) {
    && k >= 1
    && (forall i: nat :: i < k ==> PageAt(outside, r, i).Some?)
    && (forall i: nat :: i < k - 1 ==> var page := PageAt(outside, r, i).value; page.hasMore && Candidates.Strip(page.nextCursor) != "")
    && IsLast(PageAt(outside, r, k - 1).value)
  }

  // The source always answers alike and every write succeeds.
  ghost predicate Steady(outside: Outside) {
    && (forall n: nat, r, cursor :: outside.read(n, r, cursor) == outside.read(0, r, cursor))
    && (forall n: nat, r, i: nat, id :: Ledger.Terminal(outside.write(n, r, i, id).status))
  }

  ghost predicate Fixed(c: Course) {
    && Steady(c.outside) && DistinctKeys(c.approved, KeyOf)
    && (forall r :: r in c.approved ==> if r.candidates == [] then c.pages(r) == 1 else Paged(c.outside, r, c.pages(r)))
    // no object is named like a route, as snapshots of older releases would be read
    && (forall r, s :: r in c.approved && s in c.approved ==> r.from != KeyOf(s))
  }

  ghost predicate OnPages(outside: Outside, r: Route, k: nat, id: string) {
    exists i: nat :: i < k && PageAt(outside, r, i).Some? && id in PageAt(outside, r, i).value.identities
  }

  // A candidate that is neither in the source nor in the results.
  ghost predicate Lacking(c: Course, r: Route) {
    exists i :: 0 <= i < |r.candidates| && Lost(c, r, r.candidates[i])
  }

  ghost predicate Lost(c: Course, r: Route, id: string) {
    !Arrived(c.first, c.run, r, id) && !OnPages(c.outside, r, c.pages(r), id)
  }

  // -- Where each route stands after n batches ------------------------------------------------------------

  ghost predicate Closed(c: Course, r: Route, n: nat) { !Lacking(c, r) && n >= c.pages(r) }

  ghost predicate CursorStands(c: Course, r: Route, n: nat, checkpoints: map<string, string>)
    requires c.pages(r) >= 1
  {
    if Closed(c, r, n) || n % c.pages(r) == 0 then KeyOf(r) !in checkpoints
    else KeyOf(r) in checkpoints && checkpoints[KeyOf(r)] == CursorAfter(c.outside, r, n % c.pages(r))
  }

  ghost predicate ResultsStand(c: Course, r: Route, n: nat, results: Ledger.Pairs) {
    forall i :: 0 <= i < |r.candidates| ==>
      (Arrived(results, c.run, r, r.candidates[i])
       <==> Arrived(c.first, c.run, r, r.candidates[i]) || OnPages(c.outside, r, Least(n, c.pages(r)), r.candidates[i]))
  }

  function Least(a: nat, b: nat): nat { if a < b then a else b }

  ghost predicate Stands(c: Course, r: Route, n: nat, checkpoints: map<string, string>, completed: set<string>, results: Ledger.Pairs)
    requires c.pages(r) >= 1
  {
    CursorStands(c, r, n, checkpoints) && (KeyOf(r) in completed <==> Closed(c, r, n)) && ResultsStand(c, r, n, results)
  }

  // Nothing is written but records of the page.
  lemma {:induction false} BroughtIsAmong(n: nat, outside: Outside, run: string, r: Route, ids: seq<string>, results: Ledger.Pairs, id: string)
    requires Brought(Writes(n, outside, run, r, ids, results), r, id)
    ensures id in ids
    decreases |ids|
  {
    var last := |ids| - 1;
    if ids[last] != id {
      var writes, before := Writes(n, outside, run, r, ids, results), Writes(n, outside, run, r, ids[..last], results);
      var i :| 0 <= i < |writes| && Brings(writes[i], r, id);
      assert Brings(before[i], r, id);
      BroughtIsAmong(n, outside, run, r, ids[..last], results, id);
    }
  }

  // After a page, a candidate has arrived exactly if it had before or is on the page.
  lemma PageArrives(n: nat, outside: Outside, run: string, r: Route, page: Page, before: Ledger.Pairs, id: string)
    requires Steady(outside) && id in r.candidates
    ensures var ids := Among(page.identities, r.candidates);
            Arrived(Wrote(before, run, Writes(n, outside, run, r, ids, before)), run, r, id) <==> Arrived(before, run, r, id) || id in page.identities
  {
    var ids := Among(page.identities, r.candidates);
    var writes := Writes(n, outside, run, r, ids, before);
    ArrivesIffBrought(before, run, writes, r, id);
    if Brought(writes, r, id) { BroughtIsAmong(n, outside, run, r, ids, before, id); }
    if id in page.identities && !Arrived(before, run, r, id) {
      var i :| 0 <= i < |ids| && ids[i] == id;
      WriteBrings(n, outside, run, r, ids, before, i);
    }
  }

  lemma NothingFails(n: nat, outside: Outside, run: string, r: Route, ids: seq<string>, before: Ledger.Pairs, after: Ledger.Pairs)
    requires Steady(outside)
    ensures !AnyFails(n, outside, run, r, ids, before, after)
  {
    forall i: nat | i < |ids| ensures !Fails(n, outside, run, r, ids, i, before, after) {
      assert Ledger.Terminal(outside.write(n, r, i, ids[i]).status);
    }
  }

  lemma Around(n: nat, k: nat)
    requires k >= 1
    ensures (n + 1) % k == if n % k == k - 1 then 0 else n % k + 1
    ensures n < k ==> n % k == n
  {
    var q, i := n / k, n % k;
    assert n == q * k + i;
    if i == k - 1 {
      assert n + 1 == (q + 1) * k;
      Remainder(n + 1, q + 1, 0, k);
    } else {
      Remainder(n + 1, q, i + 1, k);
    }
  }

  lemma Remainder(n: int, q: int, i: int, k: int)
    requires k >= 1 && n == q * k + i && 0 <= i < k
    ensures n % k == i
  {
    var d := n / k - q;
    assert d * k == i - (n % k);
    assert d >= 1 ==> d * k >= k;
    assert d <= -1 ==> d * k <= -k;
  }

  // -- One route in one batch -----------------------------------------------------------------------------

  // The page at which an open route stands, seen from its saved cursor.
  lemma ReadsItsPage(c: Course, r: Route, n: nat, saved: map<string, string>)
    requires Fixed(c) && r in c.approved && r.candidates != [] && CursorStands(c, r, n, saved) && !Closed(c, r, n) && r.from !in saved
    ensures c.outside.read(n, r, ReadAt(saved, r)) == PageAt(c.outside, r, n % c.pages(r))
    ensures PageAt(c.outside, r, n % c.pages(r)).Some?
  {
    var i := n % c.pages(r);
    if i > 0 {
      assert PageAt(c.outside, r, i - 1).Some?;
    }
    assert CursorOf("") == None;
    assert ReadAt(saved, r) == CursorOf(CursorAfter(c.outside, r, i));
  }

  lemma ResultsMoveOn(c: Course, r: Route, n: nat, page: Page, before: Ledger.Pairs, after: Ledger.Pairs)
    requires Fixed(c) && r in c.approved && r.candidates != [] && ResultsStand(c, r, n, before)
    requires PageAt(c.outside, r, n % c.pages(r)) == Some(page)
    requires forall i :: 0 <= i < |r.candidates| ==>
      (Arrived(after, c.run, r, r.candidates[i]) <==> Arrived(before, c.run, r, r.candidates[i]) || r.candidates[i] in page.identities)
    ensures ResultsStand(c, r, n + 1, after)
  {
    var k := c.pages(r);
    Around(n, k);
    forall i | 0 <= i < |r.candidates|
      ensures Arrived(after, c.run, r, r.candidates[i])
         <==> Arrived(c.first, c.run, r, r.candidates[i]) || OnPages(c.outside, r, Least(n + 1, k), r.candidates[i])
    {
      var id := r.candidates[i];
      assert OnPages(c.outside, r, Least(n + 1, k), id) <==> OnPages(c.outside, r, Least(n, k), id) || id in page.identities by {
        var j: nat := n % k;
        assert j < Least(n + 1, k);
        if OnPages(c.outside, r, Least(n + 1, k), id) && !OnPages(c.outside, r, Least(n, k), id) {
          var m: nat :| m < Least(n + 1, k) && PageAt(c.outside, r, m).Some? && id in PageAt(c.outside, r, m).value.identities;
          assert m == n;
        }
      }
    }
  }

  // At the end of a pass the results hold every candidate unless one is lacking.
  lemma PassCovers(c: Course, r: Route, n: nat, results: Ledger.Pairs)
    requires ResultsStand(c, r, n, results) && n >= c.pages(r)
    ensures AllArrived(results, c.run, r) <==> !Lacking(c, r)
  {
    forall i | 0 <= i < |r.candidates| ensures Arrived(results, c.run, r, r.candidates[i]) <==> !Lost(c, r, r.candidates[i]) {
    }
  }

  // The route has not been met in this batch.
  ghost predicate Waits(c: Course, r: Route, n: nat, results: Ledger.Pairs, pass: Pass) {
    KeyOf(r) !in pass.checkpoints && (KeyOf(r) in pass.completed <==> Closed(c, r, n)) && ResultsStand(c, r, n, Wrote(results, c.run, pass.written))
  }

  // The batch has taken the route from its n-th to its next stand, and touched nothing else.
  ghost predicate Moves(c: Course, r: Route, n: nat, results: Ledger.Pairs, before: Pass, after: Pass)
    requires c.pages(r) >= 1
  {
    && Stands(c, r, n + 1, after.checkpoints, after.completed, Wrote(results, c.run, after.written))
    && (after.hasMore <==> before.hasMore || !Closed(c, r, n + 1))
    && OnlyOf(r, before, after)
  }

  // What a page makes of a pass when nothing fails.
  ghost predicate Taken(c: Course, r: Route, page: Page, writes: seq<Written>, now: Ledger.Pairs, before: Pass, after: Pass) {
    && after.written == before.written + writes && AllFor(writes, r)
    && after.checkpoints == (if IsLast(page) then before.checkpoints else before.checkpoints[KeyOf(r) := page.nextCursor])
    && after.completed == (if IsLast(page) && AllArrived(now, c.run, r) then before.completed + {KeyOf(r)} else before.completed)
    && after.hasMore == (if IsLast(page) && AllArrived(now, c.run, r) then before.hasMore else true)
  }

  lemma PageTaken(c: Course, r: Route, n: nat, cursor: Option<string>, page: Page, before: Ledger.Pairs, pass: Pass)
    requires Steady(c.outside)
    ensures var writes := Writes(n, c.outside, c.run, r, Among(page.identities, r.candidates), before);
            Taken(c, r, page, writes, Wrote(before, c.run, writes), pass, TakePage(n, c.outside, c.run, r, cursor, page, before, pass))
  {
    var ids := Among(page.identities, r.candidates);
    var writes := Writes(n, c.outside, c.run, r, ids, before);
    NothingFails(n, c.outside, c.run, r, ids, before, Wrote(before, c.run, writes));
    WritesAreFor(n, c.outside, c.run, r, ids, before);
  }

  lemma PageResults(c: Course, r: Route, n: nat, page: Page, before: Ledger.Pairs)
    requires Fixed(c) && r in c.approved && r.candidates != [] && ResultsStand(c, r, n, before)
    requires PageAt(c.outside, r, n % c.pages(r)) == Some(page)
    ensures ResultsStand(c, r, n + 1, Wrote(before, c.run, Writes(n, c.outside, c.run, r, Among(page.identities, r.candidates), before)))
  {
    var after := Wrote(before, c.run, Writes(n, c.outside, c.run, r, Among(page.identities, r.candidates), before));
    forall i | 0 <= i < |r.candidates|
      ensures Arrived(after, c.run, r, r.candidates[i]) <==> Arrived(before, c.run, r, r.candidates[i]) || r.candidates[i] in page.identities
    {
      PageArrives(n, c.outside, c.run, r, page, before, r.candidates[i]);
    }
    ResultsMoveOn(c, r, n, page, before, after);
  }

  lemma TakenTouchesOne(c: Course, r: Route, page: Page, writes: seq<Written>, now: Ledger.Pairs, before: Pass, after: Pass)
    requires Taken(c, r, page, writes, now, before, after)
    ensures OnlyOf(r, before, after)
  {
    assert after.written[|before.written|..] == writes && after.written[..|before.written|] == before.written;
  }

  // The next cursor is that of the page just read.
  lemma NextCursor(c: Course, r: Route, n: nat, page: Page)
    requires Fixed(c) && r in c.approved && r.candidates != []
    requires PageAt(c.outside, r, n % c.pages(r)) == Some(page)
    ensures var k := c.pages(r);
            if n % k == k - 1 then IsLast(page) && (n + 1) % k == 0 && n + 1 >= k
            else !IsLast(page) && (n + 1) % k == n % k + 1 && page.nextCursor == CursorAfter(c.outside, r, (n + 1) % k) && (n < k ==> n + 1 < k)
  {
    Around(n, c.pages(r));
  }

  lemma TakenMoves(c: Course, r: Route, n: nat, page: Page, writes: seq<Written>, results: Ledger.Pairs, before: Pass, after: Pass)
    requires Fixed(c) && r in c.approved && r.candidates != [] && Waits(c, r, n, results, before) && !Closed(c, r, n)
    requires PageAt(c.outside, r, n % c.pages(r)) == Some(page)
    requires Taken(c, r, page, writes, Wrote(results, c.run, after.written), before, after)
    requires ResultsStand(c, r, n + 1, Wrote(results, c.run, after.written))
    ensures Moves(c, r, n, results, before, after)
  {
    NextCursor(c, r, n, page);
    TakenTouchesOne(c, r, page, writes, Wrote(results, c.run, after.written), before, after);
    if IsLast(page) { PassCovers(c, r, n + 1, Wrote(results, c.run, after.written)); }
    assert Closed(c, r, n + 1) <==> IsLast(page) && !Lacking(c, r);
  }

  lemma RouteMoves(c: Course, r: Route, n: nat, saved: map<string, string>, results: Ledger.Pairs, pass: Pass)
    requires Fixed(c) && r in c.approved && Waits(c, r, n, results, pass) && CursorStands(c, r, n, saved) && r.from !in saved
    ensures var after := RunRoute(n, c.outside, c.run, r, saved, results, pass);
            after.Some? && Moves(c, r, n, results, pass, after.value)
  {
    if Closed(c, r, n) {
      assert ResultsStand(c, r, n + 1, Wrote(results, c.run, pass.written));
    } else if r.candidates == [] {
      assert !Lacking(c, r);
    } else {
      var before := Wrote(results, c.run, pass.written);
      ReadsItsPage(c, r, n, saved);
      var page := PageAt(c.outside, r, n % c.pages(r)).value;
      PageTaken(c, r, n, ReadAt(saved, r), page, before, pass);
      PageResults(c, r, n, page, before);
      var writes := Writes(n, c.outside, c.run, r, Among(page.identities, r.candidates), before);
      WroteAppends(results, c.run, pass.written, writes);
      TakenMoves(c, r, n, page, writes, results, pass, TakePage(n, c.outside, c.run, r, ReadAt(saved, r), page, before, pass));
    }
  }

  // -- A whole batch --------------------------------------------------------------------------------------

  lemma OthersStay(c: Course, r: Route, s: Route, m: nat, results: Ledger.Pairs, before: Pass, after: Pass)
    requires OnlyOf(r, before, after) && KeyOf(s) != KeyOf(r) && ResultsStand(c, s, m, Wrote(results, c.run, before.written))
    ensures ResultsStand(c, s, m, Wrote(results, c.run, after.written))
  {
    var extra := after.written[|before.written|..];
    assert after.written == before.written + extra;
    WroteAppends(results, c.run, before.written, extra);
    forall i | 0 <= i < |s.candidates|
      ensures Arrived(Wrote(results, c.run, after.written), c.run, s, s.candidates[i])
         <==> Arrived(Wrote(results, c.run, before.written), c.run, s, s.candidates[i])
    {
      ArrivesIffBrought(Wrote(results, c.run, before.written), c.run, extra, s, s.candidates[i]);
      assert forall j :: 0 <= j < |extra| ==> For(extra[j], r) && !Brings(extra[j], s, s.candidates[i]);
    }
  }

  // After some of the routes: those stand where they will next, the others where they did.
  ghost predicate Halfway(c: Course, some: seq<Route>, n: nat, results: Ledger.Pairs, pass: Pass)
    requires Fixed(c)
  {
    && (forall r :: r in c.approved && r in some ==> Stands(c, r, n + 1, pass.checkpoints, pass.completed, Wrote(results, c.run, pass.written)))
    && (forall r :: r in c.approved && r !in some ==> Waits(c, r, n, results, pass))
    && (forall x :: x in pass.checkpoints ==> exists r :: r in some && KeyOf(r) == x)
    && (forall x :: x in pass.completed ==> exists r :: r in c.approved && KeyOf(r) == x)
    && (pass.hasMore <==> exists r :: r in some && !Closed(c, r, n + 1))
  }

  lemma OneFurther(c: Course, some: seq<Route>, r: Route, n: nat, results: Ledger.Pairs, before: Pass, after: Pass)
    requires Fixed(c) && Halfway(c, some, n, results, before) && r in c.approved && Moves(c, r, n, results, before, after)
    requires forall s :: s in c.approved && s != r ==> KeyOf(s) != KeyOf(r)
    requires forall s :: s in some ==> s in c.approved
    ensures Halfway(c, some + [r], n, results, after)
  {
    forall s | s in c.approved && s in some + [r] ensures Stands(c, s, n + 1, after.checkpoints, after.completed, Wrote(results, c.run, after.written)) {
      if s != r { OthersStay(c, r, s, n + 1, results, before, after); }
    }
    forall s | s in c.approved && s !in some + [r] ensures Waits(c, s, n, results, after) {
      OthersStay(c, r, s, n, results, before, after);
    }
    KeysStay(c, some, r, before, after);
    MoreToDo(c, some, r, n, before.hasMore, after.hasMore);
  }

  lemma KeysStay(c: Course, some: seq<Route>, r: Route, before: Pass, after: Pass)
    requires r in c.approved && OnlyOf(r, before, after)
    requires forall x :: x in before.checkpoints ==> exists s :: s in some && KeyOf(s) == x
    requires forall x :: x in before.completed ==> exists s :: s in c.approved && KeyOf(s) == x
    ensures forall x :: x in after.checkpoints ==> exists s :: s in some + [r] && KeyOf(s) == x
    ensures forall x :: x in after.completed ==> exists s :: s in c.approved && KeyOf(s) == x
  {
    forall x | x in after.checkpoints ensures exists s :: s in some + [r] && KeyOf(s) == x {
      if x != KeyOf(r) {
        var s :| s in some && KeyOf(s) == x;
        assert s in some + [r];
      } else {
        assert r in some + [r];
      }
    }
  }

  lemma MoreToDo(c: Course, some: seq<Route>, r: Route, n: nat, before: bool, after: bool)
    requires before <==> exists s :: s in some && !Closed(c, s, n + 1)
    requires after <==> before || !Closed(c, r, n + 1)
    ensures after <==> exists s :: s in some + [r] && !Closed(c, s, n + 1)
  {
    if before {
      var s :| s in some && !Closed(c, s, n + 1);
      assert s in some + [r];
    }
    assert r in some + [r];
  }

  lemma KeysTell(routes: seq<Route>, r: Route, s: Route)
    requires DistinctKeys(routes, KeyOf) && r in routes && s in routes && r != s
    ensures KeyOf(r) != KeyOf(s)
  {
    var i :| 0 <= i < |routes| && routes[i] == r;
    var j :| 0 <= j < |routes| && routes[j] == s;
  }

  // A marker and results at which every route stands after n batches.
  ghost predicate AllStand(c: Course, n: nat, m: Marker, results: Ledger.Pairs)
    requires Fixed(c)
  {
    && (forall r :: r in c.approved ==> Stands(c, r, n, m.checkpoints, m.completedRoutes, results))
    && (forall x :: x in m.checkpoints ==> exists r :: r in c.approved && KeyOf(r) == x)
    && (forall x :: x in m.completedRoutes ==> exists r :: r in c.approved && KeyOf(r) == x)
  }

  // The batch after the first i routes.
  function After(c: Course, i: nat, n: nat, m: Marker, results: Ledger.Pairs): (Pass, bool)
    requires i <= |c.approved|
  {
    RunRoutes(n, c.outside, c.run, c.approved[..i], m.checkpoints, results, Pass(map[], m.completedRoutes, false, []))
  }

  lemma AfterOneMore(c: Course, i: nat, n: nat, m: Marker, results: Ledger.Pairs)
    requires i < |c.approved|
    ensures var (before, stopped) := After(c, i, n, m, results);
            var next := RunRoute(n, c.outside, c.run, c.approved[i], m.checkpoints, results, before);
            !stopped && next.Some? ==> After(c, i + 1, n, m, results) == (next.value, false)
  {
    assert c.approved[..i + 1][..i] == c.approved[..i];
  }

  ghost predicate HalfwayAfter(c: Course, i: nat, n: nat, m: Marker, results: Ledger.Pairs)
    requires Fixed(c) && i <= |c.approved|
  {
    var (pass, stopped) := After(c, i, n, m, results);
    !stopped && Halfway(c, c.approved[..i], n, results, pass)
  }

  lemma OneMoreRoute(c: Course, i: nat, n: nat, m: Marker, results: Ledger.Pairs)
    requires Fixed(c) && AllStand(c, n, m, results) && i < |c.approved| && HalfwayAfter(c, i, n, m, results)
    ensures HalfwayAfter(c, i + 1, n, m, results)
  {
    var before := After(c, i, n, m, results).0;
    AfterOneMore(c, i, n, m, results);
    NotYetMet(c, i);
    NextRouteMoves(c, c.approved[..i], c.approved[i], n, m, results, before);
  }

  lemma {:induction false} RoutesMove(c: Course, i: nat, n: nat, m: Marker, results: Ledger.Pairs)
    requires Fixed(c) && AllStand(c, n, m, results) && i <= |c.approved|
    ensures HalfwayAfter(c, i, n, m, results)
  {
    if i > 0 {
      RoutesMove(c, i - 1, n, m, results);
      OneMoreRoute(c, i - 1, n, m, results);
    } else {
      NothingMet(c, n, m, results);
    }
  }

  lemma NothingMet(c: Course, n: nat, m: Marker, results: Ledger.Pairs)
    requires Fixed(c) && AllStand(c, n, m, results)
    ensures HalfwayAfter(c, 0, n, m, results)
  {
    assert c.approved[..0] == [];
    assert Halfway(c, [], n, results, Pass(map[], m.completedRoutes, false, []));
  }

  lemma NotYetMet(c: Course, i: nat)
    requires Fixed(c) && i < |c.approved|
    ensures c.approved[i] !in c.approved[..i] && c.approved[i] in c.approved
    ensures forall s :: s in c.approved[..i] ==> s in c.approved
    ensures c.approved[..i + 1] == c.approved[..i] + [c.approved[i]]
  {
    forall j | 0 <= j < i ensures c.approved[j] != c.approved[i] {
      assert KeyOf(c.approved[j]) != KeyOf(c.approved[i]);
    }
  }

  lemma NextRouteMoves(c: Course, some: seq<Route>, r: Route, n: nat, m: Marker, results: Ledger.Pairs, before: Pass)
    requires Fixed(c) && AllStand(c, n, m, results) && Halfway(c, some, n, results, before) && r in c.approved && r !in some
    requires forall s :: s in some ==> s in c.approved
    ensures var after := RunRoute(n, c.outside, c.run, r, m.checkpoints, results, before);
            after.Some? && Halfway(c, some + [r], n, results, after.value)
  {
    forall s | s in c.approved && s != r ensures KeyOf(s) != KeyOf(r) { KeysTell(c.approved, r, s); }
    assert r.from !in m.checkpoints;
    RouteMoves(c, r, n, m.checkpoints, results, before);
    OneFurther(c, some, r, n, results, before, RunRoute(n, c.outside, c.run, r, m.checkpoints, results, before).value);
  }

  // A batch takes every route to its next stand and has more to do while one is open.
  lemma BatchMoves(c: Course, n: nat, m: Marker, results: Ledger.Pairs)
    requires Fixed(c) && AllStand(c, n, m, results)
    ensures var outcome := RunBatch(n, c.outside, c.run, c.approved, m, results);
            && outcome.Batch? && AllStand(c, n + 1, outcome.marker, Wrote(results, c.run, outcome.written))
            && (outcome.hasMore <==> exists r :: r in c.approved && !Closed(c, r, n + 1))
  {
    assert c.approved == c.approved[..|c.approved|];
    RoutesMove(c, |c.approved|, n, m, results);
  }

  // -- When the marker stands still -----------------------------------------------------------------------

  // Where two neighbouring cursors are the same, all later ones are.
  lemma {:induction false} SameCursorSameWay(outside: Outside, r: Route, i: nat, d: nat)
    ensures CursorAfter(outside, r, i) == CursorAfter(outside, r, i + 1) ==> CursorAfter(outside, r, i + d) == CursorAfter(outside, r, i + d + 1)
  {
    if d > 0 { SameCursorSameWay(outside, r, i, d - 1); }
  }

  lemma LastPageDiffers(outside: Outside, r: Route, k: nat)
    requires Paged(outside, r, k) && k >= 2
    ensures PageAt(outside, r, k - 2) != PageAt(outside, r, k - 1)
  {
    var i: nat := k - 2;
    assert !IsLast(PageAt(outside, r, i).value);
  }

  lemma CursorsDiffer(outside: Outside, r: Route, k: nat, i: nat)
    requires i + 1 < k && PageAt(outside, r, k - 2) != PageAt(outside, r, k - 1)
    ensures CursorAfter(outside, r, i) != CursorAfter(outside, r, i + 1)
  {
    var d: nat := k - 2 - i;
    SameCursorSameWay(outside, r, i, d);
    assert i + d == k - 2;
  }

  // The route's part of the marker is the same before and after the batch.
  ghost predicate Rests(c: Course, r: Route, n: nat) {
    Closed(c, r, n) || (Lacking(c, r) && c.pages(r) == 1)
  }

  // An open route that is read in several pages has another cursor after each batch.
  lemma CursorMoves(c: Course, r: Route, n: nat, checkpoints: map<string, string>, next: map<string, string>)
    requires Fixed(c) && r in c.approved && !Closed(c, r, n + 1) && c.pages(r) > 1
    requires CursorStands(c, r, n, checkpoints) && CursorStands(c, r, n + 1, next)
    ensures checkpoints != next
  {
    var k := c.pages(r);
    Around(n, k);
    if n % k + 1 < k {
      LastPageDiffers(c.outside, r, k);
      CursorsDiffer(c.outside, r, k, n % k);
    }
  }

  lemma MarkerMoves(c: Course, r: Route, n: nat, m: Marker, results: Ledger.Pairs, next: Marker, after: Ledger.Pairs)
    requires Fixed(c) && AllStand(c, n, m, results) && AllStand(c, n + 1, next, after)
    requires r in c.approved && !Rests(c, r, n)
    ensures next != m
  {
    assert Stands(c, r, n, m.checkpoints, m.completedRoutes, results) && Stands(c, r, n + 1, next.checkpoints, next.completedRoutes, after);
    if !Closed(c, r, n + 1) { CursorMoves(c, r, n, m.checkpoints, next.checkpoints); }
  }

  lemma MarkerRests(c: Course, n: nat, m: Marker, results: Ledger.Pairs, next: Marker, after: Ledger.Pairs)
    requires Fixed(c) && AllStand(c, n, m, results) && AllStand(c, n + 1, next, after)
    requires forall r :: r in c.approved ==> Rests(c, r, n)
    ensures next == m
  {
    forall r | r in c.approved ensures KeyOf(r) !in m.checkpoints && KeyOf(r) !in next.checkpoints
                                    && (KeyOf(r) in m.completedRoutes <==> KeyOf(r) in next.completedRoutes) {
      assert Stands(c, r, n, m.checkpoints, m.completedRoutes, results) && Stands(c, r, n + 1, next.checkpoints, next.completedRoutes, after);
      assert n % 1 == 0 && (n + 1) % 1 == 0;
    }
    assert m.checkpoints == map[] && next.checkpoints == map[];
    assert m.completedRoutes == next.completedRoutes;
  }

  // -- The whole apply ------------------------------------------------------------------------------------

  ghost predicate AnyLacking(c: Course) {
    exists r :: r in c.approved && Lacking(c, r)
  }

  // A route with a lost candidate is read in more than one page.
  ghost predicate GoesRound(c: Course) {
    exists r :: r in c.approved && Lacking(c, r) && c.pages(r) != 1
  }

  ghost predicate AllClosed(c: Course, n: nat) {
    forall r :: r in c.approved ==> Closed(c, r, n)
  }

  ghost predicate AllRest(c: Course, n: nat) {
    forall r :: r in c.approved ==> Rests(c, r, n)
  }

  // The n-th turn: finished, stalled, or on to the next stand.
  ghost predicate TurnTaken(c: Course, attempt: string, n: nat, turn: Turn)
    requires Fixed(c)
  {
    if AllClosed(c, n + 1) then turn.Over? && turn.result == Finished
    else if AllRest(c, n) then turn.Over? && turn.result == Stalled
    else turn.Next? && turn.entry.attemptId == Some(attempt) && Ours(turn.then_.row, attempt)
         && AllStand(c, n + 1, turn.entry.marker, turn.then_.results)
  }

  lemma TurnMoves(c: Course, world: World, attempt: string, entry: Entry, n: nat, p: Progress)
    requires Fixed(c) && Calm(world) && RunsBatches(world, c.outside, c.run)
    requires Ours(p.row, attempt) && entry.attemptId == Some(attempt) && AllStand(c, n, entry.marker, p.results)
    ensures TurnTaken(c, attempt, n, OneTurn(world, c.run, c.approved, attempt, entry, n, p))
  {
    CalmTurn(world, c.run, c.approved, attempt, entry, n, p);
    var outcome := world.batch(n, c.approved, entry.marker, p.results);
    assert outcome == RunBatch(n, c.outside, c.run, c.approved, entry.marker, p.results);
    BatchMoves(c, n, entry.marker, p.results);
    var after := Wrote(p.results, c.run, outcome.written);
    if AllRest(c, n) {
      MarkerRests(c, n, entry.marker, p.results, outcome.marker, after);
    } else {
      var r :| r in c.approved && !Rests(c, r, n);
      MarkerMoves(c, r, n, entry.marker, p.results, outcome.marker, after);
    }
  }

  // A route that goes round is never closed and never rests; without one, all do after the longest route.
  lemma RoundOrRest(c: Course, n: nat, most: nat)
    requires Fixed(c) && forall r :: r in c.approved ==> c.pages(r) <= most
    ensures GoesRound(c) ==> !AllClosed(c, n + 1) && !AllRest(c, n)
    ensures !GoesRound(c) && n >= most ==> AllRest(c, n)
    ensures AllClosed(c, n + 1) ==> !AnyLacking(c)
    ensures AllRest(c, n) && !AnyLacking(c) ==> AllClosed(c, n + 1)
  {
    if GoesRound(c) {
      var r :| r in c.approved && Lacking(c, r) && c.pages(r) != 1;
      assert !Closed(c, r, n + 1) && !Rests(c, r, n);
    }
    if AnyLacking(c) {
      var r :| r in c.approved && Lacking(c, r);
      assert !Closed(c, r, n + 1);
    }
  }

  // The drive before its n-th turn.
  ghost predicate Underway(c: Course, attempt: string, n: nat, entry: Entry, p: Progress) {
    Fixed(c) && Ours(p.row, attempt) && entry.attemptId == Some(attempt) && AllStand(c, n, entry.marker, p.results)
  }

  ghost function Stand(c: Course, attempt: string): (nat, Entry, Progress) -> bool {
    (n: nat, e: Entry, q: Progress) => Underway(c, attempt, n, e, q)
  }

  function Outcome(lacking: bool): Driven { if lacking then Stalled else Finished }

  lemma UnderwayTurn(c: Course, world: World, attempt: string, n: nat, entry: Entry, p: Progress, most: nat)
    requires Calm(world) && RunsBatches(world, c.outside, c.run) && Underway(c, attempt, n, entry, p)
    requires forall r :: r in c.approved ==> c.pages(r) <= most
    ensures var turn := OneTurn(world, c.run, c.approved, attempt, entry, n, p);
            if GoesRound(c) then StepOn(Stand(c, attempt), n, turn)
            else StepTo(Stand(c, attempt), n, turn, most, Outcome(AnyLacking(c)))
  {
    TurnMoves(c, world, attempt, entry, n, p);
    RoundOrRest(c, n, most);
  }

  lemma WaysOn(c: Course, world: World, attempt: string, most: nat)
    requires Calm(world) && RunsBatches(world, c.outside, c.run) && forall r :: r in c.approved ==> c.pages(r) <= most
    ensures GoesRound(c) ==> StepsOn(world, c.run, c.approved, attempt, Stand(c, attempt))
    ensures !GoesRound(c) ==> StepsTo(world, c.run, c.approved, attempt, Stand(c, attempt), most, Outcome(AnyLacking(c)))
  {
    if GoesRound(c) {
      forall n: nat, e, q | Stand(c, attempt)(n, e, q) ensures StepOn(Stand(c, attempt), n, OneTurn(world, c.run, c.approved, attempt, e, n, q)) {
        UnderwayTurn(c, world, attempt, n, e, q, most);
      }
    } else {
      forall n: nat, e, q | Stand(c, attempt)(n, e, q)
        ensures StepTo(Stand(c, attempt), n, OneTurn(world, c.run, c.approved, attempt, e, n, q), most, Outcome(AnyLacking(c)))
      {
        UnderwayTurn(c, world, attempt, n, e, q, most);
      }
    }
  }

  // The loop, whichever way the routes go.
  ghost predicate Goes(c: Course, world: World, attempt: string, entry: Entry, p: Progress, most: nat) {
    if GoesRound(c) then forall fuel: nat :: Loop(world, c.run, c.approved, attempt, entry, 0, p, fuel) == None
    else EndsAs(Loop(world, c.run, c.approved, attempt, entry, 0, p, most + 1), Outcome(AnyLacking(c)))
  }

  lemma LoopGoes(c: Course, world: World, attempt: string, stands: (nat, Entry, Progress) -> bool, entry: Entry, p: Progress, most: nat)
    requires GoesRound(c) ==> StepsOn(world, c.run, c.approved, attempt, stands)
    requires !GoesRound(c) ==> StepsTo(world, c.run, c.approved, attempt, stands, most, Outcome(AnyLacking(c)))
    requires stands(0, entry, p)
    ensures Goes(c, world, attempt, entry, p, most)
  {
    if GoesRound(c) {
      forall fuel: nat ensures Loop(world, c.run, c.approved, attempt, entry, 0, p, fuel) == None {
        LoopNeverEnds(world, c.run, c.approved, attempt, stands, entry, 0, p, fuel);
      }
    } else {
      LoopEndsAs(world, c.run, c.approved, attempt, stands, entry, 0, p, most, Outcome(AnyLacking(c)));
    }
  }

  lemma DriveGoes(c: Course, world: World, attempt: string, p: Progress, most: nat)
    requires Fixed(c) && Calm(world) && RunsBatches(world, c.outside, c.run)
    requires p.results == c.first && StartMarker(p.row) == Marker(map[], {}) && BeginRow(p.row, attempt, c.approved, world).0.Ready?
    requires forall r :: r in c.approved ==> c.pages(r) <= most
    ensures var (begun, row) := BeginRow(p.row, attempt, c.approved, world); Goes(c, world, attempt, begun.entry, p.(row := row), most)
  {
    CalmBegin(p.row, attempt, c.approved, world);
    var (begun, row) := BeginRow(p.row, attempt, c.approved, world);
    AtTheStart(c, begun.entry.marker);
    WaysOn(c, world, attempt, most);
    LoopGoes(c, world, attempt, Stand(c, attempt), begun.entry, p.(row := row), most);
  }

  /** A first apply over a source that does not change ends if and only if every route that lacks a
      candidate, one that the source no longer has and the results never had, is read in a single page.
      It then takes at most one batch more than the longest route has pages, and is finished exactly
      if nothing is lacking. */
  lemma EndsIffLostRoutesHaveOnePage(c: Course, world: World, attempt: string, p: Progress, most: nat)
    requires Fixed(c) && Calm(world) && RunsBatches(world, c.outside, c.run)
    requires p.results == c.first && StartMarker(p.row) == Marker(map[], {}) && BeginRow(p.row, attempt, c.approved, world).0.Ready?
    requires forall r :: r in c.approved ==> c.pages(r) <= most
    ensures Stops(world, c.run, c.approved, attempt, p)
       <==> forall r :: r in c.approved && Lacking(c, r) ==> c.pages(r) == 1
    ensures Stops(world, c.run, c.approved, attempt, p) ==>
              EndsAs(Driving(world, c.run, c.approved, attempt, p, most + 1), Outcome(AnyLacking(c)))
  {
    DriveGoes(c, world, attempt, p, most);
    if GoesRound(c) {
      forall fuel: nat ensures Driving(world, c.run, c.approved, attempt, p, fuel) == None {
      }
    } else {
      assert Driving(world, c.run, c.approved, attempt, p, most + 1).Some?;
    }
  }

  lemma AtTheStart(c: Course, m: Marker)
    requires Fixed(c) && m == Marker(map[], {})
    ensures AllStand(c, 0, m, c.first)
  {
  }

  // -- The smallest apply that goes round -----------------------------------------------------------------

  // Record "2" was approved and has gone from the source since; what is left fills two pages.
  const Deals: Route := Route("deals", "deals", ["id"], ["1", "2"])

  const TwoPages: Outside := Outside(
    (_, _, cursor) => Some(if cursor == None then Page(["1"], true, "c") else Page(["3"], false, "")),
    (_, _, _, _) => Ledger.Row(None, Ledger.Created, None))

  function Onto(outside: Outside, run: string): World {
    World((n: nat, approved, m, results) => RunBatch(n, outside, run, approved, m, results), _ => Nothing, _ => false)
  }

  function Two(r: Route): nat { 2 }

  function Gone(run: string): Course { Course(TwoPages, run, [Deals], Two, map[]) }

  lemma TwoPagesAreFixed(run: string)
    ensures var c := Gone(run); Fixed(c) && Lacking(c, Deals) && GoesRound(c)
  {
    var c := Gone(run);
    assert CursorAfter(TwoPages, Deals, 0) == "" && CursorOf("") == None;
    assert PageAt(TwoPages, Deals, 0) == Some(Page(["1"], true, "c"));
    assert CursorAfter(TwoPages, Deals, 1) == "c" && Candidates.Strip("c") == "c" && CursorOf("c") == Some("c");
    assert PageAt(TwoPages, Deals, 1) == Some(Page(["3"], false, ""));
    assert Paged(TwoPages, Deals, 2) by {
      forall i: nat | i < 2 ensures PageAt(TwoPages, Deals, i).Some? { assert i == 0 || i == 1; }
    }
    assert Lost(c, Deals, "2") by {
      forall i: nat | i < 2 && PageAt(TwoPages, Deals, i).Some? ensures "2" !in PageAt(TwoPages, Deals, i).value.identities {
        assert i == 0 || i == 1;
      }
    }
    assert Deals.candidates[1] == "2";
    assert KeyOf(Deals) != "deals" by { assert |KeyOf(Deals)| == 11; }
    assert Deals in c.approved && c.pages(Deals) == 2;
  }

  /** One approved record deleted from a source of two pages, and the first apply never ends. */
  lemma DeletedRecordNeverStalls(run: string, attempt: string)
    ensures !Stops(Onto(TwoPages, run), run, [Deals], attempt, Progress(None, map[], 0, []))
  {
    var c := Gone(run);
    TwoPagesAreFixed(run);
    var p := Progress(None, map[], 0, []);
    EndsIffLostRoutesHaveOnePage(c, Onto(TwoPages, run), attempt, p, 2);
  }
}
