/**
 Planning again after an apply. The completed journal answers the second apply before any scope is
 compared, so the run reads applied for a plan of which nothing was run; what verification then makes
 of the new plan depends on its number of candidates alone.
 */
module MigrationReplan {
  import opened Basics
  import opened Ordering
  import opened PlanPayload
  import opened MigrationRuns
  import opened MigrationProgress
  import opened RouteBatches
  import opened MigrationArrival
  import opened MigrationPages
  import Candidates
  import Ledger

  // The first apply of a run: nothing in the journal, and nothing yet brought for the route.
  ghost predicate FirstApply(world: World, outside: Outside, run: string, approved: Approved, attempt: string, p: Progress, fuel: nat, r: Route) {
    && RunsBatches(world, outside, run) && DistinctKeys(approved, KeyOf) && p.trace == [] && p.row == None
    && EndsAs(Driving(world, run, approved, attempt, p, fuel), Finished)
    && r in approved && Ledger.PairRows(p.results, run, r.from, r.to) == {}
  }

  /** A first apply that finishes brings exactly the approved candidates, each in a terminal status. */
  lemma FirstApplyBringsExactly(world: World, outside: Outside, run: string, approved: Approved, attempt: string, p: Progress, fuel: nat, r: Route)
    requires FirstApply(world, outside, run, approved, attempt, p, fuel, r)
    ensures var after := Driving(world, run, approved, attempt, p, fuel).value.1.results;
            && Ledger.PairTerminal(after, run, r.from, r.to) == Elements(r.candidates)
            && Ledger.Sources(Ledger.PairRows(after, run, r.from, r.to), Ledger.PairSource) <= Elements(r.candidates)
            && Ledger.PairCounts(after, run, r.from, r.to)[Ledger.Failed] == 0
  {
    var after := Driving(world, run, approved, attempt, p, fuel).value.1.results;
    DriveAccounts(world, outside, run, approved, attempt, p, fuel);
    assert AllArrived(after, run, r);
    var rows := Ledger.PairRows(after, run, r.from, r.to);
    forall k | k in rows ensures k.source in r.candidates {
      assert k in p.results ==> k in Ledger.PairRows(p.results, run, r.from, r.to);
      assert Ledger.At(after, k) != Ledger.At(p.results, k);
      var s :| s in approved && k.from == s.from && k.to == s.to && k.source in s.candidates;
      if s != r { KeysTell(approved, r, s); }
    }
    forall id | id in r.candidates ensures id in Ledger.PairTerminal(after, run, r.from, r.to) {
      var i :| 0 <= i < |r.candidates| && r.candidates[i] == id;
      assert Arrived(after, run, r, r.candidates[i]);
      var k := Ledger.PairKey(run, r.from, r.to, id);
      assert k in Ledger.WithStatus(rows, after, Ledger.TERMINAL) by {
        match after[k].status case Created => case Updated => case Skipped => case Failed =>
      }
      assert Ledger.PairSource(k) == id;
    }
    Ledger.NoneFailed(after, run, r.from, r.to);
  }

  /** Whatever is planned for the route afterwards, that plan's apply runs nothing and the route verifies
      exactly if the new candidates are as many as the old; all of them have arrived exactly if each is
      an old one. */
  lemma ReplannedRouteVerifiesByCount(world: World, outside: Outside, run: string, approved: Approved, attempt: string, p: Progress, fuel: nat, r: Route,
                                      others: seq<string>, ledger: Ledger.Routes, pairs: seq<(string, string)>)
    requires FirstApply(world, outside, run, approved, attempt, p, fuel, r) && r.candidates != []
    requires DistinctKeys(r.candidates, Itself) && DistinctKeys(others, Itself) && Ledger.Plain(r.from) && Ledger.Plain(r.to)
    requires Ledger.Groups(Driving(world, run, approved, attempt, p, fuel).value.1.results, run, pairs)
    ensures var after := Driving(world, run, approved, attempt, p, fuel).value.1;
            && (forall replanned, later, w, more: nat :: Driving(w, run, replanned, later, after.(trace := []), more).Some? ==>
                  Driving(w, run, replanned, later, after.(trace := []), more).value.1.results == after.results)
            && (Ledger.RouteVerified(Ledger.Summary(ledger, after.results, run, pairs, KeyOf(r)), others) <==> |others| == |r.candidates|)
            && (Elements(others) <= Ledger.PairTerminal(after.results, run, r.from, r.to) <==> Elements(others) <= Elements(r.candidates))
  {
    var after := Driving(world, run, approved, attempt, p, fuel).value.1;
    FirstApplyBringsExactly(world, outside, run, approved, attempt, p, fuel, r);
    DrivesKeepTheirPromises(world, run, approved, attempt, p, fuel);
    forall replanned, later, w, more: nat | Driving(w, run, replanned, later, after.(trace := []), more).Some?
      ensures Driving(w, run, replanned, later, after.(trace := []), more).value.1.results == after.results
    {
      DrivesKeepTheirPromises(w, run, replanned, later, after.(trace := []), more);
    }
    Ledger.PlainPairsAreAlone(after.results, run, r.from, r.to);
    RowsAreThere(after.results, run, r);
    Ledger.SummaryOfAPair(ledger, after.results, run, pairs, r.from, r.to);
    Ledger.SummaryCounts(ledger, after.results, run, pairs, r.from, r.to);
    Ledger.DistinctCount(r.candidates);
  }

  lemma RowsAreThere(results: Ledger.Pairs, run: string, r: Route)
    requires Ledger.PairTerminal(results, run, r.from, r.to) == Elements(r.candidates) && r.candidates != []
    ensures Ledger.PairRows(results, run, r.from, r.to) != {}
  {
    assert r.candidates[0] in Ledger.PairTerminal(results, run, r.from, r.to);
  }

  // -- The smallest such run ------------------------------------------------------------------------------

  // A plan for one record of one route.
  function PlanFor(id: string): MigrationPlan {
    MigrationPlan("crm", "sanka", [RoutePlan("deals|deals", "deals", "deals", "deal", "id", [], [], 1, "auto", [id])], [], map[], Some(id))
  }

  function DealsFor(id: string): Route { Route("deals", "deals", [], [id]) }

  lemma ApprovalOf(id: string)
    requires |id| == 1 && !IsSpace(id[0])
    ensures Approval(PlanFor(id)) == [DealsFor(id)] && RoutesFit(PlanFor(id))
  {
    var r := PlanFor(id).routes[0];
    assert Candidates.Strip(id) == id;
    assert Trimmed([id]) == [id] by { assert [id][1..] == []; }
    assert Distinct([id]) == [id] by { assert [id][1..] == []; }
    assert SortBy([id], Itself) == [id] by { assert [id][1..] == []; }
    assert RouteOf(r) == DealsFor(id);
    assert Approval(PlanFor(id)) == [DealsFor(id)];
    assert Candidates.Strip("deals") == "deals";
    assert KeyOf(DealsFor(id)) == "deals|deals";
  }

  const OnePage: Outside := Outside(
    (_, _, _) => Some(Page(["2"], false, "")),
    (_, _, _, _) => Ledger.Row(None, Ledger.Created, None))

  function One(r: Route): nat { 1 }

  lemma OnePageIsFinished(run: string, attempt: string)
    ensures EndsAs(Driving(Onto(OnePage, run), run, [DealsFor("2")], attempt, Progress(None, map[], 0, []), 2), Finished)
  {
    var c := Course(OnePage, run, [DealsFor("2")], One, map[]);
    var r := DealsFor("2");
    assert PageAt(OnePage, r, 0) == Some(Page(["2"], false, ""));
    assert Paged(OnePage, r, 1);
    assert KeyOf(r) != "deals" by { assert |KeyOf(r)| == 11; }
    assert !Lost(c, r, "2") by { assert OnPages(OnePage, r, 1, "2"); }
    assert !Lacking(c, r);
    EndsIffLostRoutesHaveOnePage(c, Onto(OnePage, run), attempt, Progress(None, map[], 0, []), 1);
  }

  const Empty: Progress := Progress(None, map[], 0, [])

  // Record "1" has not arrived, and its route verifies.
  ghost predicate Misled(run: string, results: Ledger.Pairs) {
    && Ledger.Groups(results, run, [("deals", "deals")])
    && Ledger.RouteVerified(Ledger.Summary(map[], results, run, [("deals", "deals")], "deals|deals"), ["1"])
    && !Arrived(results, run, DealsFor("1"), "1")
  }

  // What the first apply leaves.
  lemma AfterTheFirst(world: World, run: string, attempt: string)
    requires RunsBatches(world, OnePage, run) && EndsAs(Driving(world, run, [DealsFor("2")], attempt, Empty, 2), Finished)
    ensures var end := Driving(world, run, [DealsFor("2")], attempt, Empty, 2).value.1; Done(end.row) && Misled(run, end.results)
  {
    var r := DealsFor("2");
    var end := Driving(world, run, [r], attempt, Empty, 2).value.1;
    DrivesKeepTheirPromises(world, run, [r], attempt, Empty, 2);
    DriveAccounts(world, OnePage, run, [r], attempt, Empty, 2);
    FirstApplyBringsExactly(world, OnePage, run, [r], attempt, Empty, 2, r);
    MisledByOne(run, end.results);
  }

  lemma MisledByOne(run: string, results: Ledger.Pairs)
    requires Touched(map[], results, run, [DealsFor("2")], {})
    requires Ledger.PairTerminal(results, run, "deals", "deals") == Elements(["2"])
    requires Ledger.Sources(Ledger.PairRows(results, run, "deals", "deals"), Ledger.PairSource) <= Elements(["2"])
    requires Ledger.PairCounts(results, run, "deals", "deals")[Ledger.Failed] == 0
    ensures Misled(run, results)
  {
    RowsAreThere(results, run, DealsFor("2"));
    OnlyDealsAreWritten(results, run);
    Ledger.PlainPairsAreAlone(results, run, "deals", "deals");
    Ledger.SummaryOfAPair(map[], results, run, [("deals", "deals")], "deals", "deals");
    Ledger.SummaryCounts(map[], results, run, [("deals", "deals")], "deals", "deals");
    assert Ledger.PairRoute("deals", "deals") == "deals|deals";
    assert Elements(["2"]) == {"2"};
    NotArrived(results, run);
  }

  lemma OnlyDealsAreWritten(results: Ledger.Pairs, run: string)
    requires Touched(map[], results, run, [DealsFor("2")], {}) && Ledger.PairRows(results, run, "deals", "deals") != {}
    ensures Ledger.Groups(results, run, [("deals", "deals")])
  {
    forall k | k in results && k.run == run ensures (k.from, k.to) in [("deals", "deals")] {
      assert Ledger.At(results, k) != Ledger.At(map[], k);
    }
  }

  lemma NotArrived(results: Ledger.Pairs, run: string)
    requires Ledger.Sources(Ledger.PairRows(results, run, "deals", "deals"), Ledger.PairSource) <= Elements(["2"])
    ensures !Arrived(results, run, DealsFor("1"), "1")
  {
    var k := Ledger.PairKey(run, "deals", "deals", "1");
    assert k in results ==> k in Ledger.PairRows(results, run, "deals", "deals") && Ledger.PairSource(k) == "1";
    assert "1" !in Elements(["2"]) by { assert "1"[0] != "2"[0]; }
  }

  // The second apply finds the journal completed.
  lemma TheSecondRunsNothing(run: string, attempt: string, p: Progress)
    requires Done(p.row) && p.trace == []
    ensures Driving(Onto(OnePage, run), run, [DealsFor("1")], attempt, p, 0) == Some((Finished, p))
  {
    var world := Onto(OnePage, run);
    assert !world.dies(0) && world.others(0) == Nothing && Disturbed(p.row, Nothing) == p.row;
    assert BeginRow(p.row, attempt, [DealsFor("1")], world) == (Early(Finished), p.row);
    assert p.(row := p.row) == p;
  }

  // Plan one record and apply the plan.
  method PlanAndApply(run: Run, id: string, attempt: string, ghost fuel: nat) returns (ghost trace: seq<BatchStep>)
    requires run.Valid() && |id| == 1 && !IsSpace(id[0])
    requires EndsAs(Driving(Onto(OnePage, run.id), run.id, [DealsFor(id)], attempt, run.Now([]), fuel), Finished)
    modifies run
    ensures run.Valid() && run.reviewed == Some(PlanFor(id)) && run.status == Applied
    ensures Driving(Onto(OnePage, run.id), run.id, [DealsFor(id)], attempt, old(run.Now([])), fuel) == Some((Finished, run.Now(trace)))
  {
    ApprovalOf(id);
    run.SavePlan(PlanFor(id));
    var result, steps := run.Apply(PlanHash(PlanFor(id)), _ => true, attempt, Onto(OnePage, run.id), false, fuel);
    trace := steps;
  }

  /** Record "2" is planned and applied, then record "1" is planned and applied: the run reads applied for
      the second plan, nothing ran under it, its route verifies, and record "1" never arrived. */
  method PlannedTwice(attempt: string) returns (run: Run, ghost second: seq<BatchStep>)
    ensures fresh(run) && run.Valid() && run.reviewed == Some(PlanFor("1")) && run.status == Applied && second == []
    ensures Misled(run.id, run.results)
  {
    run := new Run("r");
    OnePageIsFinished(run.id, attempt);
    AfterTheFirst(Onto(OnePage, run.id), run.id, attempt);
    var _ := PlanAndApply(run, "2", attempt, 2);
    TheSecondRunsNothing(run.id, attempt, run.Now([]));
    second := PlanAndApply(run, "1", attempt, 0);
  }
}
