/**
 What an applied run has brought: which records a drive may write, when every approved candidate has
 arrived, and what verification by counting makes of a run whose plan was replaced.
 */
module MigrationArrival {
  import opened Basics
  import opened Ordering
  import opened MigrationRuns
  import opened RouteBatches
  import Ledger

  // -- Over a whole drive ---------------------------------------------------------------------------------

  // Every route completed since the start has all its candidates, and only open candidates were written.
  ghost predicate Accounted(run: string, approved: Approved, start: set<string>, first: Ledger.Pairs, marker: Marker, results: Ledger.Pairs) {
    && start <= marker.completedRoutes
    && (forall r :: r in approved && KeyOf(r) in marker.completedRoutes && KeyOf(r) !in start ==> AllArrived(results, run, r))
    && Touched(first, results, run, approved, start)
  }

  // Every route that was open at the start has all its candidates.
  ghost predicate OpenArrived(run: string, approved: Approved, start: set<string>, results: Ledger.Pairs) {
    forall r :: r in approved && KeyOf(r) !in start ==> AllArrived(results, run, r)
  }

  lemma ArrivedStays(before: Ledger.Pairs, after: Ledger.Pairs, run: string, approved: Approved, skipped: set<string>, r: Route)
    requires Touched(before, after, run, approved, skipped) && AllArrived(before, run, r)
    ensures AllArrived(after, run, r)
  {
    forall i | 0 <= i < |r.candidates| ensures Arrived(after, run, r, r.candidates[i]) {
      assert Arrived(before, run, r, r.candidates[i]);
    }
  }

  lemma FewerSkipped(written: seq<Written>, run: string, approved: Approved, skipped: set<string>, fewer: set<string>)
    requires WrittenFor(written, run, approved, skipped) && fewer <= skipped
    ensures WrittenFor(written, run, approved, fewer)
  {
    forall i | 0 <= i < |written| ensures Touchable(Ledger.PairKey(run, written[i].from, written[i].to, written[i].entry.source), run, approved, fewer) {
      var w := written[i];
      var r :| r in approved && KeyOf(r) !in skipped && w.from == r.from && w.to == r.to && w.entry.source in r.candidates;
      assert KeyOf(r) !in fewer;
    }
  }

  lemma BatchAccounts(n: nat, outside: Outside, run: string, approved: Approved, start: set<string>, first: Ledger.Pairs, m: Marker, results: Ledger.Pairs)
    requires DistinctKeys(approved, KeyOf) && Accounted(run, approved, start, first, m, results)
    ensures var outcome := RunBatch(n, outside, run, approved, m, results);
            var after := Wrote(results, run, outcome.written);
            && Accounted(run, approved, start, first, outcome.marker, after)
            && (outcome.Batch? && !outcome.hasMore ==> OpenArrived(run, approved, start, after))
  {
    var outcome := RunBatch(n, outside, run, approved, m, results);
    var after := Wrote(results, run, outcome.written);
    RoutesAreHonest(n, outside, run, approved, m.checkpoints, m.completedRoutes, results);
    FewerSkipped(outcome.written, run, approved, m.completedRoutes, start);
    WroteTouches(results, run, outcome.written, approved, start);
    forall r | r in approved && KeyOf(r) in outcome.marker.completedRoutes && KeyOf(r) !in start ensures AllArrived(after, run, r) {
      if KeyOf(r) in m.completedRoutes { ArrivedStays(results, after, run, approved, start, r); }
    }
  }

  // How a drive may leave the results.
  ghost predicate LeftResults(run: string, approved: Approved, start: set<string>, first: Ledger.Pairs, result: Driven, results: Ledger.Pairs) {
    Touched(first, results, run, approved, start) && (result == Finished ==> OpenArrived(run, approved, start, results))
  }

  ghost predicate TurnAccounted(run: string, approved: Approved, start: set<string>, first: Ledger.Pairs, turn: Turn) {
    match turn
    case Over(result, end) => LeftResults(run, approved, start, first, result, end.results)
    case Next(next, then_) => Accounted(run, approved, start, first, next.marker, then_.results)
  }

  lemma TurnAccounts(world: World, outside: Outside, run: string, approved: Approved, attempt: string, start: set<string>, first: Ledger.Pairs, entry: Entry, n: nat, p: Progress)
    requires RunsBatches(world, outside, run) && DistinctKeys(approved, KeyOf)
    requires Accounted(run, approved, start, first, entry.marker, p.results)
    ensures TurnAccounted(run, approved, start, first, OneTurn(world, run, approved, attempt, entry, n, p))
  {
    BatchAccounts(n, outside, run, approved, start, first, entry.marker, p.results);
    var outcome := world.batch(n, approved, entry.marker, p.results);
    assert outcome == RunBatch(n, outside, run, approved, entry.marker, p.results);
  }

  lemma {:induction false} LoopAccounts(world: World, outside: Outside, run: string, approved: Approved, attempt: string, start: set<string>, first: Ledger.Pairs, entry: Entry, n: nat, p: Progress, fuel: nat)
    requires RunsBatches(world, outside, run) && DistinctKeys(approved, KeyOf)
    requires Accounted(run, approved, start, first, entry.marker, p.results)
    requires Loop(world, run, approved, attempt, entry, n, p, fuel).Some?
    ensures var (result, end) := Loop(world, run, approved, attempt, entry, n, p, fuel).value;
            LeftResults(run, approved, start, first, result, end.results)
    decreases fuel
  {
    TurnAccounts(world, outside, run, approved, attempt, start, first, entry, n, p);
    var turn := OneTurn(world, run, approved, attempt, entry, n, p);
    if turn.Next? {
      LoopAccounts(world, outside, run, approved, attempt, start, first, turn.entry, n + 1, turn.then_, fuel - 1);
    }
  }

  // The routes that a drive from this journal does not open.
  predicate Skipped(row: Option<Row>, r: Route) {
    Done(row) || KeyOf(r) in StartMarker(row).completedRoutes
  }

  lemma {:induction false} DriveAccounts(world: World, outside: Outside, run: string, approved: Approved, attempt: string, p: Progress, fuel: nat)
    requires RunsBatches(world, outside, run) && DistinctKeys(approved, KeyOf) && p.trace == []
    requires Driving(world, run, approved, attempt, p, fuel).Some?
    ensures var (result, end) := Driving(world, run, approved, attempt, p, fuel).value;
            && Touched(p.results, end.results, run, approved, StartMarker(p.row).completedRoutes)
            && (Done(p.row) ==> end.results == p.results)
            && (result == Finished && !Done(p.row) ==> OpenArrived(run, approved, StartMarker(p.row).completedRoutes, end.results))
  {
    DrivesKeepTheirPromises(world, run, approved, attempt, p, fuel);
    BeginKeeps(p.row, attempt, approved, world);
    var (begun, row) := BeginRow(p.row, attempt, approved, world);
    if begun.Ready? {
      LoopAccounts(world, outside, run, approved, attempt, StartMarker(p.row).completedRoutes, p.results, begun.entry, 0, p.(row := row), fuel);
    }
  }

  /** A drive writes no record but approved candidates of routes that its journal had left open, and
      loses no terminal result, however it ends. */
  lemma OnlyCandidatesAreWritten(world: World, outside: Outside, run: string, approved: Approved, attempt: string, p: Progress, fuel: nat, k: Ledger.PairKey)
    requires RunsBatches(world, outside, run) && DistinctKeys(approved, KeyOf) && p.trace == []
    requires Driving(world, run, approved, attempt, p, fuel).Some?
    ensures var after := Driving(world, run, approved, attempt, p, fuel).value.1.results;
            && (Ledger.At(after, k) != Ledger.At(p.results, k) ==>
                  k.run == run && exists r :: r in approved && !Skipped(p.row, r) && k.from == r.from && k.to == r.to && k.source in r.candidates)
            && (k in p.results && Ledger.Terminal(p.results[k].status) ==> k in after && Ledger.Terminal(after[k].status))
  {
    DriveAccounts(world, outside, run, approved, attempt, p, fuel);
    var after := Driving(world, run, approved, attempt, p, fuel).value.1.results;
    if Ledger.At(after, k) != Ledger.At(p.results, k) {
      assert Touchable(k, run, approved, StartMarker(p.row).completedRoutes);
      var r :| r in approved && KeyOf(r) !in StartMarker(p.row).completedRoutes && k.from == r.from && k.to == r.to && k.source in r.candidates;
      assert !Skipped(p.row, r);
    }
  }

  /** A finished drive has brought every approved candidate exactly if those of the routes it skipped,
      because the journal already called them completed, had arrived before: the journal remembers
      routes, not which candidates they were completed for. */
  lemma AppliedBringsAllIffSkippedHadArrived(world: World, outside: Outside, run: string, approved: Approved, attempt: string, p: Progress, fuel: nat)
    requires RunsBatches(world, outside, run) && DistinctKeys(approved, KeyOf) && p.trace == []
    requires Driving(world, run, approved, attempt, p, fuel).Some? && Driving(world, run, approved, attempt, p, fuel).value.0 == Finished
    ensures var after := Driving(world, run, approved, attempt, p, fuel).value.1.results;
            ((forall r :: r in approved ==> AllArrived(after, run, r))
             <==> (forall r :: r in approved && Skipped(p.row, r) ==> AllArrived(p.results, run, r)))
  {
    DriveAccounts(world, outside, run, approved, attempt, p, fuel);
    var after := Driving(world, run, approved, attempt, p, fuel).value.1.results;
    var start := StartMarker(p.row).completedRoutes;
    forall r | r in approved && Skipped(p.row, r) ensures AllArrived(after, run, r) <==> AllArrived(p.results, run, r) {
      SkippedIsUnchanged(run, approved, start, p.results, after, r, Done(p.row));
    }
  }

  lemma SkippedIsUnchanged(run: string, approved: Approved, start: set<string>, before: Ledger.Pairs, after: Ledger.Pairs, r: Route, done: bool)
    requires Touched(before, after, run, approved, start) && (done ==> after == before) && (done || KeyOf(r) in start)
    ensures AllArrived(after, run, r) <==> AllArrived(before, run, r)
  {
    forall i | 0 <= i < |r.candidates| ensures Arrived(after, run, r, r.candidates[i]) <==> Arrived(before, run, r, r.candidates[i]) {
      var k := Ledger.PairKey(run, r.from, r.to, r.candidates[i]);
      if !done {
        assert !Touchable(k, run, approved, start) by {
          forall s | s in approved && KeyOf(s) !in start ensures !(k.from == s.from && k.to == s.to) {
            assert KeyOf(s) != KeyOf(r);
          }
        }
        assert Ledger.At(after, k) == Ledger.At(before, k);
      }
    }
  }
}
