/**
 When the apply loop ends.

 The loop stops for review only when a batch leaves its progress marker where the batch before left
 it. For an executor that sees nothing but the marker this is exact: the loop ends if and only if the
 orbit of markers meets a fault, a batch with nothing more to do, or a fixed point, and over k markers
 it then does so within k batches. Markers that come round in a longer cycle are never noticed.
 */
module MigrationProgress {
  import opened Basics
  import opened MigrationRuns
  import Ledger

  // -- Loops that end -------------------------------------------------------------------------------------

  // Every batch that changes the marker and has more to do takes it upwards, within the bound.
  ghost predicate Climbing(world: World, approved: Approved, rank: Marker -> nat, bound: nat) {
    forall n: nat, m, results :: Climbs(world.batch(n, approved, m, results), m, rank, bound)
  }

  predicate Climbs(outcome: BatchOutcome, m: Marker, rank: Marker -> nat, bound: nat) {
    outcome.Batch? && outcome.hasMore && outcome.marker != m ==> rank(m) < rank(outcome.marker) <= bound
  }

  function Left(rank: nat, bound: nat): nat {
    if rank > bound then 1 else bound - rank + 1
  }

  // A turn that is not the last is a batch with more to do at another marker.
  lemma NextMoves(world: World, run: string, approved: Approved, attempt: string, entry: Entry, n: nat, p: Progress)
    requires OneTurn(world, run, approved, attempt, entry, n, p).Next?
    ensures var outcome := world.batch(n, approved, entry.marker, p.results);
            && outcome.Batch? && outcome.hasMore && outcome.marker != entry.marker
            && OneTurn(world, run, approved, attempt, entry, n, p).entry.marker == outcome.marker
            && !world.dies(2 + 2 * n) && !world.dies(2 + 2 * n + 1)
  {
  }

  lemma LoopGoesOn(world: World, run: string, approved: Approved, attempt: string, entry: Entry, n: nat, p: Progress, turn: Turn, fuel: nat)
    requires turn == OneTurn(world, run, approved, attempt, entry, n, p) && 0 < fuel
    ensures Loop(world, run, approved, attempt, entry, n, p, fuel)
         == if turn.Over? then Some((turn.result, turn.end)) else Loop(world, run, approved, attempt, turn.entry, n + 1, turn.then_, fuel - 1)
  {
  }

  // If what follows a turn ends, the loop from that turn on ends.
  lemma StopsAfterTurn(world: World, run: string, approved: Approved, attempt: string, entry: Entry, n: nat, p: Progress, turn: Turn, fuel: nat, more: nat)
    requires turn == OneTurn(world, run, approved, attempt, entry, n, p) && 0 < more
    requires turn.Next? ==> fuel < more && Loop(world, run, approved, attempt, turn.entry, n + 1, turn.then_, fuel).Some?
    ensures Loop(world, run, approved, attempt, entry, n, p, more).Some?
  {
    LoopGoesOn(world, run, approved, attempt, entry, n, p, turn, more);
    if turn.Next? { MoreFuel(world, run, approved, attempt, turn.entry, n + 1, turn.then_, fuel, more - 1); }
  }

  lemma {:induction false} ClimbingLoopStops(world: World, run: string, approved: Approved, attempt: string, entry: Entry, n: nat, p: Progress, rank: Marker -> nat, bound: nat)
    requires Climbing(world, approved, rank, bound)
    ensures Loop(world, run, approved, attempt, entry, n, p, Left(rank(entry.marker), bound)).Some?
    decreases Left(rank(entry.marker), bound)
  {
    var turn := OneTurn(world, run, approved, attempt, entry, n, p);
    if turn.Next? {
      NextMoves(world, run, approved, attempt, entry, n, p);
      assert Climbs(world.batch(n, approved, entry.marker, p.results), entry.marker, rank, bound);
      ClimbingLoopStops(world, run, approved, attempt, turn.entry, n + 1, turn.then_, rank, bound);
    }
    StopsAfterTurn(world, run, approved, attempt, entry, n, p, turn, if turn.Next? then Left(rank(turn.entry.marker), bound) else 0, Left(rank(entry.marker), bound));
  }

  /** Where markers only climb, as checkpoints and completed routes should, every drive ends: after at
      most one batch more than there are ranks left to climb. */
  lemma ClimbingDrivesStop(world: World, run: string, approved: Approved, attempt: string, p: Progress, rank: Marker -> nat, bound: nat)
    requires Climbing(world, approved, rank, bound) && p.trace == []
    ensures var ended := Driving(world, run, approved, attempt, p, Left(rank(StartMarker(p.row)), bound));
            ended.Some? && |ended.value.1.trace| <= Left(rank(StartMarker(p.row)), bound)
  {
    BeginKeeps(p.row, attempt, approved, world);
    var (begun, row) := BeginRow(p.row, attempt, approved, world);
    if begun.Ready? {
      ClimbingLoopStops(world, run, approved, attempt, begun.entry, 0, p.(row := row), rank, bound);
    }
    DrivesKeepTheirPromises(world, run, approved, attempt, p, Left(rank(StartMarker(p.row)), bound));
  }

  lemma {:induction false} KilledLoopStops(world: World, run: string, approved: Approved, attempt: string, entry: Entry, n: nat, p: Progress, k: nat)
    requires world.dies(k) && k >= 2 + 2 * n
    ensures Loop(world, run, approved, attempt, entry, n, p, k - 2 * n).Some?
    decreases k - 2 * n
  {
    var turn := OneTurn(world, run, approved, attempt, entry, n, p);
    if turn.Next? {
      NextMoves(world, run, approved, attempt, entry, n, p);
      KilledLoopStops(world, run, approved, attempt, turn.entry, n + 1, turn.then_, k);
    }
    StopsAfterTurn(world, run, approved, attempt, entry, n, p, turn, if turn.Next? then k - 2 * (n + 1) else 0, k - 2 * n);
  }

  /** A drive whose process is killed ends, whatever its batches do: every finite piece of a drive that
      would go on for ever is such a drive. */
  lemma KilledDrivesStop(world: World, k: nat)
    requires world.dies(k)
    ensures AlwaysStops(world)
  {
    forall run, approved, attempt, p ensures Stops(world, run, approved, attempt, p) {
      var (begun, row) := BeginRow(p.row, attempt, approved, world);
      if begun.Ready? {
        KilledLoopStops(world, run, approved, attempt, begun.entry, 0, p.(row := row), k);
      }
      assert Driving(world, run, approved, attempt, p, k).Some?;
    }
  }

  // -- Reasoning by stands --------------------------------------------------------------------------------

  predicate EndsAs(ended: Option<(Driven, Progress)>, result: Driven) {
    ended.Some? && ended.value.0 == result
  }

  // At every stand the turn goes on to the next stand.
  ghost predicate StepsOn(world: World, run: string, approved: Approved, attempt: string, stands: (nat, Entry, Progress) -> bool) {
    forall i: nat, e, q {:trigger OneTurn(world, run, approved, attempt, e, i, q)} ::
      stands(i, e, q) ==> StepOn(stands, i, OneTurn(world, run, approved, attempt, e, i, q))
  }

  predicate StepOn(stands: (nat, Entry, Progress) -> bool, i: nat, turn: Turn) {
    turn.Next? && stands(i + 1, turn.entry, turn.then_)
  }

  lemma {:induction false} LoopNeverEnds(world: World, run: string, approved: Approved, attempt: string, stands: (nat, Entry, Progress) -> bool, entry: Entry, n: nat, p: Progress, fuel: nat)
    requires StepsOn(world, run, approved, attempt, stands) && stands(n, entry, p)
    ensures Loop(world, run, approved, attempt, entry, n, p, fuel) == None
    decreases fuel
  {
    if fuel > 0 {
      var turn := OneTurn(world, run, approved, attempt, entry, n, p);
      LoopNeverEnds(world, run, approved, attempt, stands, turn.entry, n + 1, turn.then_, fuel - 1);
    }
  }

  // At every stand the turn ends as expected or goes on to the next stand, up to the last.
  ghost predicate StepsTo(world: World, run: string, approved: Approved, attempt: string, stands: (nat, Entry, Progress) -> bool, most: nat, result: Driven) {
    forall i: nat, e, q {:trigger OneTurn(world, run, approved, attempt, e, i, q)} ::
      stands(i, e, q) ==> StepTo(stands, i, OneTurn(world, run, approved, attempt, e, i, q), most, result)
  }

  predicate StepTo(stands: (nat, Entry, Progress) -> bool, i: nat, turn: Turn, most: nat, result: Driven) {
    if turn.Over? then turn.result == result else i < most && stands(i + 1, turn.entry, turn.then_)
  }

  lemma {:induction false} LoopEndsAs(world: World, run: string, approved: Approved, attempt: string, stands: (nat, Entry, Progress) -> bool, entry: Entry, n: nat, p: Progress, most: nat, result: Driven)
    requires StepsTo(world, run, approved, attempt, stands, most, result) && stands(n, entry, p) && n <= most
    ensures EndsAs(Loop(world, run, approved, attempt, entry, n, p, most - n + 1), result)
    decreases most - n
  {
    var turn := OneTurn(world, run, approved, attempt, entry, n, p);
    if turn.Next? { LoopEndsAs(world, run, approved, attempt, stands, turn.entry, n + 1, turn.then_, most, result); }
  }

  // -- Executors that see only the marker -----------------------------------------------------------------

  type Executor = Marker -> BatchOutcome

  // Nobody else touches the journal, and nothing is killed.
  ghost predicate Calm(world: World) {
    (forall n: nat :: world.others(n) == Nothing) && forall n: nat :: !world.dies(n)
  }

  // A batch depends on its marker alone.
  ghost predicate Memoryless(world: World, approved: Approved, exec: Executor) {
    Calm(world) && forall n: nat, m, results :: world.batch(n, approved, m, results) == exec(m)
  }

  // The journal is this attempt's to write.
  predicate Ours(row: Option<Row>, attempt: string) {
    row.Some? ==> row.value.attemptId == Some(attempt) && !Cancellation(row.value)
  }

  // A turn of a calm world ends with the fault, the stall or the completion of its batch, or goes on.
  lemma CalmTurn(world: World, run: string, approved: Approved, attempt: string, entry: Entry, n: nat, p: Progress)
    requires Calm(world) && Ours(p.row, attempt) && entry.attemptId == Some(attempt)
    ensures var turn := OneTurn(world, run, approved, attempt, entry, n, p);
            var outcome := world.batch(n, approved, entry.marker, p.results);
            if outcome.Fault? then turn.Over? && turn.result == Faulted
            else if !outcome.hasMore then turn.Over? && turn.result == Finished
            else if outcome.marker == entry.marker then turn.Over? && turn.result == Stalled
            else turn.Next? && turn.entry.marker == outcome.marker && turn.entry.attemptId == Some(attempt) && Ours(turn.then_.row, attempt)
                 && turn.then_.results == Wrote(p.results, run, outcome.written)
  {
    assert !world.dies(2 + 2 * n) && !world.dies(2 + 2 * n + 1);
    assert world.others(2 + 2 * n + 1) == Nothing;
  }

  // Beginning leaves the journal ours.
  lemma CalmBegin(row: Option<Row>, attempt: string, approved: Approved, world: World)
    requires Calm(world) && BeginRow(row, attempt, approved, world).0.Ready?
    ensures var (begun, after) := BeginRow(row, attempt, approved, world);
            Ours(after, attempt) && begun.entry.attemptId == Some(attempt) && begun.entry.marker == StartMarker(row)
  {
    BeginKeeps(row, attempt, approved, world);
    assert world.others(0) == Nothing && world.others(1) == Nothing;
  }

  // The loop ends at this marker: a fault, nothing more to do, or no progress.
  predicate Halts(exec: Executor, m: Marker) {
    var outcome := exec(m);
    outcome.Fault? || !outcome.hasMore || outcome.marker == m
  }

  // The marker after so many batches.
  function Orbit(exec: Executor, start: Marker, n: nat): Marker {
    if n == 0 then start else exec(Orbit(exec, start, n - 1)).marker
  }

  ghost predicate HaltsBetween(exec: Executor, start: Marker, n: nat, end: nat) {
    exists i: nat :: n <= i < end && Halts(exec, Orbit(exec, start, i))
  }

  ghost predicate HaltsWithin(exec: Executor, start: Marker, n: nat) {
    HaltsBetween(exec, start, 0, n)
  }

  ghost predicate EverHalts(exec: Executor, start: Marker) {
    exists i: nat :: Halts(exec, Orbit(exec, start, i))
  }

  // The loop from its n-th turn on ends within so many turns if and only if the orbit halts within them.
  lemma {:induction false} LoopFollowsOrbit(world: World, run: string, approved: Approved, attempt: string, start: Marker, entry: Entry, n: nat, p: Progress, exec: Executor, fuel: nat)
    requires Memoryless(world, approved, exec) && Ours(p.row, attempt) && entry.attemptId == Some(attempt)
    requires entry.marker == Orbit(exec, start, n)
    ensures Loop(world, run, approved, attempt, entry, n, p, fuel).Some?
       <==> HaltsBetween(exec, start, n, n + fuel)
    decreases fuel
  {
    if fuel > 0 {
      CalmTurn(world, run, approved, attempt, entry, n, p);
      var turn := OneTurn(world, run, approved, attempt, entry, n, p);
      if turn.Next? {
        assert turn.entry.marker == Orbit(exec, start, n + 1);
        LoopFollowsOrbit(world, run, approved, attempt, start, turn.entry, n + 1, turn.then_, exec, fuel - 1);
      } else {
        assert Halts(exec, Orbit(exec, start, n));
      }
    }
  }

  lemma DriveFollowsOrbit(world: World, run: string, approved: Approved, attempt: string, p: Progress, exec: Executor, fuel: nat)
    requires Memoryless(world, approved, exec) && BeginRow(p.row, attempt, approved, world).0.Ready?
    ensures Driving(world, run, approved, attempt, p, fuel).Some? <==> HaltsWithin(exec, StartMarker(p.row), fuel)
  {
    var (begun, row) := BeginRow(p.row, attempt, approved, world);
    CalmBegin(p.row, attempt, approved, world);
    LoopFollowsOrbit(world, run, approved, attempt, StartMarker(p.row), begun.entry, 0, p.(row := row), exec, fuel);
  }

  // -- Orbits over finitely many markers ------------------------------------------------------------------

  ghost predicate Closed(exec: Executor, markers: set<Marker>) {
    forall m :: m in markers ==> exec(m).marker in markers
  }

  ghost function Visited(exec: Executor, start: Marker, n: nat): set<Marker> {
    set i: nat | i < n :: Orbit(exec, start, i)
  }

  lemma {:induction false} OrbitStays(exec: Executor, start: Marker, markers: set<Marker>, n: nat)
    requires Closed(exec, markers) && start in markers
    ensures Orbit(exec, start, n) in markers
  {
    if n > 0 { OrbitStays(exec, start, markers, n - 1); }
  }

  // As long as the orbit has not come back to itself, it has visited as many markers as it took steps.
  lemma EitherNewOrBack(exec: Executor, start: Marker, n: nat) returns (k: nat)
    ensures k <= n && |Visited(exec, start, k)| == k
    ensures k < n ==> Orbit(exec, start, k) in Visited(exec, start, k)
  {
    k := 0;
    while k < n && Orbit(exec, start, k) !in Visited(exec, start, k)
      invariant k <= n && |Visited(exec, start, k)| == k
    {
      assert Visited(exec, start, k + 1) == Visited(exec, start, k) + {Orbit(exec, start, k)};
      k := k + 1;
    }
  }

  // Once back, the orbit visits nothing new.
  lemma {:induction false} NothingNew(exec: Executor, start: Marker, k: nat, n: nat)
    requires Orbit(exec, start, k) in Visited(exec, start, k)
    ensures Orbit(exec, start, n) in Visited(exec, start, k)
  {
    if n > 0 {
      NothingNew(exec, start, k, n - 1);
      var i: nat :| i < k && Orbit(exec, start, n - 1) == Orbit(exec, start, i);
      assert Orbit(exec, start, n) == Orbit(exec, start, i + 1);
    }
  }

  // Over k markers an orbit halts within k batches or never.
  lemma HaltsSoonOrNever(exec: Executor, start: Marker, markers: set<Marker>)
    requires Closed(exec, markers) && start in markers
    ensures EverHalts(exec, start) <==> HaltsWithin(exec, start, |markers|)
  {
    if EverHalts(exec, start) {
      var n: nat :| Halts(exec, Orbit(exec, start, n));
      var steps := |markers| + 1;
      forall m | m in Visited(exec, start, steps) ensures m in markers {
        var i: nat :| i < steps && m == Orbit(exec, start, i);
        OrbitStays(exec, start, markers, i);
      }
      CardinalityOfSubset(Visited(exec, start, steps), markers);
      var k := EitherNewOrBack(exec, start, steps);
      NothingNew(exec, start, k, n);
      var i: nat :| i < k && Orbit(exec, start, n) == Orbit(exec, start, i);
      assert i < |markers| && Halts(exec, Orbit(exec, start, i));
    }
  }

  lemma {:induction false} CardinalityOfSubset(small: set<Marker>, large: set<Marker>)
    requires small <= large
    ensures |small| <= |large|
  {
    if small != {} {
      var m :| m in small;
      CardinalityOfSubset(small - {m}, large - {m});
    }
  }

  /** Over k markers, a drive that reaches its loop ends if and only if the orbit of its start meets a
      fault, a batch with nothing more to do, or a fixed point within k batches; and if it ends at all,
      it ends within k batches. */
  lemma StopsIffOrbitHalts(world: World, run: string, approved: Approved, attempt: string, p: Progress, exec: Executor, markers: set<Marker>)
    requires Memoryless(world, approved, exec) && BeginRow(p.row, attempt, approved, world).0.Ready?
    requires Closed(exec, markers) && StartMarker(p.row) in markers
    ensures Stops(world, run, approved, attempt, p) <==> HaltsWithin(exec, StartMarker(p.row), |markers|)
    ensures Stops(world, run, approved, attempt, p) <==> Driving(world, run, approved, attempt, p, |markers|).Some?
  {
    var start := StartMarker(p.row);
    DriveFollowsOrbit(world, run, approved, attempt, p, exec, |markers|);
    if Stops(world, run, approved, attempt, p) {
      var fuel: nat :| Driving(world, run, approved, attempt, p, fuel).Some?;
      DriveFollowsOrbit(world, run, approved, attempt, p, exec, fuel);
      assert EverHalts(exec, start);
      HaltsSoonOrNever(exec, start, markers);
    }
  }

  // -- A cycle the loop does not notice -------------------------------------------------------------------

  const First: Marker := Marker(map["deals|deals" := "1"], {})
  const Second: Marker := Marker(map["deals|deals" := "2"], {})

  // Cursors that alternate: "1", "2", "1", …
  const Alternating: Executor := m => Batch(true, if m == First then Second else First, [])

  const AlternatingWorld: World := World((_, _, m, _) => Alternating(m), _ => Nothing, _ => false)

  /** The smallest cycle: a source whose cursor alternates between two values. A fresh run then never
      ends, though the loop is there to stop a run that makes no progress. */
  lemma AlternatingMarkersNeverStall(run: string, approved: Approved, attempt: string)
    ensures !Stops(AlternatingWorld, run, approved, attempt, Progress(None, map[], 0, []))
  {
    var p := Progress(None, map[], 0, []);
    var start := StartMarker(p.row);
    var markers := {start, First, Second};
    assert First.checkpoints["deals|deals"] == "1" && Second.checkpoints["deals|deals"] == "2";
    assert "deals|deals" !in start.checkpoints;
    assert First != Second && start != First && start != Second;
    StopsIffOrbitHalts(AlternatingWorld, run, approved, attempt, p, Alternating, markers);
    forall i: nat | i < |markers| ensures !Halts(Alternating, Orbit(Alternating, start, i)) {
      OrbitStays(Alternating, start, markers, i);
    }
  }
}
