/**
 One migration run: the runs table row that holds the reviewed plan, the fenced execution journal, the
 results table, and the apply loop between them.

 The world outside is a parameter: what each batch does under the scope it is given, what other
 processes do to the journal before each of our operations on it, and at which operation our own
 process dies. `Driving` says what one drive of the loop does to the run; the class `Run` does it.
 */
module MigrationRuns {
  import opened Basics
  import opened Ordering
  import opened JsonValues
  import opened PlanPayload
  import Candidates
  import Ledger

  datatype RunStatus = Created | Inspected | Planned | Applying | Applied | Verified | RunFailed | RunCancelled

  datatype JournalStatus = Queued | Running | Completed | Failed | Cancelled

  // `progress_marker`: checkpoints and completed routes.
  datatype Marker = Marker(checkpoints: map<string, string>, completedRoutes: set<string>)

  // One executable route with the source records it may touch.
  datatype Route = Route(from: string, to: string, identity: seq<string>, candidates: seq<string>)

  // `ExactIdScope`: what one execution is bound to.
  type Approved = seq<Route>

  // What the journal keeps of a scope: the routes, not their candidates.
  datatype Scope = Scope(manifest: seq<(string, string, seq<string>)>)

  function KeyOf(r: Route): string { Ledger.PairRoute(r.from, r.to) }

  // `canonical_route_manifest`: sorted by route key.
  function ScopeOf(approved: Approved): Scope {
    var routes := SortBy(approved, KeyOf);
    Scope.Scope(seq(|routes|, i requires 0 <= i < |routes| => (routes[i].from, routes[i].to, routes[i].identity)))
  }

  datatype Entry = Entry(
    status: JournalStatus,
    marker: Marker,
    attemptId: Option<string>,
    batchesCompleted: nat,
    scope: Option<Scope>)

  datatype Row = Row(entry: Entry, cancelRecorded: bool, attemptId: Option<string>, attemptNumber: nat)

  // A result that a batch writes for one record of one pair.
  datatype Written = Written(from: string, to: string, entry: Ledger.Entry)

  datatype BatchOutcome =
    | Batch(hasMore: bool, marker: Marker, written: seq<Written>)
    | Fault(marker: Marker, written: seq<Written>)     // raised, with the snapshot as it was left

  datatype Interference =
    | Nothing
    | RecordsCancellation(onEntry: bool)
    | TakesOver(attemptId: string, attemptNumber: nat)

  datatype World = World(
    batch: (nat, Approved, Marker, Ledger.Pairs) -> BatchOutcome,   // the n-th batch, on a snapshot and the results so far
    others: nat -> Interference,                                    // before our n-th journal operation
    dies: nat -> bool)                                              // before our n-th operation of any kind

  datatype Driven = Finished | WasCancelled | Superseded | ScopeChanged | Faulted | Stalled | Died

  datatype BatchStep = BatchStep(approved: Approved, before: Marker, hasMore: bool, after: Marker)

  const ATTEMPT_NUMBER: nat := 1

  // -- The journal, as SqliteExecutionState keeps it ------------------------------------------------------

  function Disturbed(row: Option<Row>, other: Interference): Option<Row> {
    if row.None? then None else
    match other
    case Nothing => row
    case RecordsCancellation(onEntry) =>
      Some(row.value.(cancelRecorded := true, entry := if onEntry then row.value.entry.(status := Cancelled) else row.value.entry))
    case TakesOver(id, number) =>
      Some(row.value.(attemptId := Some(id), attemptNumber := number, entry := row.value.entry.(attemptId := Some(id))))
  }

  predicate Cancellation(row: Row) {
    row.cancelRecorded || row.entry.status.Cancelled?
  }

  datatype Claim = Claimed(entry: Option<Entry>) | ClaimCancelled | ClaimSuperseded

  function ClaimAnswer(row: Option<Row>, attempt: string): Claim {
    if row.None? then Claimed(None)
    else if Cancellation(row.value) then ClaimCancelled
    else if row.value.entry.status.Completed? then ClaimSuperseded
    else if !(row.value.attemptId == None || row.value.attemptId == Some(attempt) || row.value.attemptNumber < ATTEMPT_NUMBER) then ClaimSuperseded
    else Claimed(Some(row.value.entry.(attemptId := Some(attempt))))
  }

  function ClaimedRow(row: Option<Row>, attempt: string): Option<Row> {
    var answer := ClaimAnswer(row, attempt);
    if answer.Claimed? && answer.entry.Some? then
      Some(row.value.(entry := answer.entry.value, attemptId := Some(attempt), attemptNumber := ATTEMPT_NUMBER))
    else row
  }

  datatype SaveAnswer = Saved | SaveCancelled | SaveSuperseded

  function SaveAnswerFor(row: Option<Row>, attempt: string, entry: Entry): SaveAnswer {
    if row.None? then Saved
    else if row.value.attemptId != None && row.value.attemptId != Some(attempt) && row.value.attemptNumber > 0 then SaveSuperseded
    else if Cancellation(row.value) && !entry.status.Cancelled? then SaveCancelled
    else Saved
  }

  // A cancellation that landed first wins the status, and the batch's work is kept.
  function SavedRow(row: Option<Row>, attempt: string, entry: Entry): Option<Row> {
    match SaveAnswerFor(row, attempt, entry)
    case SaveSuperseded => row
    case SaveCancelled => Some(Row(entry.(status := Cancelled), false, entry.attemptId, ATTEMPT_NUMBER))
    case Saved => Some(Row(entry, false, entry.attemptId, ATTEMPT_NUMBER))
  }

  // The row belongs to another attempt that has claimed it.
  predicate HeldByAnother(row: Row, attempt: string) {
    row.attemptId.Some? && row.attemptId.value != attempt && row.attemptNumber >= 1
  }

  /** The fence: a claim is refused where a cancellation was recorded in either place, where the journal is
      completed, and where another attempt holds it; otherwise the row becomes this attempt's and its
      entry keeps everything else. A refused claim changes nothing. */
  lemma ClaimsAreFenced(row: Option<Row>, attempt: string)
    ensures var answer, after := ClaimAnswer(row, attempt), ClaimedRow(row, attempt);
            if row.None? then answer == Claimed(None) && after == None
            else if row.value.cancelRecorded || row.value.entry.status == Cancelled then answer == ClaimCancelled && after == row
            else if row.value.entry.status == Completed || HeldByAnother(row.value, attempt) then answer == ClaimSuperseded && after == row
            else
              && answer.Claimed? && answer.entry.Some? && after.Some? && after.value.entry == answer.entry.value
              && after.value.attemptId == Some(attempt) && after.value.attemptNumber == 1 && after.value.cancelRecorded == row.value.cancelRecorded
              && answer.entry.value.attemptId == Some(attempt) && answer.entry.value.status == row.value.entry.status
              && answer.entry.value.marker == row.value.entry.marker && answer.entry.value.batchesCompleted == row.value.entry.batchesCompleted
              && answer.entry.value.scope == row.value.entry.scope
  {
  }

  /** What a save does, whichever way it is answered: where another attempt holds the row the write is
      dropped; where a cancellation was recorded first, in either place, it wins the status and the batch's
      work is kept; otherwise the row holds exactly the entry. */
  lemma SavesKeepWork(row: Option<Row>, attempt: string, entry: Entry)
    ensures var answer, after := SaveAnswerFor(row, attempt, entry), SavedRow(row, attempt, entry);
            if row.Some? && HeldByAnother(row.value, attempt) then answer == SaveSuperseded && after == row
            else if row.Some? && (row.value.cancelRecorded || row.value.entry.status == Cancelled) && entry.status != Cancelled then
              && answer == SaveCancelled && after.Some? && after.value.entry.status == Cancelled
              && after.value.entry.marker == entry.marker && after.value.entry.batchesCompleted == entry.batchesCompleted
              && after.value.entry.scope == entry.scope && after.value.attemptId == entry.attemptId && !after.value.cancelRecorded
            else
              answer == Saved && after.Some? && after.value.entry == entry && after.value.attemptId == entry.attemptId && !after.value.cancelRecorded
  {
  }

  // -- One drive ------------------------------------------------------------------------------------------

  function Persisted(row: Option<Row>): nat {
    if row.Some? then row.value.entry.batchesCompleted else 0
  }

  // The results after a batch's writes, one upsert after another.
  function Wrote(results: Ledger.Pairs, run: string, written: seq<Written>): Ledger.Pairs {
    if written == [] then results else
    var last := written[|written| - 1];
    Ledger.Upserted(Wrote(results, run, written[..|written| - 1]), run, last.from, last.to, [last.entry])
  }

  // The run as one drive moves it. `saved` counts the returned batches whose save was written.
  datatype Progress = Progress(row: Option<Row>, results: Ledger.Pairs, saved: nat, trace: seq<BatchStep>)

  datatype Begun = Early(result: Driven) | Ready(entry: Entry)

  // The first half of `_drive_apply`: load, claim, and check the resumed scope.
  function BeginRow(row: Option<Row>, attempt: string, approved: Approved, world: World): (Begun, Option<Row>) {
    var scope := Some(ScopeOf(approved));
    if world.dies(0) then (Early(Died), row) else
    var loaded := Disturbed(row, world.others(0));
    if loaded.Some? && loaded.value.entry.status.Completed? then (Early(Finished), loaded)
    else if loaded.Some? && loaded.value.entry.status.Cancelled? then (Early(WasCancelled), loaded)
    else if world.dies(1) then (Early(Died), loaded) else
    var met := Disturbed(loaded, world.others(1));
    var claim := ClaimAnswer(met, attempt);
    var claimed := ClaimedRow(met, attempt);
    if claim.ClaimCancelled? then (Early(WasCancelled), claimed)
    else if claim.ClaimSuperseded? then (Early(Superseded), claimed)
    else if claim.entry.None? then (Ready(Entry(Running, Marker(map[], {}), Some(attempt), 0, scope)), claimed)
    else if claim.entry.value.scope.Some? && claim.entry.value.scope != scope then (Early(ScopeChanged), claimed)
    else (Ready(claim.entry.value.(status := Running, attemptId := Some(attempt), scope := scope)), claimed)
  }

  datatype Turn = Over(result: Driven, end: Progress) | Next(entry: Entry, then_: Progress)

  function Stalls(outcome: BatchOutcome, before: Marker): bool
    requires outcome.Batch?
  {
    outcome.hasMore && outcome.marker == before
  }

  // The entry after a batch that returned.
  function Counted(entry: Entry, outcome: BatchOutcome): Entry
    requires outcome.Batch?
  {
    entry.(marker := outcome.marker, batchesCompleted := entry.batchesCompleted + 1,
           status := if Stalls(outcome, entry.marker) then Failed else if outcome.hasMore then Running else Completed)
  }

  // The n-th turn of the loop.
  function OneTurn(world: World, run: string, approved: Approved, attempt: string, entry: Entry, n: nat, p: Progress): Turn {
    var op := 2 + 2 * n;
    if world.dies(op) then Over(Died, p) else
    var outcome := world.batch(n, approved, entry.marker, p.results);
    var results := Wrote(p.results, run, outcome.written);
    if outcome.Fault? then FaultTurn(world, attempt, entry, op, p.(results := results), outcome)
    else BatchTurn(world, approved, attempt, entry, op, p.(results := results), outcome)
  }

  function FaultTurn(world: World, attempt: string, entry: Entry, op: nat, p: Progress, outcome: BatchOutcome): Turn
    requires outcome.Fault?
  {
    if world.dies(op + 1) then Over(Died, p) else
    var failed := entry.(status := Failed, marker := outcome.marker);
    Over(Faulted, p.(row := SavedRow(Disturbed(p.row, world.others(op + 1)), attempt, failed)))
  }

  function BatchTurn(world: World, approved: Approved, attempt: string, entry: Entry, op: nat, p: Progress, outcome: BatchOutcome): Turn
    requires outcome.Batch?
  {
    var returned := p.(trace := p.trace + [BatchStep(approved, entry.marker, outcome.hasMore, outcome.marker)]);
    if world.dies(op + 1) then Over(Died, returned) else
    var counted := Counted(entry, outcome);
    var row := Disturbed(p.row, world.others(op + 1));
    var answer := SaveAnswerFor(row, attempt, counted);
    var saved := returned.(row := SavedRow(row, attempt, counted), saved := p.saved + if answer == SaveSuperseded then 0 else 1);
    if answer == SaveCancelled then Over(WasCancelled, saved)
    else if answer == SaveSuperseded then Over(Superseded, saved)
    else if Stalls(outcome, entry.marker) then Over(Stalled, saved)
    else if !outcome.hasMore then Over(Finished, saved)
    else Next(counted, saved)
  }

  // The loop from its n-th turn on; None while it has not ended after `fuel` turns.
  function Loop(world: World, run: string, approved: Approved, attempt: string, entry: Entry, n: nat, p: Progress, fuel: nat): Option<(Driven, Progress)>
    decreases fuel
  {
    if fuel == 0 then None else
    match OneTurn(world, run, approved, attempt, entry, n, p)
    case Over(result, end) => Some((result, end))
    case Next(next, then_) => Loop(world, run, approved, attempt, next, n + 1, then_, fuel - 1)
  }

  // `_drive_apply`
  function Driving(world: World, run: string, approved: Approved, attempt: string, p: Progress, fuel: nat): Option<(Driven, Progress)> {
    var (begun, row) := BeginRow(p.row, attempt, approved, world);
    match begun
    case Early(result) => Some((result, p.(row := row)))
    case Ready(entry) => Loop(world, run, approved, attempt, entry, 0, p.(row := row), fuel)
  }

  // The loop ends, however many turns it takes.
  ghost predicate Stops(world: World, run: string, approved: Approved, attempt: string, p: Progress) {
    exists fuel: nat :: Driving(world, run, approved, attempt, p, fuel).Some?
  }

  // -- What every drive keeps -----------------------------------------------------------------------------

  // No batch follows one that had nothing more to do or that made no progress.
  ghost predicate Disciplined(trace: seq<BatchStep>) {
    forall i :: 0 <= i < |trace| - 1 ==>
      trace[i].hasMore && trace[i].after != trace[i].before && trace[i + 1].before == trace[i].after
  }

  // The trace can be continued at this marker.
  ghost predicate GoesOn(trace: seq<BatchStep>, marker: Marker) {
    && Disciplined(trace)
    && (trace != [] ==>
          var last := trace[|trace| - 1];
          last.hasMore && last.after != last.before && last.after == marker)
  }

  predicate NoProgress(step: BatchStep) {
    step.hasMore && step.after == step.before
  }

  lemma OneMoreStep(trace: seq<BatchStep>, step: BatchStep)
    requires GoesOn(trace, step.before)
    ensures Disciplined(trace + [step])
    ensures step.hasMore && step.after != step.before ==> GoesOn(trace + [step], step.after)
  {
    var more := trace + [step];
    forall i | 0 <= i < |more| - 1
      ensures more[i].hasMore && more[i].after != more[i].before && more[i + 1].before == more[i].after
    {
      assert more[i] == trace[i];
      if i + 1 < |trace| { assert more[i + 1] == trace[i + 1]; }
    }
  }

  // Every batch ran under this approval, the first on this marker.
  ghost predicate Under(trace: seq<BatchStep>, approved: Approved, start: Marker) {
    && (forall i :: 0 <= i < |trace| ==> trace[i].approved == approved)
    && (trace != [] ==> trace[0].before == start)
  }

  // A journal that allows no further batch.
  predicate Blocked(row: Option<Row>) {
    row.Some? && (row.value.entry.status.Completed? || Cancellation(row.value))
  }

  predicate Done(row: Option<Row>) { row.Some? && row.value.entry.status.Completed? }

  // Where a drive starts: the journal's marker, or an empty one.
  function StartMarker(row: Option<Row>): Marker {
    if row.Some? then row.value.entry.marker else Marker(map[], {})
  }

  // The journal's entry is bound to this approval's scope.
  predicate Holds(row: Option<Row>, approved: Approved) {
    row.Some? && row.value.entry.scope == Some(ScopeOf(approved))
  }

  // The journal's scope admits this approval.
  predicate Resumable(row: Option<Row>, approved: Approved) {
    row.Some? && row.value.entry.scope.Some? ==> row.value.entry.scope == Some(ScopeOf(approved))
  }

  // What the loop knows before its n-th turn.
  ghost predicate Midway(approved: Approved, start: Marker, saved: nat, entry: Entry, n: nat, p: Progress) {
    && entry.batchesCompleted == Persisted(p.row) && p.saved == saved + n && |p.trace| == n
    && entry.scope == Some(ScopeOf(approved))
    && GoesOn(p.trace, entry.marker) && Under(p.trace, approved, start) && (n == 0 ==> entry.marker == start)
  }

  // What is promised of an ended drive that began with so many saved batches.
  ghost predicate Kept(approved: Approved, start: Marker, saved: nat, result: Driven, p: Progress) {
    && Under(p.trace, approved, start) && Disciplined(p.trace)
    && p.saved <= saved + |p.trace| <= p.saved + 1
    && (result in {Finished, WasCancelled, Stalled, Faulted} ==> p.saved == saved + |p.trace|)
    && (result == Finished ==> Done(p.row) && (p.trace != [] ==> !p.trace[|p.trace| - 1].hasMore && Holds(p.row, approved)))
    && (result == WasCancelled ==> p.row.Some? && Cancellation(p.row.value))
    && (result == Stalled ==> p.trace != [] && NoProgress(p.trace[|p.trace| - 1]))
  }

  // How a drive that has come to p may end.
  ghost predicate Ended(approved: Approved, start: Marker, saved: nat, p: Progress, result: Driven, end: Progress) {
    && Kept(approved, start, saved, result, end) && (result == Finished ==> end.trace != [])
    && Persisted(end.row) + p.saved == Persisted(p.row) + end.saved
  }

  // One turn keeps all of this.
  ghost predicate TurnKept(approved: Approved, start: Marker, saved: nat, n: nat, p: Progress, turn: Turn) {
    match turn
    case Over(result, end) => Ended(approved, start, saved, p, result, end) && |end.trace| <= n + 1
    case Next(next, then_) =>
      Midway(approved, start, saved, next, n + 1, then_) && Persisted(then_.row) + p.saved == Persisted(p.row) + then_.saved
  }

  // What one more step is to the trace.
  ghost predicate Appends(approved: Approved, start: Marker, trace: seq<BatchStep>, step: BatchStep, longer: seq<BatchStep>) {
    && longer != [] && longer[|longer| - 1] == step && |longer| == |trace| + 1
    && Under(longer, approved, start) && Disciplined(longer)
    && (step.hasMore && step.after != step.before ==> GoesOn(longer, step.after))
  }

  lemma StepAppends(approved: Approved, start: Marker, trace: seq<BatchStep>, step: BatchStep)
    requires GoesOn(trace, step.before) && Under(trace, approved, start) && (trace == [] ==> step.before == start) && step.approved == approved
    ensures Appends(approved, start, trace, step, trace + [step])
  {
    OneMoreStep(trace, step);
  }

  // A turn whose batch returned, with its trace already longer.
  lemma CountedTurnKeeps(world: World, approved: Approved, attempt: string, start: Marker, saved: nat, entry: Entry, n: nat, p: Progress, outcome: BatchOutcome, longer: seq<BatchStep>)
    requires Midway(approved, start, saved, entry, n, p) && outcome.Batch?
    requires Appends(approved, start, p.trace, BatchStep(approved, entry.marker, outcome.hasMore, outcome.marker), longer)
    requires longer == p.trace + [BatchStep(approved, entry.marker, outcome.hasMore, outcome.marker)]
    ensures TurnKept(approved, start, saved, n, p, BatchTurn(world, approved, attempt, entry, 2 + 2 * n, p, outcome))
  {
  }

  lemma BatchTurnKeeps(world: World, approved: Approved, attempt: string, start: Marker, saved: nat, entry: Entry, n: nat, p: Progress, outcome: BatchOutcome)
    requires Midway(approved, start, saved, entry, n, p) && outcome.Batch?
    ensures TurnKept(approved, start, saved, n, p, BatchTurn(world, approved, attempt, entry, 2 + 2 * n, p, outcome))
  {
    var step := BatchStep(approved, entry.marker, outcome.hasMore, outcome.marker);
    StepAppends(approved, start, p.trace, step);
    CountedTurnKeeps(world, approved, attempt, start, saved, entry, n, p, outcome, p.trace + [step]);
  }

  lemma TurnKeeps(world: World, run: string, approved: Approved, attempt: string, start: Marker, saved: nat, entry: Entry, n: nat, p: Progress)
    requires Midway(approved, start, saved, entry, n, p)
    ensures TurnKept(approved, start, saved, n, p, OneTurn(world, run, approved, attempt, entry, n, p))
  {
    var outcome := world.batch(n, approved, entry.marker, p.results);
    if outcome.Batch? {
      BatchTurnKeeps(world, approved, attempt, start, saved, entry, n, p.(results := Wrote(p.results, run, outcome.written)), outcome);
    }
  }

  lemma {:induction false} LoopKeeps(world: World, run: string, approved: Approved, attempt: string, start: Marker, saved: nat, entry: Entry, n: nat, p: Progress, fuel: nat)
    requires Midway(approved, start, saved, entry, n, p)
    requires Loop(world, run, approved, attempt, entry, n, p, fuel).Some?
    ensures var (result, end) := Loop(world, run, approved, attempt, entry, n, p, fuel).value;
            Ended(approved, start, saved, p, result, end) && |end.trace| <= n + fuel
    decreases fuel
  {
    TurnKeeps(world, run, approved, attempt, start, saved, entry, n, p);
    match OneTurn(world, run, approved, attempt, entry, n, p)
    case Over(_, _) =>
    case Next(next, then_) => LoopKeeps(world, run, approved, attempt, start, saved, next, n + 1, then_, fuel - 1);
  }

  // What beginning does: it leaves progress and results alone and admits only a matching scope.
  lemma BeginKeeps(row: Option<Row>, attempt: string, approved: Approved, world: World)
    ensures var (begun, after) := BeginRow(row, attempt, approved, world);
            && Persisted(after) == Persisted(row) && StartMarker(after) == StartMarker(row)
            && (begun.Ready? ==>
                  && begun.entry.batchesCompleted == Persisted(row) && begun.entry.marker == StartMarker(row)
                  && begun.entry.scope == Some(ScopeOf(approved)) && begun.entry.status.Running?
                  && Resumable(row, approved) && !Blocked(row))
            && (begun == Early(Finished) <==> Done(after) && begun.Early? && !world.dies(0))
            && (begun == Early(WasCancelled) ==> after.Some? && Cancellation(after.value))
            && (begun == Early(ScopeChanged) ==> !Resumable(row, approved))
            && (begun.Early? ==> begun.result in {Finished, WasCancelled, Superseded, ScopeChanged, Died})
            && (Blocked(row) ==> begun in {Early(Finished), Early(WasCancelled), Early(Died)})
            && (begun == Early(Finished) ==> Done(row) && (Holds(after, approved) <==> Holds(row, approved)))
  {
  }

  /** What one drive promises, in every world: every batch runs under the given approval and nothing
      else, starting from the journal's own marker; none on a completed or cancelled journal or under a
      scope the journal does not admit; none after a batch that had no more to do or made no progress;
      all but possibly the last are counted; and a drive that finishes without running any batch is one
      that found its journal completed, and the other way round. */
  lemma DrivesKeepTheirPromises(world: World, run: string, approved: Approved, attempt: string, p: Progress, fuel: nat)
    requires p.trace == [] && Driving(world, run, approved, attempt, p, fuel).Some?
    ensures var (result, end) := Driving(world, run, approved, attempt, p, fuel).value;
            && Kept(approved, StartMarker(p.row), p.saved, result, end)
            && Persisted(end.row) + p.saved == Persisted(p.row) + end.saved && |end.trace| <= fuel
            && (Blocked(p.row) ==> end.trace == [] && end.results == p.results && result in {Finished, WasCancelled, Died})
            && (end.trace != [] ==> Resumable(p.row, approved))
            && (result == Finished ==> (end.trace == [] <==> Done(p.row)) && (end.trace == [] ==> end.results == p.results))
            && (result == Finished ==> (Holds(end.row, approved) <==> (Done(p.row) ==> Holds(p.row, approved))))
  {
    BeginKeeps(p.row, attempt, approved, world);
    var (begun, row) := BeginRow(p.row, attempt, approved, world);
    if begun.Ready? {
      LoopKeeps(world, run, approved, attempt, StartMarker(p.row), p.saved, begun.entry, 0, p.(row := row), fuel);
    }
  }

  lemma {:induction false} MoreFuel(world: World, run: string, approved: Approved, attempt: string, entry: Entry, n: nat, p: Progress, fuel: nat, more: nat)
    requires Loop(world, run, approved, attempt, entry, n, p, fuel).Some? && fuel <= more
    ensures Loop(world, run, approved, attempt, entry, n, p, more) == Loop(world, run, approved, attempt, entry, n, p, fuel)
    decreases fuel
  {
    match OneTurn(world, run, approved, attempt, entry, n, p)
    case Over(_, _) =>
    case Next(next, then_) => MoreFuel(world, run, approved, attempt, next, n + 1, then_, fuel - 1, more - 1);
  }

  // -- The run --------------------------------------------------------------------------------------------

  // `exact_id_scope`: the reviewed routes with their candidates, trimmed, distinct and sorted.
  function Approval(plan: MigrationPlan): (approved: Approved)
    ensures |approved| == |plan.routes|
  {
    seq(|plan.routes|, i requires 0 <= i < |plan.routes| => RouteOf(plan.routes[i]))
  }

  function RouteOf(r: RoutePlan): Route {
    Route(r.sourceObject, r.targetObject, SortBy(Distinct(IdentityFields(r.fieldMappings)), Itself), SortBy(Distinct(Trimmed(r.candidateIds)), Itself))
  }

  function Trimmed(ids: seq<string>): seq<string> {
    if ids == [] then [] else
    (if Candidates.Strip(ids[0]) == "" then [] else [Candidates.Strip(ids[0])]) + Trimmed(ids[1..])
  }

  predicate Named(name: string) { name != "" && Candidates.Strip(name) == name }

  // What `exact_id_scope` demands of the routes: named objects, and no route key twice.
  predicate RoutesFit(plan: MigrationPlan) {
    && (forall i :: 0 <= i < |plan.routes| ==>
          var r := plan.routes[i];
          Named(r.sourceObject) && Named(r.targetObject) && r.routeKey == KeyOf(RouteOf(r)))
    && DistinctKeys(Approval(plan), KeyOf)
  }

  function IdentityFields(fields: seq<MappingField>): seq<string> {
    if fields == [] then [] else
    var f := fields[0];
    (if f.identity == Some(true) && f.rule.mappingKind != "relationship" && f.rule.mappingKind != "reference" then [f.targetField] else [])
    + IdentityFields(fields[1..])
  }

  function Distinct(xs: seq<string>): seq<string> {
    if xs == [] then [] else
    var rest := Distinct(xs[1..]);
    if xs[0] in rest then rest else [xs[0]] + rest
  }

  // -- What an approval and a scope say of the plan -------------------------------------------------------

  lemma {:induction false} DistinctIsDistinct(xs: seq<string>)
    ensures DistinctKeys(Distinct(xs), Itself) && forall x :: x in Distinct(xs) <==> x in xs
  {
    if xs != [] {
      DistinctIsDistinct(xs[1..]);
      assert forall x :: x in xs <==> x == xs[0] || x in xs[1..];
      var rest := Distinct(xs[1..]);
      if xs[0] !in rest {
        forall i, j | 0 <= i < j < |rest| + 1 ensures Itself(([xs[0]] + rest)[i]) != Itself(([xs[0]] + rest)[j]) {
          assert ([xs[0]] + rest)[j] == rest[j - 1];
          if i > 0 { assert Itself(rest[i - 1]) != Itself(rest[j - 1]); }
        }
      }
    }
  }

  // The canonical list of a collection of ids: ascending, with the same members.
  lemma CanonicalList(xs: seq<string>)
    ensures var list := SortBy(Distinct(xs), Itself); Ascending(list, Itself) && forall x :: x in list <==> x in xs
  {
    DistinctIsDistinct(xs);
    SortAscends(Distinct(xs), Itself);
    forall x ensures x in SortBy(Distinct(xs), Itself) <==> x in Distinct(xs) { SortKeeps(Distinct(xs), Itself, x); }
  }

  lemma {:induction false} TrimmedIds(ids: seq<string>, x: string)
    ensures x in Trimmed(ids) <==> x != "" && exists i :: 0 <= i < |ids| && Candidates.Strip(ids[i]) == x
  {
    if ids != [] {
      TrimmedIds(ids[1..], x);
      if x in Trimmed(ids[1..]) {
        var i :| 0 <= i < |ids[1..]| && Candidates.Strip(ids[1..][i]) == x;
        assert Candidates.Strip(ids[i + 1]) == x;
      }
      if i :| 0 <= i < |ids| && Candidates.Strip(ids[i]) == x && i > 0 {
        assert ids[1..][i - 1] == ids[i];
      }
    }
  }

  predicate Identifying(f: MappingField) {
    f.identity == Some(true) && f.rule.mappingKind !in {"relationship", "reference"}
  }

  lemma {:induction false} IdentityFieldsAre(fields: seq<MappingField>, x: string)
    ensures x in IdentityFields(fields) <==> exists i :: 0 <= i < |fields| && Identifying(fields[i]) && fields[i].targetField == x
  {
    if fields != [] {
      IdentityFieldsAre(fields[1..], x);
      if x in IdentityFields(fields[1..]) {
        var i :| 0 <= i < |fields[1..]| && Identifying(fields[1..][i]) && fields[1..][i].targetField == x;
        assert Identifying(fields[i + 1]) && fields[i + 1].targetField == x;
      }
      if i :| 0 <= i < |fields| && Identifying(fields[i]) && fields[i].targetField == x && i > 0 {
        assert fields[1..][i - 1] == fields[i];
      }
    }
  }

  /** An approval is the plan's own routes, in its order, each with exactly the plan's candidates, trimmed,
      ascending and without empty ones, and with the target fields that identify a record. */
  lemma ApprovalIsThePlan(plan: MigrationPlan, i: nat)
    requires i < |plan.routes|
    ensures var r, a := plan.routes[i], Approval(plan)[i];
            && a.from == r.sourceObject && a.to == r.targetObject
            && Ascending(a.candidates, Itself) && Ascending(a.identity, Itself)
            && (forall x :: x in a.candidates <==> x != "" && exists k :: 0 <= k < |r.candidateIds| && Candidates.Strip(r.candidateIds[k]) == x)
            && (forall x :: x in a.identity <==> exists k :: 0 <= k < |r.fieldMappings| && Identifying(r.fieldMappings[k]) && r.fieldMappings[k].targetField == x)
  {
    var r := plan.routes[i];
    CanonicalList(Trimmed(r.candidateIds));
    CanonicalList(IdentityFields(r.fieldMappings));
    forall x ensures x in Trimmed(r.candidateIds) <==> x != "" && exists k :: 0 <= k < |r.candidateIds| && Candidates.Strip(r.candidateIds[k]) == x {
      TrimmedIds(r.candidateIds, x);
    }
    forall x ensures x in IdentityFields(r.fieldMappings) <==> exists k :: 0 <= k < |r.fieldMappings| && Identifying(r.fieldMappings[k]) && r.fieldMappings[k].targetField == x {
      IdentityFieldsAre(r.fieldMappings, x);
    }
  }

  // The approved routes as a scope lists them, in whatever order.
  predicate Lists(approved: Approved, row: (string, string, seq<string>)) {
    exists i :: 0 <= i < |approved| && (approved[i].from, approved[i].to, approved[i].identity) == row
  }

  function RowKey(row: (string, string, seq<string>)): string { Ledger.PairRoute(row.0, row.1) }

  lemma ScopeAscends(approved: Approved)
    requires DistinctKeys(approved, KeyOf)
    ensures Ascending(ScopeOf(approved).manifest, RowKey)
  {
    var routes, rows := SortBy(approved, KeyOf), ScopeOf(approved).manifest;
    SortAscends(approved, KeyOf);
    forall i, j | 0 <= i < j < |rows| ensures Less(RowKey(rows[i]), RowKey(rows[j])) {
      assert Less(KeyOf(routes[i]), KeyOf(routes[j]));
    }
  }

  lemma SortKeeps<T>(xs: seq<T>, key: T -> string, x: T)
    ensures x in SortBy(xs, key) <==> x in xs
  {
    assert x in SortBy(xs, key) <==> x in multiset(xs);
  }

  lemma ScopeRows(approved: Approved, row: (string, string, seq<string>))
    ensures row in ScopeOf(approved).manifest <==> Lists(approved, row)
  {
    var routes, rows := SortBy(approved, KeyOf), ScopeOf(approved).manifest;
    if row in rows {
      var i :| 0 <= i < |rows| && rows[i] == row;
      SortKeeps(approved, KeyOf, routes[i]);
      var k :| 0 <= k < |approved| && approved[k] == routes[i];
    }
    if Lists(approved, row) {
      var i :| 0 <= i < |approved| && (approved[i].from, approved[i].to, approved[i].identity) == row;
      SortKeeps(approved, KeyOf, approved[i]);
      var k :| 0 <= k < |routes| && routes[k] == approved[i];
      assert rows[k] == row;
    }
  }

  lemma {:induction false} AscendingAlike<T>(xs: seq<T>, ys: seq<T>, key: T -> string)
    requires Ascending(xs, key) && Ascending(ys, key) && forall x :: x in xs <==> x in ys
    ensures xs == ys
  {
    forall x ensures multiset(xs)[x] == multiset(ys)[x] {
      if x in xs {
        var i :| 0 <= i < |xs| && xs[i] == x;
        var j :| 0 <= j < |ys| && ys[j] == x;
        OnceWhenAscending(xs, i, key);
        OnceWhenAscending(ys, j, key);
      } else {
        assert x !in multiset(xs) && x !in multiset(ys);
      }
    }
    assert multiset(xs) == multiset(ys);
    AscendingIsUnique(xs, ys, key);
  }

  /** A resumed scope matches exactly if it lists the same routes with the same identity fields: neither the
      order of the plan nor its candidates make a difference. */
  lemma ScopesMatchIffRoutesDo(a: Approved, b: Approved)
    requires DistinctKeys(a, KeyOf) && DistinctKeys(b, KeyOf)
    ensures ScopeOf(a) == ScopeOf(b) <==> forall row :: Lists(a, row) <==> Lists(b, row)
  {
    ScopeAscends(a);
    ScopeAscends(b);
    forall row ensures (row in ScopeOf(a).manifest <==> Lists(a, row)) && (row in ScopeOf(b).manifest <==> Lists(b, row)) {
      ScopeRows(a, row);
      ScopeRows(b, row);
    }
    if forall row :: Lists(a, row) <==> Lists(b, row) {
      forall row ensures row in ScopeOf(a).manifest <==> row in ScopeOf(b).manifest {
        assert Lists(a, row) <==> Lists(b, row);
      }
      AscendingAlike(ScopeOf(a).manifest, ScopeOf(b).manifest, RowKey);
    } else {
      var row :| Lists(a, row) != Lists(b, row);
      assert (row in ScopeOf(a).manifest) != (row in ScopeOf(b).manifest);
    }
  }

  class Run {
    const id: string
    var status: RunStatus
    var planJson: Option<Json>
    var planHash: Option<Hash>
    var row: Option<Row>
    var results: Ledger.Pairs

    ghost var reviewed: Option<MigrationPlan>      // the plan that was saved last
    ghost var savedBatches: nat                    // returned batches whose save was written

    constructor (id: string)
      ensures Valid() && this.id == id && status == Created && row == None && results == map[] && reviewed == None && savedBatches == 0
    {
      this.id := id;
      status, planJson, planHash, row, results := Created, None, None, None, map[];
      reviewed, savedBatches := None, 0;
    }

    ghost predicate Valid()
      reads this
    {
      && planJson == (if reviewed.Some? then Some(ToPayload(reviewed.value)) else None)
      && planHash == (if reviewed.Some? then Some(PlanHash(reviewed.value)) else None)
      && (reviewed.Some? ==> reviewed.value.candidateHash != Some(""))
      && Persisted(row) == savedBatches
    }

    ghost function Now(trace: seq<BatchStep>): Progress
      reads this
    {
      Progress(row, results, savedBatches, trace)
    }

    // `plan`: the engine's plans carry a digest as their candidate hash, or none.
    method SavePlan(plan: MigrationPlan)
      requires Valid() && plan.candidateHash != Some("")
      modifies this
      ensures Valid() && reviewed == Some(plan) && status == Planned
      ensures row == old(row) && savedBatches == old(savedBatches) && results == old(results)
    {
      planJson, planHash, status := Some(ToPayload(plan)), Some(PlanHash(plan)), Planned;
      reviewed := Some(plan);
    }

    // The first half of `_drive_apply`, step by step.
    method Begin(attempt: string, approved: Approved, world: World) returns (begun: Begun)
      modifies this`row
      ensures (begun, row) == BeginRow(old(row), attempt, approved, world)
    {
      var scope := Some(ScopeOf(approved));
      if world.dies(0) { return Early(Died); }
      row := Disturbed(row, world.others(0));
      var loaded := row;
      if loaded.Some? && loaded.value.entry.status.Completed? { return Early(Finished); }
      if loaded.Some? && loaded.value.entry.status.Cancelled? { return Early(WasCancelled); }

      if world.dies(1) { return Early(Died); }
      row := Disturbed(row, world.others(1));
      var claim := ClaimAnswer(row, attempt);
      row := ClaimedRow(row, attempt);
      if claim.ClaimCancelled? { return Early(WasCancelled); }
      if claim.ClaimSuperseded? { return Early(Superseded); }
      var current := claim.entry;                    // where nothing was claimed nothing had been loaded
      if current.Some? && current.value.scope.Some? && current.value.scope != scope {
        return Early(ScopeChanged);
      }
      var entry := Entry(Running, Marker(map[], {}), Some(attempt), 0, scope);
      if current.Some? {
        entry := current.value.(status := Running, attemptId := Some(attempt), scope := scope);
      }
      begun := Ready(entry);
    }

    // One pass through the loop of `_drive_apply`.
    method TakeTurn(attempt: string, approved: Approved, world: World, entry: Entry, n: nat, ghost before: seq<BatchStep>)
      returns (over: Option<Driven>, next: Entry, ghost trace: seq<BatchStep>)
      modifies this`row, this`results, this`savedBatches
      ensures var turn := OneTurn(world, id, approved, attempt, entry, n, old(Now(before)));
              if over.Some? then turn == Over(over.value, Now(trace)) else turn == Next(next, Now(trace))
    {
      trace, next := before, entry;
      var op := 2 + 2 * n;
      if world.dies(op) { return Some(Died), next, trace; }
      var outcome := world.batch(n, approved, entry.marker, results);
      results := Wrote(results, id, outcome.written);
      if outcome.Fault? {
        next := next.(status := Failed, marker := outcome.marker);
        if world.dies(op + 1) { return Some(Died), next, trace; }
        row := SavedRow(Disturbed(row, world.others(op + 1)), attempt, next);
        return Some(Faulted), next, trace;
      }
      trace := trace + [BatchStep(approved, entry.marker, outcome.hasMore, outcome.marker)];
      var stalled := outcome.hasMore && outcome.marker == entry.marker;
      next := next.(
        marker := outcome.marker,
        batchesCompleted := entry.batchesCompleted + 1,
        status := if stalled then Failed else if outcome.hasMore then Running else Completed);
      if world.dies(op + 1) { return Some(Died), next, trace; }
      row := Disturbed(row, world.others(op + 1));
      var answer := SaveAnswerFor(row, attempt, next);
      row := SavedRow(row, attempt, next);
      if answer != SaveSuperseded { savedBatches := savedBatches + 1; }
      over := if answer == SaveCancelled then Some(WasCancelled)
              else if answer == SaveSuperseded then Some(Superseded)
              else if stalled then Some(Stalled)
              else if !outcome.hasMore then Some(Finished)
              else None;
    }

    // The loop of `_drive_apply`.
    method TakeTurns(attempt: string, approved: Approved, world: World, first: Entry, ghost fuel: nat)
      returns (result: Driven, ghost trace: seq<BatchStep>)
      requires Loop(world, id, approved, attempt, first, 0, Now([]), fuel).Some?
      modifies this`row, this`results, this`savedBatches
      ensures Loop(world, id, approved, attempt, first, 0, old(Now([])), fuel) == Some((result, Now(trace)))
    {
      trace := [];
      var entry, n := first, 0;
      while true
        invariant n <= fuel
        invariant Loop(world, id, approved, attempt, entry, n, Now(trace), fuel - n)
               == Loop(world, id, approved, attempt, first, 0, old(Now([])), fuel)
        decreases fuel - n
      {
        var over;
        over, entry, trace := TakeTurn(attempt, approved, world, entry, n, trace);
        if over.Some? { return over.value, trace; }
        n := n + 1;
      }
    }

    // `_drive_apply`
    method Drive(attempt: string, approved: Approved, world: World, ghost fuel: nat)
      returns (result: Driven, ghost trace: seq<BatchStep>)
      requires Driving(world, id, approved, attempt, Now([]), fuel).Some?
      modifies this`row, this`results, this`savedBatches
      ensures Driving(world, id, approved, attempt, old(Now([])), fuel) == Some((result, Now(trace)))
    {
      var begun := Begin(attempt, approved, world);
      if begun.Early? { return begun.result, []; }
      result, trace := TakeTurns(attempt, approved, world, begun.entry, fuel);
    }

    // What `apply` checks before anything is run: the hash of the plan that was saved last, its stored
    // content, and its exact scope. `fits` says whether the plan's candidate hash is that of its candidates.
    method Check(hash: Hash, fits: MigrationPlan -> bool) returns (refusal: Option<ApplyResult>, plan: Option<MigrationPlan>)
      requires Valid()
      ensures refusal == Refusal(reviewed, hash, fits) && (refusal.None? ==> plan == reviewed)
    {
      if planJson.None? || planHash.None? { return Some(NoPlan), None; }
      if hash != planHash.value { return Some(HashMismatch), None; }
      PlansAreLossless(reviewed.value);
      plan := FromPayload(planJson.value);
      if plan.None? || PlanHash(plan.value) != planHash.value { return Some(ContentMismatch), plan; }
      if plan.value.routes == [] || plan.value.candidateHash.None? || !RoutesFit(plan.value) || !fits(plan.value) { return Some(BadScope), plan; }
      return None, plan;
    }

    // `apply`
    method Apply(hash: Hash, fits: MigrationPlan -> bool, attempt: string, world: World, diesLast: bool, ghost fuel: nat)
      returns (result: ApplyResult, ghost trace: seq<BatchStep>)
      requires Valid()
      requires reviewed.Some? ==> Driving(world, id, Approval(reviewed.value), attempt, Now([]), fuel).Some?
      modifies this
      ensures Valid() && reviewed == old(reviewed) && planJson == old(planJson) && planHash == old(planHash)
      // refusals come before anything changes
      ensures !result.Drove? ==> trace == [] && status == old(status) && old(Now([])) == Now([])
      ensures result == NoPlan <==> reviewed.None?
      ensures result == HashMismatch <==> reviewed.Some? && hash != PlanHash(reviewed.value)
      ensures result == BadScope <==> reviewed.Some? && hash == PlanHash(reviewed.value) && !(Executable(reviewed.value) && fits(reviewed.value))
      ensures result.Drove? <==> reviewed.Some? && hash == PlanHash(reviewed.value) && Executable(reviewed.value) && fits(reviewed.value)
      // the hash of a plan drives that plan or nothing
      ensures forall plan: MigrationPlan :: plan.candidateHash != Some("") && hash == PlanHash(plan) && result.Drove? ==> reviewed == Some(plan)
      // what is driven is the reviewed plan's own approval
      ensures result.Drove? ==> Driving(world, id, Approval(reviewed.value), attempt, old(Now([])), fuel) == Some((result.driven, Now(trace)))
      ensures result.Drove? ==> Kept(Approval(reviewed.value), StartMarker(old(row)), old(savedBatches), result.driven, Now(trace))
      ensures trace != [] ==> reviewed.Some? && Resumable(old(row), Approval(reviewed.value)) && !Blocked(old(row))
      // how the run is left
      ensures result.Drove? ==> (status == Applying <==> diesLast || result.driven == Died)
      ensures result.Drove? && !diesLast ==>
                && (status == Applied <==> result.driven == Finished) && (status == RunCancelled <==> result.driven == WasCancelled)
                && (status == RunFailed <==> result.driven in {Superseded, ScopeChanged, Faulted, Stalled})
      // a run that reads applied has executed batches of the reviewed plan exactly when its journal was not completed
      // before; and only then, or if that journal held the reviewed plan's scope, does its journal hold that scope
      ensures result.Drove? && status == Applied ==> Done(row) && (trace != [] <==> !Done(old(row)))
      ensures result.Drove? && status == Applied ==>
                (Holds(row, Approval(reviewed.value)) <==> (Done(old(row)) ==> old(Holds(row, Approval(reviewed.value)))))
    {
      trace := [];
      var refusal, plan := Check(hash, fits);
      if reviewed.Some? {
        ExecutableIff(reviewed.value);
        forall plan: MigrationPlan | plan.candidateHash != Some("") && PlanHash(plan) == PlanHash(reviewed.value) ensures reviewed == Some(plan) {
          OlderReviewsAreRefused(plan, reviewed.value);
        }
      }
      if refusal.Some? { return refusal.value, trace; }
      status := Applying;
      var driven;
      driven, trace := Drive(attempt, Approval(plan.value), world, fuel);
      DrivesKeepTheirPromises(world, id, Approval(plan.value), attempt, old(Now([])), fuel);
      status := StatusAfter(driven, diesLast);
      result := Drove(driven);
    }
  }

  // What a plan must be to be run at all.
  predicate Executable(plan: MigrationPlan) {
    && plan.routes != [] && plan.candidateHash.Some?
    && (forall i :: 0 <= i < |plan.routes| ==>
          var r := plan.routes[i];
          Bare(r.sourceObject) && Bare(r.targetObject) && r.routeKey == r.sourceObject + "|" + r.targetObject)
    && forall i, j :: 0 <= i < j < |plan.routes| ==> plan.routes[i].routeKey != plan.routes[j].routeKey
  }

  // Not empty, and without a space at either end.
  predicate Bare(name: string) { name != "" && !IsSpace(name[0]) && !IsSpace(name[|name| - 1]) }

  lemma ExecutableIff(plan: MigrationPlan)
    ensures Executable(plan) <==> plan.routes != [] && plan.candidateHash.Some? && RoutesFit(plan)
  {
    forall i | 0 <= i < |plan.routes|
      ensures var r := plan.routes[i];
              && (Bare(r.sourceObject) <==> Named(r.sourceObject)) && (Bare(r.targetObject) <==> Named(r.targetObject))
              && KeyOf(RouteOf(r)) == r.sourceObject + "|" + r.targetObject && KeyOf(Approval(plan)[i]) == KeyOf(RouteOf(r))
    {
    }
    if Executable(plan) {
      forall i, j | 0 <= i < j < |plan.routes| ensures KeyOf(Approval(plan)[i]) != KeyOf(Approval(plan)[j]) {
        assert plan.routes[i].routeKey != plan.routes[j].routeKey;
      }
    }
    if RoutesFit(plan) {
      forall i, j | 0 <= i < j < |plan.routes| ensures plan.routes[i].routeKey != plan.routes[j].routeKey {
        assert KeyOf(Approval(plan)[i]) != KeyOf(Approval(plan)[j]);
      }
    }
  }

  // Why `apply` refuses, if it does.
  function Refusal(reviewed: Option<MigrationPlan>, hash: Hash, fits: MigrationPlan -> bool): Option<ApplyResult> {
    if reviewed.None? then Some(NoPlan)
    else if hash != PlanHash(reviewed.value) then Some(HashMismatch)
    else if reviewed.value.routes == [] || reviewed.value.candidateHash.None? || !RoutesFit(reviewed.value) || !fits(reviewed.value) then Some(BadScope)
    else None
  }

  datatype ApplyResult = NoPlan | HashMismatch | ContentMismatch | BadScope | Drove(driven: Driven)

  // How the run is left: a dead process leaves it in `applying`.
  function StatusAfter(driven: Driven, diesLast: bool): RunStatus {
    if driven.Died? || diesLast then Applying
    else if driven.Finished? then Applied
    else if driven.WasCancelled? then RunCancelled
    else RunFailed
  }

  // -- Whole histories ------------------------------------------------------------------------------------

  datatype Command =
    | DoPlan(plan: MigrationPlan)
    | DoApply(hash: Hash, fits: MigrationPlan -> bool, attempt: string, world: World, diesLast: bool)

  // The plan a history leaves for review.
  function LastPlan(commands: seq<Command>): Option<MigrationPlan> {
    if commands == [] then None
    else if commands[|commands| - 1].DoPlan? then Some(commands[|commands| - 1].plan)
    else LastPlan(commands[..|commands| - 1])
  }

  // Every drive in this world ends: its batches come to an end, or the process is killed.
  ghost predicate AlwaysStops(world: World) {
    forall run, approved, attempt, p :: Stops(world, run, approved, attempt, p)
  }

  ghost predicate Possible(command: Command) {
    match command
    case DoPlan(plan) => plan.candidateHash != Some("")
    case DoApply(_, _, _, world, _) => AlwaysStops(world)
  }

  method Execute(run: Run, command: Command) returns (ghost result: Option<ApplyResult>)
    requires run.Valid() && Possible(command)
    modifies run
    ensures run.Valid() && run.reviewed == if command.DoPlan? then Some(command.plan) else old(run.reviewed)
    ensures (old(run.status) == Applied ==> old(Done(run.row))) ==> (run.status == Applied ==> Done(run.row))
    ensures result.Some? <==> command.DoApply?
    ensures result.Some? && result.value.Drove? ==> old(run.reviewed).Some? && command.hash == PlanHash(old(run.reviewed).value)
  {
    match command {
      case DoPlan(plan) =>
        run.SavePlan(plan);
        result := None;
      case DoApply(hash, fits, attempt, world, diesLast) =>
        ghost var approved := if run.reviewed.Some? then Approval(run.reviewed.value) else [];
        assert Stops(world, run.id, approved, attempt, run.Now([]));
        ghost var fuel: nat :| Driving(world, run.id, approved, attempt, run.Now([]), fuel).Some?;
        var answer, _ := run.Apply(hash, fits, attempt, world, diesLast, fuel);
        result := Some(answer);
    }
  }

  /** Over any history of plans and applies, finished, failed, cancelled or killed anywhere: the
      stored hash is the hash of the stored payload of the last plan, the persisted batch count is
      the number of batches whose save was written, a run reads `applied` only while its journal
      is completed, and no apply drove anything but the plan saved last before it, under its hash. */
  method Lifetime(id: string, commands: seq<Command>) returns (run: Run, ghost results: seq<Option<ApplyResult>>)
    requires forall i :: 0 <= i < |commands| ==> Possible(commands[i])
    ensures fresh(run) && run.Valid() && run.reviewed == LastPlan(commands)
    ensures run.status == Applied ==> Done(run.row)
    ensures |results| == |commands| && forall i :: 0 <= i < |commands| ==> HashedRight(commands, results, i)
  {
    run := new Run(id);
    results := [];
    var i := 0;
    while i < |commands|
      invariant 0 <= i <= |commands|
      invariant run.Valid() && run.reviewed == LastPlan(commands[..i])
      invariant run.status == Applied ==> Done(run.row)
      invariant |results| == i && forall j :: 0 <= j < i ==> HashedRight(commands, results, j)
    {
      assert commands[..i + 1][..i] == commands[..i];
      ghost var result := Execute(run, commands[i]);
      ghost var before := results;
      results := results + [result];
      assert forall j :: 0 <= j < i ==> results[j] == before[j];
      assert forall j :: 0 <= j < i ==> HashedRight(commands, before, j) ==> HashedRight(commands, results, j);
      i := i + 1;
    }
    assert commands[..i] == commands;
  }

  // If the i-th command drove a plan, it named the hash of the last plan before it.
  predicate HashedRight(commands: seq<Command>, results: seq<Option<ApplyResult>>, i: nat)
    requires i < |commands| && i < |results|
  {
    results[i] != None && results[i].value.Drove? ==>
      commands[i].DoApply? && LastPlan(commands[..i]).Some? && commands[i].hash == PlanHash(LastPlan(commands[..i]).value)
  }

  /** An older review is refused as soon as a different plan has been saved: no other plan has its hash. */
  lemma OlderReviewsAreRefused(older: MigrationPlan, newer: MigrationPlan)
    requires older.candidateHash != Some("") && newer.candidateHash != Some("")
    ensures PlanHash(older) == PlanHash(newer) <==> older == newer
  {
    if PlanHash(older) == PlanHash(newer) {
      HashesSeparatePlans(older, newer);
    }
  }
}
