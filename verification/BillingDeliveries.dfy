/**
 Native billing scenarios: the membership loop over deliveries, the rules of each case, and what an
 accepted scenario therefore says about invoices.
 */
module BillingDeliveries {
  import opened Basics

  type Key = string

  datatype ImportStatus = Complete | Partial | Failed | Cancelled

  datatype Failure = NoFailure | AfterImport | AfterInvoiceCommit

  datatype Case =
    | CompleteCase | ScopedComplete | EmptyCase | PartialCase | FailedCase | CancelledCase
    | Retry | HandoffRetry | RepeatedSchedule | Overlap | Bulk

  // `at` is the parsed clock; canonical timestamps are equal exactly when their clocks are.
  datatype Delivery = Delivery(
    id: string,
    runId: string,
    at: nat,
    status: ImportStatus,
    imported: set<Key>,
    billed: set<Key>,
    failure: Failure,
    group: Option<string>)

  datatype Scenario = Scenario(
    id: string,
    workflowId: string,
    mapping: string,
    configuration: string,
    case_: Case,
    keys: set<Key>,
    orders: set<Key>,
    invoices: set<Key>,
    deliveries: seq<Delivery>,
    required: bool)

  // One turn of the membership loop.
  predicate DeliveryOk(keys: set<Key>, previous: set<Key>, d: Delivery) {
    && d.imported <= keys && d.billed <= keys && previous <= d.billed
    && if d.status != Complete || d.failure == AfterImport then d.billed == previous
       else if d.failure == AfterInvoiceCommit then previous < d.billed <= previous + d.imported
       else d.billed == previous + d.imported
  }

  predicate Accepted(keys: set<Key>, seeded: set<Key>, deliveries: seq<Delivery>)
    decreases |deliveries|
  {
    deliveries == [] || (DeliveryOk(keys, seeded, deliveries[0]) && Accepted(keys, deliveries[0].billed, deliveries[1..]))
  }

  /** The loop itself: it carries the invoices of the attempt before and stops at the first fault. */
  method CheckDeliveries(keys: set<Key>, seeded: set<Key>, deliveries: seq<Delivery>) returns (ok: bool, last: set<Key>)
    ensures ok <==> Accepted(keys, seeded, deliveries)
    ensures ok ==> last == Final(seeded, deliveries)
  {
    last := seeded;
    var i := 0;
    while i < |deliveries|
      invariant 0 <= i <= |deliveries|
      invariant Accepted(keys, seeded, deliveries) <==> Accepted(keys, last, deliveries[i..])
      invariant Final(seeded, deliveries) == Final(last, deliveries[i..])
    {
      var d := deliveries[i];
      assert deliveries[i..][1..] == deliveries[i + 1..];
      if !DeliveryOk(keys, last, d) {
        return false, last;
      }
      last := d.billed;
      i := i + 1;
    }
    ok := true;
  }

  // The invoices after the last attempt.
  function Final(seeded: set<Key>, deliveries: seq<Delivery>): set<Key> {
    if deliveries == [] then seeded else deliveries[|deliveries| - 1].billed
  }

  // Keys of complete imports that ran to their end, and of those that at least reached invoicing.
  function Certain(deliveries: seq<Delivery>): set<Key> {
    if deliveries == [] then {} else
    (if deliveries[0].status == Complete && deliveries[0].failure == NoFailure then deliveries[0].imported else {})
    + Certain(deliveries[1..])
  }

  function Possible(deliveries: seq<Delivery>): set<Key> {
    if deliveries == [] then {} else
    (if deliveries[0].status == Complete && deliveries[0].failure != AfterImport then deliveries[0].imported else {})
    + Possible(deliveries[1..])
  }

  /** For delivery sequences of any length: invoices never leave the fixture, are never lost, include
      every Order of an unharmed complete import, and contain nothing that no complete import billed. */
  lemma {:induction false} InvoicesAreBounded(keys: set<Key>, seeded: set<Key>, deliveries: seq<Delivery>)
    requires seeded <= keys && Accepted(keys, seeded, deliveries)
    ensures seeded + Certain(deliveries) <= Final(seeded, deliveries) <= seeded + Possible(deliveries)
    ensures Final(seeded, deliveries) <= keys
    decreases |deliveries|
  {
    if deliveries != [] {
      var d := deliveries[0];
      InvoicesAreBounded(keys, d.billed, deliveries[1..]);
      assert Final(seeded, deliveries) == Final(d.billed, deliveries[1..]);
    }
  }

  lemma {:induction false} InvoicesOnlyGrow(keys: set<Key>, seeded: set<Key>, deliveries: seq<Delivery>, i: nat, j: nat)
    requires Accepted(keys, seeded, deliveries) && i <= j < |deliveries|
    ensures seeded <= deliveries[i].billed <= deliveries[j].billed
    decreases |deliveries|
  {
    var rest := deliveries[1..];
    if i > 0 {
      InvoicesOnlyGrow(keys, deliveries[0].billed, rest, i - 1, j - 1);
    } else if j > 0 {
      InvoicesOnlyGrow(keys, deliveries[0].billed, rest, 0, j - 1);
      assert rest[j - 1] == deliveries[j];
    }
  }

  /** A delivery that is not a complete import, or stops after it, never changes the invoices, so
      it can be left out of any accepted sequence. */
  lemma {:induction false} IdleDeliveriesCanBeDropped(keys: set<Key>, seeded: set<Key>, deliveries: seq<Delivery>, k: nat)
    requires k < |deliveries| && Accepted(keys, seeded, deliveries)
    requires deliveries[k].status != Complete || deliveries[k].failure == AfterImport
    ensures var rest := deliveries[..k] + deliveries[k + 1..];
            Accepted(keys, seeded, rest) && Final(seeded, rest) == Final(seeded, deliveries)
    decreases |deliveries|
  {
    var rest := deliveries[..k] + deliveries[k + 1..];
    if k == 0 {
      assert rest == deliveries[1..];
    } else {
      var tail := deliveries[1..];
      IdleDeliveriesCanBeDropped(keys, deliveries[0].billed, tail, k - 1);
      assert rest[1..] == tail[..k - 1] + tail[k..];
    }
  }

  // -- The cases ---------------------------------------------------------------------------------------------

  predicate Incomplete(c: Case) { c.PartialCase? || c.FailedCase? || c.CancelledCase? }

  function StatusOf(c: Case): ImportStatus {
    if c.PartialCase? then Partial else if c.FailedCase? then Failed else Cancelled
  }

  predicate Multi(c: Case) { c.Retry? || c.HandoffRetry? || c.RepeatedSchedule? || c.Overlap? }

  predicate SeedsOk(s: Scenario) {
    && 3 <= |s.keys| <= 10000
    && s.invoices <= s.orders <= s.keys
    && s.invoices != {} && s.keys - s.orders != {} && s.orders - s.invoices != {}
  }

  predicate StatusesOk(s: Scenario)
    requires |s.deliveries| >= 1
  {
    var first := s.deliveries[0];
    if Incomplete(s.case_) then
      && first.status == StatusOf(s.case_) && first.imported != {}
      && first.imported - s.orders != {}
      && first.imported * (s.orders - s.invoices) != {}
    else forall i :: 0 <= i < |s.deliveries| ==> s.deliveries[i].status == Complete
  }

  predicate MembershipOk(s: Scenario)
    requires |s.deliveries| >= 1
  {
    var first := s.deliveries[0];
    if s.case_.EmptyCase? then first.imported == {}
    else if s.case_.ScopedComplete? then
      && first.imported < s.keys && first.imported - s.orders != {}
      && s.orders - s.invoices - first.imported != {}
    else Incomplete(s.case_) || forall i :: 0 <= i < |s.deliveries| ==> s.deliveries[i].imported == s.keys
  }

  predicate FailuresOk(s: Scenario)
    requires |s.deliveries| >= 1
  {
    var first, last := s.deliveries[0], s.deliveries[|s.deliveries| - 1];
    if s.case_.Retry? || s.case_.HandoffRetry? then
      && first.runId == last.runId && first.at == last.at
      && first.failure == (if s.case_.HandoffRetry? then AfterImport else AfterInvoiceCommit)
      && last.failure == NoFailure
    else forall i :: 0 <= i < |s.deliveries| ==> s.deliveries[i].failure == NoFailure
  }

  predicate SchedulesOk(s: Scenario)
    requires |s.deliveries| >= 1
  {
    var first, last := s.deliveries[0], s.deliveries[|s.deliveries| - 1];
    && (s.case_.RepeatedSchedule? || s.case_.Overlap? ==> first.runId != last.runId)
    && (s.case_.RepeatedSchedule? ==> last.at > first.at)
    && if s.case_.Overlap? then first.group.Some? && first.group == last.group && first.at == last.at
       else forall i :: 0 <= i < |s.deliveries| ==> s.deliveries[i].group.None?
  }

  predicate Valid(s: Scenario) {
    && SeedsOk(s)
    && 1 <= |s.deliveries| <= 8
    && (forall i, j :: 0 <= i < j < |s.deliveries| ==> s.deliveries[i].id != s.deliveries[j].id)
    && (forall i :: 0 <= i < |s.deliveries| ==> s.deliveries[i].status == Complete || s.deliveries[i].failure == NoFailure)
    && Accepted(s.keys, s.invoices, s.deliveries)
    && |s.deliveries| == (if Multi(s.case_) then 2 else 1)
    && StatusesOk(s) && MembershipOk(s) && (s.case_.Bulk? ==> |s.keys| >= 2001)
    && FailuresOk(s) && SchedulesOk(s)
  }

  /** What each accepted case proves about the installation: an interrupted, repeated or overlapping
      run ends with one invoice for every record, exactly like one uninterrupted complete run; a
      scoped run adds exactly its import and leaves an unbilled Order alone; an empty or incomplete
      import changes nothing. */
  lemma CasesEndAlike(s: Scenario)
    requires Valid(s)
    ensures Final(s.invoices, s.deliveries) ==
              if Incomplete(s.case_) || s.case_.EmptyCase? then s.invoices
              else if s.case_.ScopedComplete? then s.invoices + s.deliveries[0].imported
              else s.keys
    ensures s.case_.ScopedComplete? ==> s.orders - Final(s.invoices, s.deliveries) != {}
  {
    InvoicesAreBounded(s.keys, s.invoices, s.deliveries);
    var d := s.deliveries;
    if Multi(s.case_) {
      assert d[1..][1..] == [] && Certain(d[1..]) == s.keys;
      assert Certain(d) >= s.keys;
    } else {
      assert d[1..] == [];
      assert Certain(d) == Possible(d);
    }
  }

  /** An interrupted invoice run has always committed some invoice, and the retry still adds the rest. */
  lemma RetryRecoversCommittedInvoices(s: Scenario)
    requires Valid(s) && s.case_.Retry?
    ensures s.invoices < s.deliveries[0].billed <= s.deliveries[1].billed == s.keys
  {
    CasesEndAlike(s);
    assert Accepted(s.keys, s.deliveries[0].billed, s.deliveries[1..]);
  }

  // What happens in one attempt.
  predicate Attempt(d: Delivery, status: ImportStatus, failure: Failure, imported: set<Key>, billed: set<Key>) {
    d.status == status && d.failure == failure && d.imported == imported && d.billed == billed
  }

  // What a scenario of each case puts an installation through.
  ghost predicate Exercises(s: Scenario) {
    var d := s.deliveries;
    match s.case_
    case CompleteCase => |d| == 1 && Attempt(d[0], Complete, NoFailure, s.keys, s.keys)
    case Bulk => |d| == 1 && Attempt(d[0], Complete, NoFailure, s.keys, s.keys) && |s.keys| > 2000
    case ScopedComplete =>
      && |d| == 1 && Attempt(d[0], Complete, NoFailure, d[0].imported, s.invoices + d[0].imported)
      && d[0].imported <= s.keys && d[0].imported - s.orders != {} && s.orders - d[0].billed != {}
    case EmptyCase => |d| == 1 && Attempt(d[0], Complete, NoFailure, {}, s.invoices)
    case PartialCase => Interrupted(s, Partial)
    case FailedCase => Interrupted(s, Failed)
    case CancelledCase => Interrupted(s, Cancelled)
    case Retry =>
      && |d| == 2 && Attempt(d[0], Complete, AfterInvoiceCommit, s.keys, d[0].billed) && s.invoices < d[0].billed <= s.keys
      && Attempt(d[1], Complete, NoFailure, s.keys, s.keys) && d[0].runId == d[1].runId && d[0].at == d[1].at
    case HandoffRetry =>
      && |d| == 2 && Attempt(d[0], Complete, AfterImport, s.keys, s.invoices)
      && Attempt(d[1], Complete, NoFailure, s.keys, s.keys) && d[0].runId == d[1].runId && d[0].at == d[1].at
    case RepeatedSchedule =>
      && |d| == 2 && Attempt(d[0], Complete, NoFailure, s.keys, s.keys) && Attempt(d[1], Complete, NoFailure, s.keys, s.keys)
      && d[0].runId != d[1].runId && d[0].at < d[1].at
    case Overlap =>
      && |d| == 2 && Attempt(d[0], Complete, NoFailure, s.keys, s.keys) && Attempt(d[1], Complete, NoFailure, s.keys, s.keys)
      && d[0].runId != d[1].runId && d[0].at == d[1].at && d[0].group.Some? && d[0].group == d[1].group
  }

  // An import that did not complete, of a new and of an unbilled Order, bills neither.
  ghost predicate Interrupted(s: Scenario, status: ImportStatus) {
    && |s.deliveries| == 1
    && var d := s.deliveries[0];
       && Attempt(d, status, NoFailure, d.imported, s.invoices)
       && d.imported <= s.keys
       && (exists k :: k in d.imported && k !in s.orders) && exists k :: k in d.imported && k in s.orders && k !in s.invoices
  }

  // A fixture with work of every kind: billed and unbilled Orders, and records without one.
  predicate Fixture(s: Scenario) {
    3 <= |s.keys| <= 10000 && {} < s.invoices < s.orders < s.keys
  }

  // Attempts that can be told apart, in a common group only where they overlap.
  ghost predicate Apart(s: Scenario) {
    && (|s.deliveries| == 2 ==> s.deliveries[0].id != s.deliveries[1].id)
    && (!s.case_.Overlap? ==> forall i :: 0 <= i < |s.deliveries| ==> s.deliveries[i].group == None)
  }

  lemma AcceptedCasesExercise(s: Scenario)
    requires Valid(s)
    ensures Exercises(s) && Fixture(s) && Apart(s)
  {
    CasesEndAlike(s);
    var d := s.deliveries;
    if Multi(s.case_) {
      assert Accepted(s.keys, d[0].billed, d[1..]) && d[1..][0] == d[1];
      assert s.invoices + s.keys == s.keys;
    } else if Incomplete(s.case_) {
      var new_ :| new_ in d[0].imported - s.orders;
      var old_ :| old_ in d[0].imported * (s.orders - s.invoices);
    } else if s.case_.ScopedComplete? {
      var k :| k in s.orders - s.invoices - d[0].imported;
      assert k in s.orders - d[0].billed;
    }
  }

  lemma ExercisesAreAccepted(s: Scenario)
    requires Exercises(s) && Fixture(s) && Apart(s)
    ensures Accepted(s.keys, s.invoices, s.deliveries)
  {
    var d := s.deliveries;
    assert s.invoices + s.keys == s.keys;
    if |d| == 2 {
      assert d[1..] == [d[1]] && d[1..][1..] == [];
      assert d[0].billed + s.keys == s.keys;
      assert Accepted(s.keys, d[0].billed, d[1..]);
    } else {
      assert d[1..] == [];
      assert s.invoices + {} == s.invoices;
    }
  }

  lemma ExercisesAreValid(s: Scenario)
    requires Exercises(s) && Fixture(s) && Apart(s)
    ensures Valid(s)
  {
    ExercisesAreAccepted(s);
    var d := s.deliveries;
    if Incomplete(s.case_) {
      var new_ :| new_ in d[0].imported && new_ !in s.orders;
      assert new_ in d[0].imported - s.orders;
      var old_ :| old_ in d[0].imported && old_ in s.orders && old_ !in s.invoices;
      assert old_ in d[0].imported * (s.orders - s.invoices);
    } else if s.case_.ScopedComplete? {
      var k :| k in s.orders - d[0].billed;
      assert k in s.orders - s.invoices - d[0].imported;
    }
    SeedsLeaveWork(s);
  }

  lemma SeedsLeaveWork(s: Scenario)
    requires Fixture(s)
    ensures SeedsOk(s)
  {
    assert !(s.keys <= s.orders) && !(s.orders <= s.invoices);
    var new_ :| new_ in s.keys && new_ !in s.orders;
    var old_ :| old_ in s.orders && old_ !in s.invoices;
    assert new_ in s.keys - s.orders && old_ in s.orders - s.invoices;
  }

  /** A scenario is accepted exactly if it exercises what its case is named for, on a fixture with work of
      every kind: who runs when and under which run id, what fails where, what is imported, and exactly
      what is billed after each attempt. */
  lemma AcceptedIffExercises(s: Scenario)
    ensures Valid(s) <==> Exercises(s) && Fixture(s) && Apart(s)
  {
    if Valid(s) { AcceptedCasesExercise(s); }
    if Exercises(s) && Fixture(s) && Apart(s) { ExercisesAreValid(s); }
  }

  // -- Coverage ------------------------------------------------------------------------------------------------

  const ALL_CASES: set<Case> := {CompleteCase, ScopedComplete, EmptyCase, PartialCase, FailedCase, CancelledCase,
                                 Retry, HandoffRetry, RepeatedSchedule, Overlap, Bulk}

  function RequiredCases(scenarios: seq<Scenario>): set<Case> {
    if scenarios == [] then {} else
    (if scenarios[0].required then {scenarios[0].case_} else {}) + RequiredCases(scenarios[1..])
  }

  // As many scenarios as cases, and every case among the required ones.
  predicate Covers(scenarios: seq<Scenario>) {
    |scenarios| == 11 && RequiredCases(scenarios) == ALL_CASES
  }

  datatype Workflow = Workflow(id: string, mapping: string, configuration: string, intervalMinutes: nat)

  // `validate_billing_scenarios`
  predicate SuiteOk(w: Workflow, scenarios: seq<Scenario>) {
    && (forall i :: 0 <= i < |scenarios| ==> Valid(scenarios[i]))
    && (forall i, j :: 0 <= i < j < |scenarios| ==> scenarios[i].id != scenarios[j].id)
    && Covers(scenarios)
    && forall i :: 0 <= i < |scenarios| ==> BelongsTo(scenarios[i], w)
  }

  predicate BelongsTo(s: Scenario, w: Workflow) {
    && s.workflowId == w.id && s.configuration == w.configuration && s.mapping == w.mapping
    && (s.case_.RepeatedSchedule? && |s.deliveries| == 2 ==> s.deliveries[1].at - s.deliveries[0].at == w.intervalMinutes * 60)
  }

  lemma {:induction false} RequiredCasesAreFew(scenarios: seq<Scenario>)
    ensures |RequiredCases(scenarios)| <= |scenarios|
    decreases |scenarios|
  {
    if scenarios != [] {
      RequiredCasesAreFew(scenarios[1..]);
      var one := if scenarios[0].required then {scenarios[0].case_} else {};
      assert |one + RequiredCases(scenarios[1..])| <= |one| + |RequiredCases(scenarios[1..])|;
    }
  }

  // With as many required cases as scenarios there is no room for an optional or repeated one.
  lemma {:induction false} FullHouse(scenarios: seq<Scenario>)
    requires |RequiredCases(scenarios)| == |scenarios|
    ensures forall i :: 0 <= i < |scenarios| ==> scenarios[i].required && scenarios[i].case_ in RequiredCases(scenarios)
    ensures forall i, j :: 0 <= i < j < |scenarios| ==> scenarios[i].case_ != scenarios[j].case_
    decreases |scenarios|
  {
    if scenarios != [] {
      var rest := RequiredCases(scenarios[1..]);
      RequiredCasesAreFew(scenarios[1..]);
      var one := if scenarios[0].required then {scenarios[0].case_} else {};
      assert |one + rest| == |one| + |rest| - |one * rest|;
      assert |one * rest| <= |one| <= 1;
      assert one * rest == {};
      assert scenarios[0].required && scenarios[0].case_ !in rest;
      FullHouse(scenarios[1..]);
    }
  }

  /** The coverage test, though it only counts, means that every case occurs exactly once and is required. */
  lemma EveryCaseExactlyOnce(scenarios: seq<Scenario>, c: Case)
    requires Covers(scenarios)
    ensures exists i :: 0 <= i < 11 && scenarios[i].case_ == c && scenarios[i].required
                        && forall j :: 0 <= j < 11 && scenarios[j].case_ == c ==> j == i
  {
    assert |ALL_CASES| == 11;
    FullHouse(scenarios);
    assert c in ALL_CASES;
    var i := FindCase(scenarios, c);
    forall j | 0 <= j < 11 && scenarios[j].case_ == c ensures j == i {}
  }

  lemma {:induction false} FindCase(scenarios: seq<Scenario>, c: Case) returns (i: nat)
    requires c in RequiredCases(scenarios)
    ensures i < |scenarios| && scenarios[i].case_ == c && scenarios[i].required
    decreases |scenarios|
  {
    if scenarios[0].required && scenarios[0].case_ == c {
      i := 0;
    } else {
      i := FindCase(scenarios[1..], c);
      i := i + 1;
    }
  }

  /** An accepted suite puts its workflow through every case: there is exactly one scenario of it, required,
      of this workflow with its mapping and configuration, which exercises that case; and the repeated
      schedule comes exactly one configured interval later. */
  lemma SuitesExerciseEveryCase(w: Workflow, scenarios: seq<Scenario>, c: Case) returns (i: nat)
    requires SuiteOk(w, scenarios)
    ensures i < |scenarios| && forall j :: 0 <= j < |scenarios| && j != i ==> scenarios[j].case_ != c && scenarios[j].id != scenarios[i].id
    ensures var s := scenarios[i];
            && s.case_ == c && s.required && Exercises(s)
            && s.workflowId == w.id && s.mapping == w.mapping && s.configuration == w.configuration
            && (c.RepeatedSchedule? ==> s.deliveries[1].at == s.deliveries[0].at + w.intervalMinutes * 60)
  {
    EveryCaseExactlyOnce(scenarios, c);
    i :| 0 <= i < 11 && scenarios[i].case_ == c && scenarios[i].required && forall j :: 0 <= j < 11 && scenarios[j].case_ == c ==> j == i;
    AcceptedCasesExercise(scenarios[i]);
    assert BelongsTo(scenarios[i], w);
    forall j | 0 <= j < |scenarios| && j != i ensures scenarios[j].case_ != c && scenarios[j].id != scenarios[i].id {
      if j < i { assert scenarios[j].id != scenarios[i].id; } else { assert scenarios[i].id != scenarios[j].id; }
    }
  }
}
