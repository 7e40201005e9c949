/**
 The per-record results of a migration run: the route-keyed ledger of older releases, the pair-keyed
 results that replaced it, and the two reads that join them.
 */
module Ledger {
  import opened Basics
  import opened Ordering

  datatype Status = Created | Updated | Skipped | Failed

  predicate Terminal(s: Status) { !s.Failed? }

  datatype Row = Row(destination: Option<string>, status: Status, message: Option<string>)

  datatype Entry = Entry(source: string, row: Row)

  // The primary keys of the two tables.
  datatype RouteKey = RouteKey(run: string, route: string, source: string)
  datatype PairKey = PairKey(run: string, from: string, to: string, source: string)

  type Routes = map<RouteKey, Row>
  type Pairs = map<PairKey, Row>

  // ------------------------------------------------------------------ writing

  // The ledger after a batch: every entry replaces the row of its record.
  function Recorded(ledger: Routes, run: string, route: string, entries: seq<Entry>): Routes {
    if entries == [] then ledger else
    var last := entries[|entries| - 1];
    Recorded(ledger, run, route, entries[..|entries| - 1])[RouteKey(run, route, last.source) := last.row]
  }

  // The upsert of a pair-keyed result: a terminal status stays, a known destination is not lost, and
  // a failure does not overwrite the message of a terminal row.
  function Merged(before: Option<Row>, row: Row): Row {
    if before.None? then row else
    var old_ := before.value;
    Row(
      if row.destination.Some? then row.destination else old_.destination,
      if Terminal(old_.status) then old_.status else row.status,
      if Terminal(old_.status) && row.status.Failed? then old_.message else row.message)
  }

  function At(results: Pairs, key: PairKey): Option<Row> {
    if key in results then Some(results[key]) else None
  }

  function Upserted(results: Pairs, run: string, from: string, to: string, entries: seq<Entry>): Pairs {
    if entries == [] then results else
    var before := Upserted(results, run, from, to, entries[..|entries| - 1]);
    var last := entries[|entries| - 1];
    var key := PairKey(run, from, to, last.source);
    before[key := Merged(At(before, key), last.row)]
  }

  class Store {
    var ledger: Routes
    var results: Pairs

    constructor ()
      ensures ledger == map[] && results == map[]
    {
      ledger, results := map[], map[];
    }

    /** `record_results` */
    method RecordResults(run: string, route: string, entries: seq<Entry>)
      modifies this`ledger
      ensures ledger == Recorded(old(ledger), run, route, entries)
    {
      for i := 0 to |entries|
        invariant ledger == Recorded(old(ledger), run, route, entries[..i])
      {
        ledger := ledger[RouteKey(run, route, entries[i].source) := entries[i].row];
        assert entries[..i + 1][..i] == entries[..i];
      }
      assert entries[..|entries|] == entries;
    }

    /** The write of the execution ledger. */
    method UpsertResults(run: string, from: string, to: string, entries: seq<Entry>)
      modifies this`results
      ensures results == Upserted(old(results), run, from, to, entries)
    {
      for i := 0 to |entries|
        invariant results == Upserted(old(results), run, from, to, entries[..i])
      {
        var key := PairKey(run, from, to, entries[i].source);
        results := results[key := Merged(At(results, key), entries[i].row)];
        assert entries[..i + 1][..i] == entries[..i];
      }
      assert entries[..|entries|] == entries;
    }
  }

  // ------------------------------------------------------------------ last writer wins

  // The last entry of a batch for one record.
  function LastFor(entries: seq<Entry>, source: string): Option<Row> {
    if entries == [] then None
    else if entries[|entries| - 1].source == source then Some(entries[|entries| - 1].row)
    else LastFor(entries[..|entries| - 1], source)
  }

  /** After a batch every record of the route has the row of the last entry that names it, if any
      does; all other rows are as they were. */
  lemma {:induction false} LastWriterWins(ledger: Routes, run: string, route: string, entries: seq<Entry>, key: RouteKey)
    ensures var last := if key.run == run && key.route == route then LastFor(entries, key.source) else None;
            var after := Recorded(ledger, run, route, entries);
            if last.Some? then key in after && after[key] == last.value
            else (key in after <==> key in ledger) && (key in ledger ==> after[key] == ledger[key])
    decreases |entries|
  {
    if entries != [] { LastWriterWins(ledger, run, route, entries[..|entries| - 1], key); }
  }

  /** Delivering the last batch again changes nothing. */
  lemma ReplayChangesNothing(ledger: Routes, run: string, route: string, entries: seq<Entry>)
    ensures var after := Recorded(ledger, run, route, entries); Recorded(after, run, route, entries) == after
  {
    var after := Recorded(ledger, run, route, entries);
    var again := Recorded(after, run, route, entries);
    forall key ensures (key in again <==> key in after) && (key in after ==> again[key] == after[key]) {
      LastWriterWins(ledger, run, route, entries, key);
      LastWriterWins(after, run, route, entries, key);
    }
  }

  /** In the pair-keyed results a terminal status is final and a destination, once known, stays known,
      whatever is delivered afterwards. */
  lemma {:induction false} TerminalIsFinal(results: Pairs, run: string, from: string, to: string, entries: seq<Entry>, key: PairKey)
    requires key in results
    ensures var after := Upserted(results, run, from, to, entries);
            && key in after
            && (Terminal(results[key].status) ==> after[key].status == results[key].status)
            && (results[key].destination.Some? ==> after[key].destination.Some?)
    decreases |entries|
  {
    if entries != [] { TerminalIsFinal(results, run, from, to, entries[..|entries| - 1], key); }
  }

  // The rows delivered for one record, in order.
  function RowsFor(entries: seq<Entry>, source: string): seq<Row> {
    if entries == [] then [] else
    var last := entries[|entries| - 1];
    RowsFor(entries[..|entries| - 1], source) + if last.source == source then [last.row] else []
  }

  // All that was ever recorded for a record: what it had, and what was delivered.
  function History(results: Pairs, run: string, from: string, to: string, entries: seq<Entry>, key: PairKey): seq<Row> {
    (if key in results then [results[key]] else [])
    + if key.run == run && key.from == from && key.to == to then RowsFor(entries, key.source) else []
  }

  // The last row of a history of which something holds, if any.
  ghost predicate LastOf(history: seq<Row>, holds: Row -> bool, i: nat) {
    i < |history| && holds(history[i]) && forall j :: i < j < |history| ==> !holds(history[j])
  }

  ghost predicate FirstOf(history: seq<Row>, holds: Row -> bool, i: nat) {
    i < |history| && holds(history[i]) && forall j :: 0 <= j < i ==> !holds(history[j])
  }

  ghost predicate NoneOf(history: seq<Row>, holds: Row -> bool) {
    forall i :: 0 <= i < |history| ==> !holds(history[i])
  }

  function IsTerminal(row: Row): bool { Terminal(row.status) }
  function IsKnown(row: Row): bool { row.destination.Some? }

  // What is kept of a history: the last known destination, the first terminal status, and the message of
  // the last terminal row, or of the last row as long as none is terminal.
  ghost predicate Keeps(row: Row, history: seq<Row>) {
    KeepsDestination(row.destination, history) && KeepsStatus(row.status, history) && KeepsMessage(row.message, history)
  }

  ghost predicate KeepsDestination(destination: Option<string>, history: seq<Row>) {
    && (forall i: nat :: LastOf(history, IsKnown, i) ==> destination == history[i].destination)
    && (NoneOf(history, IsKnown) ==> destination == None)
  }

  ghost predicate KeepsStatus(status: Status, history: seq<Row>) {
    && (forall i: nat :: FirstOf(history, IsTerminal, i) ==> status == history[i].status)
    && (NoneOf(history, IsTerminal) ==> status == Failed)
  }

  ghost predicate KeepsMessage(message: Option<string>, history: seq<Row>) {
    && (forall i: nat :: LastOf(history, IsTerminal, i) ==> message == history[i].message)
    && (NoneOf(history, IsTerminal) && history != [] ==> message == history[|history| - 1].message)
  }

  lemma LastMoves(history: seq<Row>, next: Row, holds: Row -> bool, i: nat)
    ensures LastOf(history + [next], holds, i) <==> if holds(next) then i == |history| else LastOf(history, holds, i)
  {
    var longer := history + [next];
    assert longer[|history|] == next && forall j :: 0 <= j < |history| ==> longer[j] == history[j];
    if LastOf(longer, holds, i) {
      forall j | i < j < |longer| ensures !holds(longer[j]) {}
      assert i < |history| ==> !holds(longer[|history|]);
      forall j | i < j < |history| ensures !holds(history[j]) { assert !holds(longer[j]); }
    }
    if !holds(next) && LastOf(history, holds, i) {
      forall j | i < j < |longer| ensures !holds(longer[j]) { assert j < |history| ==> !holds(history[j]); }
    }
  }

  lemma NoneMoves(history: seq<Row>, next: Row, holds: Row -> bool)
    ensures NoneOf(history + [next], holds) <==> NoneOf(history, holds) && !holds(next)
  {
    var longer := history + [next];
    assert longer[|history|] == next && forall j :: 0 <= j < |history| ==> longer[j] == history[j];
    if NoneOf(longer, holds) {
      assert !holds(longer[|history|]);
      forall j | 0 <= j < |history| ensures !holds(history[j]) { assert !holds(longer[j]); }
    }
  }

  lemma FirstMoves(history: seq<Row>, next: Row, holds: Row -> bool, i: nat)
    ensures FirstOf(history + [next], holds, i) <==> FirstOf(history, holds, i) || (i == |history| && holds(next) && NoneOf(history, holds))
  {
    var longer := history + [next];
    assert longer[|history|] == next && forall j :: 0 <= j < |history| ==> longer[j] == history[j];
    if FirstOf(longer, holds, i) {
      forall j | 0 <= j < i ensures !holds(history[j]) { assert !holds(longer[j]); }
    }
    if FirstOf(history, holds, i) {
      forall j | 0 <= j < i ensures !holds(longer[j]) { assert !holds(history[j]); }
    }
  }

  // A history of which something holds has a first such row.
  lemma SomeFirst(history: seq<Row>, holds: Row -> bool) returns (i: nat)
    requires !NoneOf(history, holds)
    ensures FirstOf(history, holds, i)
  {
    i := 0;
    while !holds(history[i])
      invariant i < |history| && forall j :: 0 <= j < i ==> !holds(history[j])
      decreases |history| - i
    {
      i := i + 1;
    }
  }

  lemma DestinationMoves(row: Row, history: seq<Row>, next: Row)
    requires KeepsDestination(row.destination, history)
    ensures KeepsDestination(Merged(Some(row), next).destination, history + [next])
  {
    NoneMoves(history, next, IsKnown);
    forall i: nat | LastOf(history + [next], IsKnown, i) ensures Merged(Some(row), next).destination == (history + [next])[i].destination {
      LastMoves(history, next, IsKnown, i);
    }
  }

  lemma StatusMoves(row: Row, history: seq<Row>, next: Row)
    requires KeepsStatus(row.status, history) && (Terminal(row.status) <==> !NoneOf(history, IsTerminal))
    ensures KeepsStatus(Merged(Some(row), next).status, history + [next])
  {
    NoneMoves(history, next, IsTerminal);
    forall i: nat | FirstOf(history + [next], IsTerminal, i) ensures Merged(Some(row), next).status == (history + [next])[i].status {
      FirstMoves(history, next, IsTerminal, i);
    }
  }

  lemma MessageMoves(row: Row, history: seq<Row>, next: Row)
    requires KeepsMessage(row.message, history) && (Terminal(row.status) <==> !NoneOf(history, IsTerminal))
    ensures KeepsMessage(Merged(Some(row), next).message, history + [next])
  {
    NoneMoves(history, next, IsTerminal);
    forall i: nat | LastOf(history + [next], IsTerminal, i) ensures Merged(Some(row), next).message == (history + [next])[i].message {
      LastMoves(history, next, IsTerminal, i);
      if !IsTerminal(next) { assert i < |history| && IsTerminal(history[i]) && !NoneOf(history, IsTerminal); }
    }
  }

  lemma MergedKeeps(row: Row, history: seq<Row>, next: Row)
    requires history != [] && Keeps(row, history)
    ensures Keeps(Merged(Some(row), next), history + [next])
  {
    if !NoneOf(history, IsTerminal) { var i := SomeFirst(history, IsTerminal); }
    DestinationMoves(row, history, next);
    StatusMoves(row, history, next);
    MessageMoves(row, history, next);
  }

  lemma FirstRowKeeps(row: Row)
    ensures Keeps(row, [row])
  {
    assert [row][0] == row;
    forall holds: Row -> bool ensures NoneOf([row], holds) <==> !holds(row) {
      assert [row][0] == row;
    }
  }

  /** Whatever sequence of results is delivered, each record keeps of its history the last known
      destination, the first terminal status, and the message of the last terminal row, or the last
      message as long as it has only failed. */
  lemma {:induction false} UpsertsKeepHistory(results: Pairs, run: string, from: string, to: string, entries: seq<Entry>, key: PairKey)
    ensures var after, history := Upserted(results, run, from, to, entries), History(results, run, from, to, entries, key);
            (key in after <==> history != []) && (key in after ==> Keeps(after[key], history))
    decreases |entries|
  {
    if entries != [] {
      var front, last := entries[..|entries| - 1], entries[|entries| - 1];
      UpsertsKeepHistory(results, run, from, to, front, key);
      var history := History(results, run, from, to, front, key);
      if key == PairKey(run, from, to, last.source) {
        assert History(results, run, from, to, entries, key) == history + [last.row];
        if history != [] { MergedKeeps(Upserted(results, run, from, to, front)[key], history, last.row); }
        else {
          assert history + [last.row] == [last.row];
          FirstRowKeeps(last.row);
        }
      } else {
        assert History(results, run, from, to, entries, key) == history;
      }
    } else if key in results {
      assert History(results, run, from, to, entries, key) == [results[key]];
      FirstRowKeeps(results[key]);
    }
  }

  // ------------------------------------------------------------------ reading

  const STATUSES := {Created, Updated, Skipped, Failed}

  function RouteRows(ledger: Routes, run: string, route: string): set<RouteKey> {
    set k | k in ledger && k.run == run && k.route == route
  }

  function PairRows(results: Pairs, run: string, from: string, to: string): set<PairKey> {
    set k | k in results && k.run == run && k.from == from && k.to == to
  }

  function RouteSource(k: RouteKey): string { k.source }
  function PairSource(k: PairKey): string { k.source }

  // The records that rows are about.
  function Sources<K>(rows: set<K>, source: K -> string): set<string> { set k | k in rows :: source(k) }

  function WithStatus<K>(rows: set<K>, table: map<K, Row>, statuses: set<Status>): set<K> {
    set k | k in rows && k in table && table[k].status in statuses
  }

  // `COUNT(*) ... GROUP BY status` over some rows; a status without rows counts zero.
  function Counts<K>(rows: set<K>, table: map<K, Row>): map<Status, nat> {
    map s | s in STATUSES :: |WithStatus(rows, table, {s})|
  }

  function RouteCounts(ledger: Routes, run: string, route: string): map<Status, nat> {
    Counts(RouteRows(ledger, run, route), ledger)
  }

  function PairCounts(results: Pairs, run: string, from: string, to: string): map<Status, nat> {
    Counts(PairRows(results, run, from, to), results)
  }

  // `mapping_group_key` without a filter.
  function PairRoute(from: string, to: string): string { from + "|" + to }

  // `route_key.split("|")`
  function Split(s: string): (parts: seq<string>)
    ensures |parts| >= 1
  {
    if s == [] then [""] else
    Before(s[0], Split(s[1..]))
  }

  // The parts of a string with one more character in front.
  function Before(c: char, parts: seq<string>): (more: seq<string>)
    requires |parts| >= 1
    ensures |more| >= 1
  {
    if c == '|' then [""] + parts else [[c] + parts[0]] + parts[1..]
  }

  const TERMINAL := {Created, Updated, Skipped}

  // The terminal records of the older ledger and of the pair-keyed results.
  function RouteTerminal(ledger: Routes, run: string, route: string): set<string> {
    Sources(WithStatus(RouteRows(ledger, run, route), ledger, TERMINAL), RouteSource)
  }

  function PairTerminal(results: Pairs, run: string, from: string, to: string): set<string> {
    Sources(WithStatus(PairRows(results, run, from, to), results, TERMINAL), PairSource)
  }

  // `terminal_source_ids`
  function TerminalSourceIds(ledger: Routes, results: Pairs, run: string, route: string): set<string> {
    var pair := Split(route);
    RouteTerminal(ledger, run, route) + if |pair| < 2 then {} else PairTerminal(results, run, pair[0], pair[1])
  }

  // No other pair has the route of this one, among the results of the run.
  ghost predicate OnlyPair(results: Pairs, run: string, from: string, to: string) {
    forall k :: k in results && k.run == run && PairRoute(k.from, k.to) == PairRoute(from, to) ==> k.from == from && k.to == to
  }

  // The object pairs that have results in the run, in the order in which the database groups them.
  ghost predicate Groups(results: Pairs, run: string, pairs: seq<(string, string)>) {
    && (forall k :: k in results && k.run == run ==> (k.from, k.to) in pairs)
    && (forall i :: 0 <= i < |pairs| ==> PairRows(results, run, pairs[i].0, pairs[i].1) != {})
  }

  predicate HasRoute(pairs: seq<(string, string)>, route: string) {
    exists i :: 0 <= i < |pairs| && PairRoute(pairs[i].0, pairs[i].1) == route
  }

  function NoCounts(): map<Status, nat> { map s | s in STATUSES :: 0 }

  // Counts written over others; a status without rows leaves what was there.
  function Overlaid(before: map<Status, nat>, counts: map<Status, nat>): map<Status, nat>
    requires before.Keys == counts.Keys == STATUSES
  {
    map s | s in STATUSES :: if counts[s] > 0 then counts[s] else before[s]
  }

  // The groups of one route key written over one another, status by status.
  function Grouped(results: Pairs, run: string, pairs: seq<(string, string)>, route: string): (counts: map<Status, nat>)
    ensures counts.Keys == STATUSES
  {
    if pairs == [] then NoCounts() else
    var last := pairs[|pairs| - 1];
    var before := Grouped(results, run, pairs[..|pairs| - 1], route);
    if PairRoute(last.0, last.1) != route then before else Overlaid(before, PairCounts(results, run, last.0, last.1))
  }

  // `ledger_summary(run)[route]`: from the pair-keyed results where they have the route, from the older
  // ledger where they do not.
  function Summary(ledger: Routes, results: Pairs, run: string, pairs: seq<(string, string)>, route: string): (counts: map<Status, nat>)
    ensures counts.Keys == STATUSES
  {
    if HasRoute(pairs, route) then Grouped(results, run, pairs, route) else RouteCounts(ledger, run, route)
  }

  function Sum(counts: map<Status, nat>, statuses: set<Status>): nat
    requires STATUSES <= counts.Keys
  {
    (if Created in statuses then counts[Created] else 0) + (if Updated in statuses then counts[Updated] else 0)
    + (if Skipped in statuses then counts[Skipped] else 0) + if Failed in statuses then counts[Failed] else 0
  }

  // ------------------------------------------------------------------ splitting routes

  predicate Plain(name: string) { '|' !in name }

  lemma {:induction false} PlainSplits(name: string)
    ensures Plain(name) ==> Split(name) == [name]
    ensures Plain(name) <==> |Split(name)| == 1
    ensures Plain(Split(name)[0])
  {
    if name != [] {
      assert name == [name[0]] + name[1..];
      PlainSplits(name[1..]);
    }
  }

  lemma BeforeJoins(c: char, a: seq<string>, b: seq<string>)
    requires |a| >= 1
    ensures Before(c, a + b) == Before(c, a) + b
  {
    assert (a + b)[0] == a[0] && (a + b)[1..] == a[1..] + b;
  }

  lemma {:induction false} SplitJoins(from: string, to: string)
    ensures Split(PairRoute(from, to)) == Split(from) + Split(to)
  {
    var s := PairRoute(from, to);
    if from == [] {
      assert s[1..] == to;
    } else {
      assert s[1..] == PairRoute(from[1..], to);
      SplitJoins(from[1..], to);
      BeforeJoins(from[0], Split(from[1..]), Split(to));
    }
  }

  /** The pair can be read back from its route key if and only if neither object name holds a bar. */
  lemma RouteNamesItsPair(from: string, to: string)
    ensures var parts := Split(PairRoute(from, to));
            |parts| >= 2 && (parts[0] == from && parts[1] == to <==> Plain(from) && Plain(to))
  {
    SplitJoins(from, to);
    PlainSplits(from);
    PlainSplits(to);
  }

  /** No other pair, whatever its names, has the route key of two names without a bar. */
  lemma PlainPairsAreAlone(results: Pairs, run: string, from: string, to: string)
    requires Plain(from) && Plain(to)
    ensures OnlyPair(results, run, from, to)
  {
    forall k | k in results && k.run == run && PairRoute(k.from, k.to) == PairRoute(from, to) ensures k.from == from && k.to == to {
      SplitJoins(k.from, k.to);
      SplitJoins(from, to);
      PlainSplits(from);
      PlainSplits(to);
      PlainSplits(k.from);
      PlainSplits(k.to);
      assert |Split(k.from) + Split(k.to)| == 2;
      assert [k.from] + [k.to] == [from] + [to];
      assert ([k.from] + [k.to])[0] == k.from && ([k.from] + [k.to])[1] == k.to;
    }
  }

  /** Where no other pair has its route key, the summary of a pair's route holds the pair's counts if it
      has results, and the older ledger's if it has none. */
  lemma SummaryOfAPair(ledger: Routes, results: Pairs, run: string, pairs: seq<(string, string)>, from: string, to: string)
    requires Groups(results, run, pairs) && OnlyPair(results, run, from, to)
    ensures Summary(ledger, results, run, pairs, PairRoute(from, to))
         == if PairRows(results, run, from, to) != {} then PairCounts(results, run, from, to) else RouteCounts(ledger, run, PairRoute(from, to))
  {
    var route := PairRoute(from, to);
    forall i | 0 <= i < |pairs| && PairRoute(pairs[i].0, pairs[i].1) == route ensures pairs[i] == (from, to) {
      var k :| k in PairRows(results, run, pairs[i].0, pairs[i].1);
    }
    if k :| k in PairRows(results, run, from, to) {
      assert (k.from, k.to) in pairs;
      var i :| 0 <= i < |pairs| && pairs[i] == (from, to);
      assert PairRoute(pairs[i].0, pairs[i].1) == route;
    }
    GroupedIsThePair(results, run, pairs, from, to);
  }

  // How many rows of a status a group has, if it is of the route.
  function RowsOf(results: Pairs, run: string, pair: (string, string), route: string, s: Status): nat {
    if PairRoute(pair.0, pair.1) == route then |WithStatus(PairRows(results, run, pair.0, pair.1), results, {s})| else 0
  }

  lemma GroupedOneMore(results: Pairs, run: string, pairs: seq<(string, string)>, route: string, s: Status)
    requires pairs != []
    ensures s in STATUSES
    ensures var last := |pairs| - 1; var n := RowsOf(results, run, pairs[last], route, s);
            Grouped(results, run, pairs, route)[s] == if n > 0 then n else Grouped(results, run, pairs[..last], route)[s]
  {
    match s case Created => case Updated => case Skipped => case Failed =>
  }

  // The groups' rows of a status, one group after another.
  function RowsInOrder(results: Pairs, run: string, pairs: seq<(string, string)>, route: string, s: Status): (ns: seq<nat>)
    ensures |ns| == |pairs|
  {
    if pairs == [] then [] else RowsInOrder(results, run, pairs[..|pairs| - 1], route, s) + [RowsOf(results, run, pairs[|pairs| - 1], route, s)]
  }

  ghost predicate LastPositive(ns: seq<nat>, i: nat) {
    i < |ns| && ns[i] > 0 && forall j :: i < j < |ns| ==> ns[j] == 0
  }

  lemma LastPositiveMoves(front: seq<nat>, n: nat, i: nat)
    ensures LastPositive(front + [n], i) <==> if n > 0 then i == |front| else LastPositive(front, i)
  {
    var ns := front + [n];
    assert ns[|front|] == n && forall j :: 0 <= j < |front| ==> ns[j] == front[j];
    if LastPositive(front, i) && n == 0 {
      forall j | i < j < |ns| ensures ns[j] == 0 { assert j < |front| ==> front[j] == 0; }
    }
    if LastPositive(ns, i) {
      forall j | i < j < |front| ensures front[j] == 0 { assert ns[j] == 0; }
      assert i < |front| ==> ns[|front|] == 0;
    }
  }

  // The count is the last positive one, or none.
  ghost predicate IsLastPositive(count: nat, ns: seq<nat>) {
    (forall i: nat :: LastPositive(ns, i) ==> count == ns[i]) && ((forall i :: 0 <= i < |ns| ==> ns[i] == 0) ==> count == 0)
  }

  lemma CountMoves(front: seq<nat>, n: nat, count: nat)
    requires IsLastPositive(count, front)
    ensures IsLastPositive(if n > 0 then n else count, front + [n])
  {
    var ns := front + [n];
    forall i: nat | LastPositive(ns, i) ensures (if n > 0 then n else count) == ns[i] { LastPositiveMoves(front, n, i); }
    assert ns[|front|] == n && forall i :: 0 <= i < |front| ==> front[i] == ns[i];
  }

  /** Where several pairs share a route key the summary holds, status by status, the count of the last group
      that has rows of it, and none where no group has. */
  lemma {:induction false} SharedKeysKeepTheLast(results: Pairs, run: string, pairs: seq<(string, string)>, route: string, s: Status)
    ensures s in STATUSES
    ensures IsLastPositive(Grouped(results, run, pairs, route)[s], RowsInOrder(results, run, pairs, route, s))
    decreases |pairs|
  {
    if pairs != [] {
      var last := |pairs| - 1;
      GroupedOneMore(results, run, pairs, route, s);
      SharedKeysKeepTheLast(results, run, pairs[..last], route, s);
      CountMoves(RowsInOrder(results, run, pairs[..last], route, s), RowsOf(results, run, pairs[last], route, s), Grouped(results, run, pairs[..last], route)[s]);
    } else {
      NoGroups(results, run, route, s);
    }
  }

  lemma NoGroups(results: Pairs, run: string, route: string, s: Status)
    ensures s in STATUSES && Grouped(results, run, [], route)[s] == 0
  {
    match s case Created => case Updated => case Skipped => case Failed =>
  }

  lemma HasRouteUpTo(pairs: seq<(string, string)>, route: string)
    requires pairs != []
    ensures var last := |pairs| - 1; HasRoute(pairs, route) <==> HasRoute(pairs[..last], route) || PairRoute(pairs[last].0, pairs[last].1) == route
  {
    var last := |pairs| - 1;
    if HasRoute(pairs[..last], route) {
      var i :| 0 <= i < last && PairRoute(pairs[..last][i].0, pairs[..last][i].1) == route;
      assert PairRoute(pairs[i].0, pairs[i].1) == route;
    }
    if HasRoute(pairs, route) && PairRoute(pairs[last].0, pairs[last].1) != route {
      var i :| 0 <= i < |pairs| && PairRoute(pairs[i].0, pairs[i].1) == route;
      assert pairs[..last][i] == pairs[i];
    }
  }

  lemma CountsOverlaid(counts: map<Status, nat>)
    requires counts.Keys == STATUSES
    ensures Overlaid(NoCounts(), counts) == counts && Overlaid(counts, counts) == counts
  {
  }

  lemma {:induction false} GroupedIsThePair(results: Pairs, run: string, pairs: seq<(string, string)>, from: string, to: string)
    requires forall i :: 0 <= i < |pairs| && PairRoute(pairs[i].0, pairs[i].1) == PairRoute(from, to) ==> pairs[i] == (from, to)
    ensures var route := PairRoute(from, to);
            Grouped(results, run, pairs, route) == if HasRoute(pairs, route) then PairCounts(results, run, from, to) else NoCounts()
    decreases |pairs|
  {
    if pairs != [] {
      GroupedIsThePair(results, run, pairs[..|pairs| - 1], from, to);
      HasRouteUpTo(pairs, PairRoute(from, to));
      CountsOverlaid(PairCounts(results, run, from, to));
    }
  }

  // ------------------------------------------------------------------ counts are records

  // Rows whose records differ are as many as their records.
  lemma {:induction false} RecordsAreRows<K>(rows: set<K>, source: K -> string)
    requires forall j, k :: j in rows && k in rows && source(j) == source(k) ==> j == k
    ensures |Sources(rows, source)| == |rows|
    decreases rows
  {
    if k :| k in rows {
      RecordsAreRows(rows - {k}, source);
      assert Sources(rows, source) == Sources(rows - {k}, source) + {source(k)};
    }
  }

  lemma SumSplits(counts: map<Status, nat>, statuses: set<Status>, s: Status)
    requires STATUSES <= counts.Keys && s in statuses
    ensures Sum(counts, statuses) == counts[s] + Sum(counts, statuses - {s})
  {
    match s
    case Created =>
    case Updated =>
    case Skipped =>
    case Failed =>
  }

  // Rows of some statuses are counted by those statuses.
  lemma {:induction false} CountsAdd<K>(rows: set<K>, table: map<K, Row>, statuses: set<Status>)
    ensures Sum(Counts(rows, table), statuses) == |WithStatus(rows, table, statuses)|
    decreases statuses
  {
    if s :| s in statuses {
      CountsAdd(rows, table, statuses - {s});
      SumSplits(Counts(rows, table), statuses, s);
      var ones, others := WithStatus(rows, table, {s}), WithStatus(rows, table, statuses - {s});
      assert WithStatus(rows, table, statuses) == ones + others && ones !! others;
    } else {
      assert WithStatus(rows, table, statuses) == {};
    }
  }

  /** Conservation: the status counts of a route add up to its distinct records. */
  lemma CountsAreRecords(ledger: Routes, run: string, route: string)
    ensures Sum(RouteCounts(ledger, run, route), STATUSES) == |Sources(RouteRows(ledger, run, route), RouteSource)|
  {
    var rows := RouteRows(ledger, run, route);
    CountsAdd(rows, ledger, STATUSES);
    forall k | k in rows ensures k in WithStatus(rows, ledger, STATUSES) {
      match ledger[k].status case Created => case Updated => case Skipped => case Failed =>
    }
    assert WithStatus(rows, ledger, STATUSES) == rows;
    RecordsAreRows(rows, RouteSource);
  }

  lemma RouteTerminalCount(ledger: Routes, run: string, route: string)
    ensures Sum(RouteCounts(ledger, run, route), TERMINAL) == |RouteTerminal(ledger, run, route)|
  {
    var rows := WithStatus(RouteRows(ledger, run, route), ledger, TERMINAL);
    CountsAdd(RouteRows(ledger, run, route), ledger, TERMINAL);
    RecordsAreRows(rows, RouteSource);
  }

  lemma PairTerminalCount(results: Pairs, run: string, from: string, to: string)
    ensures Sum(PairCounts(results, run, from, to), TERMINAL) == |PairTerminal(results, run, from, to)|
  {
    var rows := WithStatus(PairRows(results, run, from, to), results, TERMINAL);
    CountsAdd(PairRows(results, run, from, to), results, TERMINAL);
    RecordsAreRows(rows, PairSource);
  }

  lemma {:induction false} ProperPartIsSmaller(a: set<string>, b: set<string>)
    ensures |a + b| == |b| <==> a <= b
  {
    if a <= b {
      assert a + b == b;
    } else {
      assert a + b == (a - b) + b && (a - b) !! b;
      var x :| x in a - b;
      assert |a - b| > 0;
    }
  }

  /** The terminal counts that the summary reports for the route of two plain names add up to the number
      of its terminal records if and only if every terminal record of the older ledger is one of the
      pair-keyed results too, or there are no pair-keyed results: so always when the route is in one of
      the two ledgers only. */
  lemma SummaryCountsTerminalRecords(ledger: Routes, results: Pairs, run: string, pairs: seq<(string, string)>, from: string, to: string)
    requires Plain(from) && Plain(to) && Groups(results, run, pairs)
    ensures var route := PairRoute(from, to);
            (Sum(Summary(ledger, results, run, pairs, route), TERMINAL) == |TerminalSourceIds(ledger, results, run, route)|)
            <==> (PairRows(results, run, from, to) == {} || RouteTerminal(ledger, run, route) <= PairTerminal(results, run, from, to))
  {
    var route := PairRoute(from, to);
    var older, newer := RouteTerminal(ledger, run, route), PairTerminal(results, run, from, to);
    RouteNamesItsPair(from, to);
    PlainPairsAreAlone(results, run, from, to);
    SummaryOfAPair(ledger, results, run, pairs, from, to);
    if PairRows(results, run, from, to) == {} {
      RouteTerminalCount(ledger, run, route);
      assert newer == {};
      assert older + newer == older;
    } else {
      PairTerminalCount(results, run, from, to);
      ProperPartIsSmaller(older, newer);
    }
  }

  lemma OneBarredRow(key: PairKey, results: Pairs)
    requires key == PairKey("r", "a|b", "c", "1") && results == map[key := Row(None, Created, None)]
    ensures PairTerminal(results, "r", "a|b", "c") == {"1"}
    ensures Sum(PairCounts(results, "r", "a|b", "c"), TERMINAL) == 1
    ensures PairRows(results, "r", "a|b", "c") != {}
    ensures forall to :: PairTerminal(results, "r", "a", to) == {}
  {
    assert PairRows(results, "r", "a|b", "c") == {key};
    assert WithStatus({key}, results, TERMINAL) == {key};
    assert Sources({key}, PairSource) == {"1"} by { assert PairSource(key) == "1"; }
    PairTerminalCount(results, "r", "a|b", "c");
    assert "a|b" != "a";
  }

  /** With a bar in an object name the pair of a route is misread: its terminal record is counted by the
      summary and missed by the other read. */
  lemma BarsMisleadTheSplit() returns (results: Pairs)
    ensures PairTerminal(results, "r", "a|b", "c") == {"1"} && Groups(results, "r", [("a|b", "c")])
    ensures TerminalSourceIds(map[], results, "r", PairRoute("a|b", "c")) == {}
    ensures Sum(Summary(map[], results, "r", [("a|b", "c")], PairRoute("a|b", "c")), TERMINAL) == 1
  {
    var key := PairKey("r", "a|b", "c", "1");
    results := map[key := Row(None, Created, None)];
    OneBarredRow(key, results);
    SummaryOfAPair(map[], results, "r", [("a|b", "c")], "a|b", "c");
    SplitJoins("a|b", "c");
    assert "a|b" == PairRoute("a", "b");
    SplitJoins("a", "b");
    PlainSplits("a");
  }

  // ------------------------------------------------------------------ verifying a run

  // `verify` of one route against its reviewed candidates: nothing failed, and as many records in a
  // terminal status as there are candidates.
  predicate RouteVerified(counts: map<Status, nat>, candidates: seq<string>)
    requires STATUSES <= counts.Keys
  {
    counts[Failed] == 0 && Sum(counts, TERMINAL) == |candidates|
  }

  lemma {:induction false} DistinctCount(xs: seq<string>)
    requires DistinctKeys(xs, Itself)
    ensures |Elements(xs)| == |xs|
    decreases |xs|
  {
    if xs != [] {
      assert forall i :: 0 < i < |xs| ==> Itself(xs[0]) != Itself(xs[i]);
      assert DistinctKeys(xs[1..], Itself) by {
        forall i, j | 0 <= i < j < |xs| - 1 ensures Itself(xs[1..][i]) != Itself(xs[1..][j]) {
          assert Itself(xs[i + 1]) != Itself(xs[j + 1]);
        }
      }
      DistinctCount(xs[1..]);
      assert Elements(xs) == {xs[0]} + Elements(xs[1..]);
    }
  }

  lemma {:induction false} EqualWhenAsMany(a: set<string>, b: set<string>)
    requires a <= b
    ensures |a| <= |b| && (|a| == |b| <==> a == b)
  {
    assert b == a + (b - a) && a !! (b - a);
    if a != b {
      var x :| x in b - a;
      assert |b - a| > 0;
    }
  }

  // The records that the counts of a route are about.
  function Counted(ledger: Routes, results: Pairs, run: string, from: string, to: string): set<string> {
    if PairRows(results, run, from, to) != {} then PairTerminal(results, run, from, to) else RouteTerminal(ledger, run, PairRoute(from, to))
  }

  lemma SummaryCounts(ledger: Routes, results: Pairs, run: string, pairs: seq<(string, string)>, from: string, to: string)
    requires Groups(results, run, pairs) && OnlyPair(results, run, from, to)
    ensures Sum(Summary(ledger, results, run, pairs, PairRoute(from, to)), TERMINAL) == |Counted(ledger, results, run, from, to)|
  {
    SummaryOfAPair(ledger, results, run, pairs, from, to);
    PairTerminalCount(results, run, from, to);
    RouteTerminalCount(ledger, run, PairRoute(from, to));
  }

  /** Verification counts. Of a route that verifies, every candidate has arrived if and only if nothing
      but candidates has; and where exactly the candidates have arrived, the route verifies unless some
      record failed. */
  lemma VerifiedMeansArrivedIffNothingElseDid(ledger: Routes, results: Pairs, run: string, pairs: seq<(string, string)>, from: string, to: string, candidates: seq<string>)
    requires Groups(results, run, pairs) && OnlyPair(results, run, from, to) && DistinctKeys(candidates, Itself)
    ensures var counts := Summary(ledger, results, run, pairs, PairRoute(from, to));
            var arrived := Counted(ledger, results, run, from, to);
            && (RouteVerified(counts, candidates) ==> (Elements(candidates) <= arrived <==> arrived <= Elements(candidates)))
            && (arrived == Elements(candidates) ==> (RouteVerified(counts, candidates) <==> counts[Failed] == 0))
  {
    var arrived := Counted(ledger, results, run, from, to);
    SummaryCounts(ledger, results, run, pairs, from, to);
    DistinctCount(candidates);
    if arrived <= Elements(candidates) { EqualWhenAsMany(arrived, Elements(candidates)); }
    if Elements(candidates) <= arrived { EqualWhenAsMany(Elements(candidates), arrived); }
  }

  /** As long as only candidates were ever written, counting is enough: a route verifies exactly when
      every candidate arrived in a terminal status. */
  lemma VerifiedWhenAllArrived(ledger: Routes, results: Pairs, run: string, pairs: seq<(string, string)>, from: string, to: string, candidates: seq<string>)
    requires Groups(results, run, pairs) && OnlyPair(results, run, from, to) && DistinctKeys(candidates, Itself)
    requires PairRows(results, run, from, to) != {} && Sources(PairRows(results, run, from, to), PairSource) <= Elements(candidates)
    ensures RouteVerified(Summary(ledger, results, run, pairs, PairRoute(from, to)), candidates)
       <==> PairTerminal(results, run, from, to) == Elements(candidates)
  {
    var rows := PairRows(results, run, from, to);
    var arrived := PairTerminal(results, run, from, to);
    assert arrived <= Sources(rows, PairSource);
    VerifiedMeansArrivedIffNothingElseDid(ledger, results, run, pairs, from, to, candidates);
    SummaryCounts(ledger, results, run, pairs, from, to);
    DistinctCount(candidates);
    EqualWhenAsMany(arrived, Elements(candidates));
    if arrived == Elements(candidates) {
      NoneFailed(results, run, from, to);
      SummaryOfAPair(ledger, results, run, pairs, from, to);
    }
  }

  lemma NoneFailed(results: Pairs, run: string, from: string, to: string)
    requires Sources(PairRows(results, run, from, to), PairSource) <= PairTerminal(results, run, from, to)
    ensures PairCounts(results, run, from, to)[Failed] == 0
  {
    var rows := PairRows(results, run, from, to);
    forall k | k in rows ensures results[k].status != Failed {
      assert PairSource(k) in Sources(rows, PairSource);
      var j :| j in WithStatus(rows, results, TERMINAL) && PairSource(j) == PairSource(k);
      assert j == k;
    }
    assert WithStatus(rows, results, {Failed}) == {};
  }
}
