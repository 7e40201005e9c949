/**
 The idempotent-intent files of `sanka fix` and of the cloud code commands: any number of command
 invocations write a temporary file, hard-link it to the intent path and read the path back, so
 that the first writer wins. Every invocation may stop between any two file operations.

 Paths are digests of their slot, so distinct slots have distinct paths.
 */
module IntentFiles {
  import opened Basics

  // A Fix intent is filed under its whole binding and the key the caller passed, if any; a code
  // intent is filed under the account identity and its mandatory key.
  datatype Slot =
    | FixSlot(binding: string, key: Option<string>)
    | CodeSlot(identity: string, key: Option<string>)

  // `body` stands for everything that is sent: for a code intent also the endpoint.
  datatype Record = Record(key: string, binding: string, body: string)

  datatype Content = Torn | Whole(record: Record)

  type Inode = nat

  datatype Name = Intent(slot: Slot) | Temp(owner: nat)

  datatype Pc =
    | Looking                      // about to read the intent path
    | Absent                       // no intent there; the caller is choosing a body
    | Writing(record: Record)      // temporary created, not yet complete
    | Written(record: Record)      // temporary complete and synced
    | Linked                       // link attempted, about to read back
    | Saved(record: Record)        // intent read back
    | Aliased(record: Record)      // Fix only: second link attempted
    | Ready(record: Record)        // about to submit this record
    | Done
    | Stopped

  // `saver`: the invocation found no intent and made one itself.
  datatype Client = Client(slot: Slot, binding: string, pc: Pc, saver: bool)

  datatype Submission = Submission(slot: Slot, binding: string, record: Record, saver: bool)

  datatype State = State(
    names: map<Name, Inode>,
    data: map<Inode, Content>,
    clients: map<nat, Client>,
    used: set<string>,             // every key passed or generated so far
    generated: set<(string, string)>,  // the generated ones, each with the binding it was generated for
    log: seq<Submission>)

  datatype Event =
    | Begin(c: nat, slot: Slot, binding: string)
    | Look(c: nat)
    | Create(c: nat, inode: Inode, body: string, uuid: string)
    | Finish(c: nat)
    | Link(c: nat)
    | Reread(c: nat)
    | Alias(c: nat)
    | Unlink(c: nat)
    | Submit(c: nat)
    | Stop(c: nat, unlinked: bool)

  const Init := State(map[], map[], map[], {}, {}, [])

  function WithPc(s: State, c: nat, pc: Pc): State
    requires c in s.clients
  {
    s.(clients := s.clients[c := s.clients[c].(pc := pc)])
  }

  // `_saved_intent` and `saved_request` on a path that exists: the record, or a refusal.
  function ReadIntent(s: State, client: Client): Option<Record> {
    if Intent(client.slot) in s.names && s.names[Intent(client.slot)] in s.data then
      match s.data[s.names[Intent(client.slot)]]
      case Whole(record) => if record.binding == client.binding then Some(record) else None
      case Torn => None
    else None
  }

  // One file operation of one invocation. None means that the event cannot happen in this state.
  function Step(s: State, ev: Event): Option<State> {
    if ev.Begin? then BeginStep(s, ev.c, ev.slot, ev.binding)
    else if ev.c !in s.clients then None
    else
      match ev
      case Look(c) => LookStep(s, c)
      case Create(c, inode, body, uuid) => CreateStep(s, c, inode, body, uuid)
      case Finish(c) => FinishStep(s, c)
      case Link(c) => LinkStep(s, c)
      case Reread(c) => RereadStep(s, c)
      case Alias(c) => AliasStep(s, c)
      case Unlink(c) => UnlinkStep(s, c)
      case Submit(c) => SubmitStep(s, c)
      case Stop(c, unlinked) =>
        Some(WithPc(s, c, Stopped).(names := if unlinked then s.names - {Temp(c)} else s.names))
  }

  function BeginStep(s: State, c: nat, slot: Slot, binding: string): Option<State> {
    if c in s.clients || (slot.CodeSlot? && slot.key.None?) || (slot.FixSlot? && slot.binding != binding) then None
    else Some(s.(clients := s.clients[c := Client(slot, binding, Looking, false)],
                 used := if slot.key.Some? then s.used + {slot.key.value} else s.used))
  }

  function LookStep(s: State, c: nat): Option<State>
    requires c in s.clients
  {
    if !s.clients[c].pc.Looking? then None
    else if Intent(s.clients[c].slot) !in s.names then Some(WithPc(s, c, Absent))
    else
      var saved := ReadIntent(s, s.clients[c]);
      Some(WithPc(s, c, if saved.Some? then Ready(saved.value) else Stopped))
  }

  // The temporary is opened exclusively; an absent key is replaced by a fresh one.
  function CreateStep(s: State, c: nat, inode: Inode, body: string, uuid: string): Option<State>
    requires c in s.clients
  {
    if !s.clients[c].pc.Absent? || Temp(c) in s.names || inode in s.data || uuid in s.used then None else
    var client := s.clients[c];
    var key := if client.slot.key.Some? then client.slot.key.value else uuid;
    var made := if client.slot.key.Some? then {} else {uuid};
    Some(s.(clients := s.clients[c := client.(pc := Writing(Record(key, client.binding, body)), saver := true)],
            names := s.names[Temp(c) := inode], data := s.data[inode := Torn],
            used := s.used + made, generated := s.generated + set k | k in made :: (client.binding, k)))
  }

  function FinishStep(s: State, c: nat): Option<State>
    requires c in s.clients
  {
    if !s.clients[c].pc.Writing? || Temp(c) !in s.names then None
    else Some(WithPc(s, c, Written(s.clients[c].pc.record)).(data := s.data[s.names[Temp(c)] := Whole(s.clients[c].pc.record)]))
  }

  // `os.link` with FileExistsError suppressed.
  function LinkName(names: map<Name, Inode>, from: Name, to: Name): map<Name, Inode>
    requires from in names
  {
    if to in names then names else names[to := names[from]]
  }

  function LinkStep(s: State, c: nat): Option<State>
    requires c in s.clients
  {
    if !s.clients[c].pc.Written? || Temp(c) !in s.names then None
    else Some(WithPc(s, c, Linked).(names := LinkName(s.names, Temp(c), Intent(s.clients[c].slot))))
  }

  function RereadStep(s: State, c: nat): Option<State>
    requires c in s.clients
  {
    if !s.clients[c].pc.Linked? then None else
    var saved := ReadIntent(s, s.clients[c]);
    Some(WithPc(s, c, if saved.Some? then Saved(saved.value) else Stopped))
  }

  // The second link of a Fix intent: from the saved file to the path of the key it carries.
  function AliasStep(s: State, c: nat): Option<State>
    requires c in s.clients
  {
    var client := s.clients[c];
    if !client.pc.Saved? || Intent(client.slot) !in s.names then None
    else if client.slot.CodeSlot? then Some(WithPc(s, c, Aliased(client.pc.record)))
    else
      var alias := Intent(FixSlot(client.binding, Some(client.pc.record.key)));
      Some(WithPc(s, c, Aliased(client.pc.record)).(names := LinkName(s.names, Intent(client.slot), alias)))
  }

  function UnlinkStep(s: State, c: nat): Option<State>
    requires c in s.clients
  {
    if !s.clients[c].pc.Aliased? then None
    else Some(WithPc(s, c, Ready(s.clients[c].pc.record)).(names := s.names - {Temp(c)}))
  }

  function SubmitStep(s: State, c: nat): Option<State>
    requires c in s.clients
  {
    var client := s.clients[c];
    if !client.pc.Ready? then None
    else Some(WithPc(s, c, Done).(log := s.log + [Submission(client.slot, client.binding, client.pc.record, client.saver)]))
  }

  function Run(s: State, events: seq<Event>): Option<State>
    decreases |events|
  {
    if events == [] then Some(s) else
    var next := Step(s, events[0]);
    if next.None? then None else Run(next.value, events[1..])
  }

  // -- What every reachable file system looks like -------------------------------------------------

  // The record a slot may hold: an explicit key is the record's key, and a Fix slot fixes the binding.
  predicate Fits(slot: Slot, record: Record) {
    && (slot.key.Some? ==> record.key == slot.key.value)
    && (slot.FixSlot? ==> record.binding == slot.binding)
  }

  predicate Holds(s: State, slot: Slot, record: Record) {
    Intent(slot) in s.names && s.names[Intent(slot)] in s.data && s.data[s.names[Intent(slot)]] == Whole(record)
  }

  ghost predicate IntentsWhole(s: State) {
    forall slot :: Intent(slot) in s.names ==>
      s.names[Intent(slot)] in s.data && s.data[s.names[Intent(slot)]].Whole? && Fits(slot, s.data[s.names[Intent(slot)]].record)
  }

  ghost predicate TempsApart(s: State) {
    && (forall c :: Temp(c) in s.names ==> c in s.clients && s.names[Temp(c)] in s.data)
    && forall c, d :: Temp(c) in s.names && Temp(d) in s.names && c != d ==> s.names[Temp(c)] != s.names[Temp(d)]
  }

  ghost predicate TempsOwned(s: State) {
    && TempsApart(s)
    && forall c :: Temp(c) in s.names ==> OwnTemp(s.clients[c], s.data[s.names[Temp(c)]])
  }

  // What the temporary file of an invocation holds, by how far the invocation has come.
  predicate OwnTemp(client: Client, content: Content) {
    match client.pc
    case Writing(record) => content.Torn? && Fits(client.slot, record) && record.binding == client.binding
    case Written(record) => content == Whole(record) && Fits(client.slot, record)
    case Looking => false
    case Absent => false
    case _ => true
  }

  ghost predicate HonestClient(s: State, c: nat)
    requires c in s.clients
  {
    var client := s.clients[c];
    && (client.slot.FixSlot? ==> client.slot.binding == client.binding)
    && (client.slot.CodeSlot? ==> client.slot.key.Some?)
    && (client.pc.Saved? || client.pc.Aliased? || client.pc.Ready? ==>
          Holds(s, client.slot, client.pc.record) && client.pc.record.binding == client.binding)
  }

  ghost predicate ClientsHonest(s: State) {
    forall c :: c in s.clients ==> HonestClient(s, c)
  }

  ghost predicate LogBacked(s: State) {
    forall i :: 0 <= i < |s.log| ==> Holds(s, s.log[i].slot, s.log[i].record) && s.log[i].record.binding == s.log[i].binding
  }

  ghost predicate Inv(s: State) {
    IntentsWhole(s) && TempsOwned(s) && ClientsHonest(s) && LogBacked(s)
  }

  /** Whatever happens next, an intent path that exists keeps its file and the file its record. */
  lemma IntentsAreForever(s: State, ev: Event, slot: Slot, record: Record)
    requires Inv(s) && Step(s, ev).Some? && Holds(s, slot, record)
    ensures Holds(Step(s, ev).value, slot, record)
    ensures Step(s, ev).value.names[Intent(slot)] == s.names[Intent(slot)]
  {
  }

  lemma StepKeepsInv(s: State, ev: Event)
    requires Inv(s) && Step(s, ev).Some?
    ensures Inv(Step(s, ev).value)
  {
    var t := Step(s, ev).value;
    forall slot, record | Holds(s, slot, record) ensures Holds(t, slot, record) {
      IntentsAreForever(s, ev, slot, record);
    }
    StepKeepsIntents(s, ev);
    StepKeepsTemps(s, ev);
    StepKeepsClients(s, ev);
  }

  lemma StepKeepsIntents(s: State, ev: Event)
    requires Inv(s) && Step(s, ev).Some?
    ensures IntentsWhole(Step(s, ev).value)
  {
    var t := Step(s, ev).value;
    forall slot | Intent(slot) in t.names
      ensures t.names[Intent(slot)] in t.data && t.data[t.names[Intent(slot)]].Whole? && Fits(slot, t.data[t.names[Intent(slot)]].record)
    {
      if Intent(slot) in s.names {
        IntentsAreForever(s, ev, slot, s.data[s.names[Intent(slot)]].record);
      }
    }
  }

  lemma StepKeepsTempsApart(s: State, ev: Event)
    requires TempsApart(s) && Step(s, ev).Some?
    ensures TempsApart(Step(s, ev).value)
  {
  }

  lemma StepKeepsTemps(s: State, ev: Event)
    requires Inv(s) && Step(s, ev).Some?
    ensures TempsOwned(Step(s, ev).value)
  {
    var t := Step(s, ev).value;
    StepKeepsTempsApart(s, ev);
    forall c | Temp(c) in t.names ensures OwnTemp(t.clients[c], t.data[t.names[Temp(c)]]) {
      if c != ev.c {
        assert t.clients[c] == s.clients[c];
      } else {
        StepKeepsOwnTemp(s, ev);
      }
    }
  }

  lemma StepKeepsOwnTemp(s: State, ev: Event)
    requires Inv(s) && Step(s, ev).Some? && TempsApart(Step(s, ev).value) && Temp(ev.c) in Step(s, ev).value.names
    ensures var t := Step(s, ev).value;
            OwnTemp(t.clients[ev.c], t.data[t.names[Temp(ev.c)]])
  {
    if Temp(ev.c) in s.names {
      assert OwnTemp(s.clients[ev.c], s.data[s.names[Temp(ev.c)]]);
    }
  }

  lemma StepKeepsClients(s: State, ev: Event)
    requires Inv(s) && Step(s, ev).Some?
    requires forall slot, record :: Holds(s, slot, record) ==> Holds(Step(s, ev).value, slot, record)
    ensures ClientsHonest(Step(s, ev).value)
  {
    forall c | c in Step(s, ev).value.clients
      ensures HonestClient(Step(s, ev).value, c)
    {
      if c != ev.c {
        assert HonestClient(s, c);
      } else if c in s.clients {
        assert HonestClient(s, c);
        StepKeepsMover(s, ev);
      }
    }
  }

  lemma StepKeepsMover(s: State, ev: Event)
    requires Inv(s) && Step(s, ev).Some? && ev.c in s.clients
    requires forall slot, record :: Holds(s, slot, record) ==> Holds(Step(s, ev).value, slot, record)
    ensures HonestClient(Step(s, ev).value, ev.c)
  {
    assert HonestClient(s, ev.c);
  }

  lemma {:induction false} RunKeepsInv(s: State, events: seq<Event>)
    requires Inv(s) && Run(s, events).Some?
    ensures Inv(Run(s, events).value)
    ensures forall slot, record :: Holds(s, slot, record) ==> Holds(Run(s, events).value, slot, record)
    decreases |events|
  {
    if events != [] {
      StepKeepsInv(s, events[0]);
      var t := Step(s, events[0]).value;
      RunKeepsInv(t, events[1..]);
      forall slot, record | Holds(s, slot, record) ensures Holds(t, slot, record) {
        IntentsAreForever(s, events[0], slot, record);
      }
    }
  }

  /** In every interleaving of any number of invocations, each stopping where it likes: no intent
      path ever shows a partial record, two requests submitted from one slot are the same request
      under the same key, an explicit key is the key that is sent, and nobody submits a request
      saved for other inputs. */
  lemma FirstWriterWins(events: seq<Event>)
    requires Run(Init, events).Some?
    ensures var s := Run(Init, events).value;
            && IntentsWhole(s)
            && (forall i, j :: 0 <= i < |s.log| && 0 <= j < |s.log| && s.log[i].slot == s.log[j].slot ==>
                  s.log[i].record == s.log[j].record)
            && (forall i :: 0 <= i < |s.log| && s.log[i].slot.key.Some? ==> s.log[i].record.key == s.log[i].slot.key.value)
            && forall i :: 0 <= i < |s.log| ==> s.log[i].record.binding == s.log[i].binding
  {
    RunKeepsInv(Init, events);
  }

  /** Once an intent exists it is what every later invocation of its slot submits. */
  lemma LaterSubmissionsRepeatIt(events: seq<Event>, more: seq<Event>, slot: Slot, record: Record)
    requires Run(Init, events).Some? && Holds(Run(Init, events).value, slot, record)
    requires Run(Run(Init, events).value, more).Some?
    ensures var t := Run(Run(Init, events).value, more).value;
            forall i :: 0 <= i < |t.log| && t.log[i].slot == slot ==> t.log[i].record == record
  {
    RunKeepsInv(Init, events);
    RunKeepsInv(Run(Init, events).value, more);
  }

  // The next operation of an invocation: nothing is written after an intent was found, nothing is linked
  // before it is complete, nothing is submitted before it was looked up or read back, and only that.
  predicate Follows(p: Pc, q: Pc) {
    || q.Stopped?
    || (p.Looking? && (q.Absent? || q.Ready?)) || (p.Absent? && q.Writing?)
    || (p.Writing? && q == Written(p.record)) || (p.Written? && q.Linked?)
    || (p.Linked? && q.Saved?) || (p.Saved? && q == Aliased(p.record)) || (p.Aliased? && q == Ready(p.record))
    || (p.Ready? && q.Done?)
  }

  /** Every invocation does its file operations in that order, and submits exactly the record it found. */
  lemma OperationsAreInOrder(s: State, ev: Event, c: nat)
    requires Step(s, ev).Some? && c in s.clients
    ensures var t := Step(s, ev).value;
            && c in t.clients && (t.clients[c].pc == s.clients[c].pc || Follows(s.clients[c].pc, t.clients[c].pc))
            && (t.log == s.log || (ev.Submit? && s.clients[ev.c].pc.Ready?
                                   && t.log == s.log + [Submission(s.clients[ev.c].slot, s.clients[ev.c].binding, s.clients[ev.c].pc.record, s.clients[ev.c].saver)]))
  {
  }

  /** What is found is what the path holds for these very inputs: a record of another binding is refused. */
  lemma FoundOrRefused(s: State, c: nat)
    requires Inv(s) && c in s.clients && (s.clients[c].pc.Looking? || s.clients[c].pc.Linked?) && Intent(s.clients[c].slot) in s.names
    ensures var record := s.data[s.names[Intent(s.clients[c].slot)]].record;
            var found := record.binding == s.clients[c].binding;
            && Holds(s, s.clients[c].slot, record)
            && (s.clients[c].pc.Looking? ==> LookStep(s, c).Some? && LookStep(s, c).value.clients[c].pc == if found then Ready(record) else Stopped)
            && (s.clients[c].pc.Linked? ==> RereadStep(s, c).Some? && RereadStep(s, c).value.clients[c].pc == if found then Saved(record) else Stopped)
  {
  }

  // -- What the alias link is for -------------------------------------------------------------------

  // The path under which an explicit retry looks for a key.
  function PathOf(binding: string, key: string): Slot { FixSlot(binding, Some(key)) }

  /** After the second link the key that a Fix intent carries has its own path; where it had none before,
      that path is the very file of the intent. */
  lemma AliasMakesPath(s: State, c: nat)
    requires Inv(s) && Step(s, Alias(c)).Some? && s.clients[c].slot.FixSlot?
    ensures var t := Step(s, Alias(c)).value; var record := s.clients[c].pc.record; var path := PathOf(s.clients[c].binding, record.key);
            && t.clients[c].pc == Aliased(record) && Intent(path) in t.names
            && (Intent(path) !in s.names ==> t.names[Intent(path)] == s.names[Intent(s.clients[c].slot)] && Holds(t, path, record))
  {
    assert HonestClient(s, c);
  }

  // An invocation that made its intent and is past the second link, or has submitted, has shown a key with a path.
  ghost predicate PathShown(s: State, c: nat)
    requires c in s.clients
  {
    var client := s.clients[c];
    && (client.pc.Looking? || client.pc.Absent? ==> !client.saver)
    && (client.saver && client.slot.FixSlot? && (client.pc.Aliased? || client.pc.Ready?) ==>
          Intent(PathOf(client.binding, client.pc.record.key)) in s.names)
  }

  ghost predicate PathsShown(s: State) {
    && (forall c :: c in s.clients ==> PathShown(s, c))
    && forall i :: 0 <= i < |s.log| && s.log[i].saver && s.log[i].slot.FixSlot? ==> Intent(PathOf(s.log[i].binding, s.log[i].record.key)) in s.names
  }

  lemma StepKeepsPaths(s: State, ev: Event)
    requires Inv(s) && PathsShown(s) && Step(s, ev).Some?
    ensures PathsShown(Step(s, ev).value)
  {
    var t := Step(s, ev).value;
    forall c | c in t.clients ensures PathShown(t, c) {
      if c in s.clients { assert PathShown(s, c); }
    }
  }

  lemma {:induction false} RunKeepsPaths(s: State, events: seq<Event>)
    requires Inv(s) && PathsShown(s) && Run(s, events).Some?
    ensures PathsShown(Run(s, events).value)
    decreases |events|
  {
    if events != [] {
      StepKeepsInv(s, events[0]);
      StepKeepsPaths(s, events[0]);
      RunKeepsPaths(Step(s, events[0]).value, events[1..]);
    }
  }

  // The invocation created a temporary somewhere in the run.
  ghost predicate Creates(events: seq<Event>, c: nat) {
    exists i :: 0 <= i < |events| && events[i].Create? && events[i].c == c
  }

  lemma CreatesSplits(events: seq<Event>, c: nat)
    requires events != []
    ensures Creates(events, c) <==> (events[0].Create? && events[0].c == c) || Creates(events[1..], c)
  {
    var rest := events[1..];
    if Creates(rest, c) {
      var i :| 0 <= i < |rest| && rest[i].Create? && rest[i].c == c;
      assert events[i + 1] == rest[i];
    }
    if Creates(events, c) && !(events[0].Create? && events[0].c == c) {
      var i :| 0 <= i < |events| && events[i].Create? && events[i].c == c;
      assert rest[i - 1] == events[i];
    }
  }

  lemma StepMakesSavers(s: State, ev: Event, c: nat)
    requires Step(s, ev).Some?
    ensures var t := Step(s, ev).value;
            && (c in t.clients ==> (t.clients[c].saver <==> (c in s.clients && s.clients[c].saver) || (ev.Create? && ev.c == c)))
            && (c in s.clients || (ev.Create? && ev.c == c) ==> c in t.clients)
  {
  }

  // The savers are those invocations.
  lemma {:induction false} SaversCreate(s: State, events: seq<Event>, c: nat)
    requires Run(s, events).Some?
    ensures c in s.clients || Creates(events, c) ==> c in Run(s, events).value.clients
    ensures c in Run(s, events).value.clients ==>
              (Run(s, events).value.clients[c].saver <==> (c in s.clients && s.clients[c].saver) || Creates(events, c))
    decreases |events|
  {
    if events != [] {
      StepMakesSavers(s, events[0], c);
      CreatesSplits(events, c);
      SaversCreate(Step(s, events[0]).value, events[1..], c);
    }
  }

  // A later invocation that is given a key with a path.
  function Retry(c: nat, binding: string, key: string): seq<Event> {
    [Begin(c, PathOf(binding, key), binding), Look(c)]
  }

  // It is about to submit this record.
  predicate Finds(s: State, c: nat, binding: string, key: string, record: Record) {
    var after := Run(s, Retry(c, binding, key));
    after.Some? && c in after.value.clients && after.value.clients[c].pc == Ready(record)
  }

  lemma RetryFinds(s: State, c: nat, binding: string, key: string, record: Record)
    requires Inv(s) && c !in s.clients && Holds(s, PathOf(binding, key), record)
    ensures Finds(s, c, binding, key, record)
  {
    var path := PathOf(binding, key);
    assert Fits(path, record);
    var s1 := BeginStep(s, c, path, binding).value;
    var s2 := LookStep(s1, c).value;
    RunThrough([s, s1, s2], Retry(c, binding, key));
  }

  // -- One key, one body: the alias link of a generated Fix key ------------------------------------

  // Within one binding, intents that send the same key send the same request.
  ghost predicate KeysAgree(s: State) {
    forall a: Slot, b: Slot, r, q ::
      a.FixSlot? && b.FixSlot? && a.binding == b.binding && Holds(s, a, r) && Holds(s, b, q) && r.key == q.key ==> r == q
  }

  // The only risky operation is the first link of a Fix slot: another intent of the same binding
  // must not already send the same key with another request.
  ghost predicate LinkAgrees(s: State, ev: Event) {
    ev.Link? && ev.c in s.clients && s.clients[ev.c].slot.FixSlot? && s.clients[ev.c].pc.Written?
    && Intent(s.clients[ev.c].slot) !in s.names ==>
      forall b: Slot, q ::
        b.FixSlot? && b.binding == s.clients[ev.c].slot.binding && Holds(s, b, q) && q.key == s.clients[ev.c].pc.record.key ==>
          q == s.clients[ev.c].pc.record
  }

  /** A file operation keeps the agreement if and only if it is not such a link. In particular
      the alias link never breaks it. */
  lemma AgreementStep(s: State, ev: Event)
    requires Inv(s) && KeysAgree(s) && Step(s, ev).Some?
    ensures KeysAgree(Step(s, ev).value) <==> LinkAgrees(s, ev)
  {
    if ev.Link? {
      LinkAgreement(s, ev);
    } else {
      var t := Step(s, ev).value;
      forall a: Slot, b: Slot, r, q | a.FixSlot? && b.FixSlot? && a.binding == b.binding && Holds(t, a, r) && Holds(t, b, q) && r.key == q.key
        ensures r == q
      {
        var a' := HeldBefore(s, ev, a, r);
        var b' := HeldBefore(s, ev, b, q);
      }
    }
  }

  // Without a link, what a Fix slot holds was held under its binding before.
  lemma HeldBefore(s: State, ev: Event, slot: Slot, record: Record) returns (before: Slot)
    requires Inv(s) && Step(s, ev).Some? && !ev.Link? && slot.FixSlot? && Holds(Step(s, ev).value, slot, record)
    ensures before.FixSlot? && before.binding == slot.binding && Holds(s, before, record)
  {
    HeldAfter(s, ev);
    if Holds(s, slot, record) { before := slot; }
    else {
      before := s.clients[ev.c].slot;
      assert HonestClient(s, ev.c);
    }
  }

  // No link of the run is such a link.
  ghost predicate AllLinksAgree(s: State, events: seq<Event>)
    decreases |events|
  {
    events == [] ||
    (LinkAgrees(s, events[0]) && (Step(s, events[0]).Some? ==> AllLinksAgree(Step(s, events[0]).value, events[1..])))
  }

  // Two intents that disagree do so for ever.
  lemma DisagreementStays(s: State, ev: Event)
    requires Inv(s) && Step(s, ev).Some? && !KeysAgree(s)
    ensures !KeysAgree(Step(s, ev).value)
  {
    var a: Slot, b: Slot, r, q :|
      a.FixSlot? && b.FixSlot? && a.binding == b.binding && Holds(s, a, r) && Holds(s, b, q) && r.key == q.key && r != q;
    IntentsAreForever(s, ev, a, r);
    IntentsAreForever(s, ev, b, q);
  }

  /** So after any run the intents of a binding agree on every key if and only if no link of the run
      put a second request beside the same key. */
  lemma {:induction false} RunsAgreeIffLinksDo(s: State, events: seq<Event>)
    requires Inv(s) && KeysAgree(s) && Run(s, events).Some?
    ensures KeysAgree(Run(s, events).value) <==> AllLinksAgree(s, events)
    decreases |events|
  {
    if events != [] {
      var t := Step(s, events[0]).value;
      AgreementStep(s, events[0]);
      StepKeepsInv(s, events[0]);
      if KeysAgree(t) { RunsAgreeIffLinksDo(t, events[1..]); } else { RunsKeepDisagreement(t, events[1..]); }
    }
  }

  lemma {:induction false} RunsKeepDisagreement(s: State, events: seq<Event>)
    requires Inv(s) && !KeysAgree(s) && Run(s, events).Some?
    ensures !KeysAgree(Run(s, events).value)
    decreases |events|
  {
    if events != [] {
      StepKeepsInv(s, events[0]);
      DisagreementStays(s, events[0]);
      RunsKeepDisagreement(Step(s, events[0]).value, events[1..]);
    }
  }

  // What a link or an alias link can make visible.
  predicate NewlyHeld(s: State, ev: Event, slot: Slot, record: Record) {
    && ev.c in s.clients && Intent(slot) !in s.names
    && ((&& ev.Link? && s.clients[ev.c].pc == Written(record) && slot == s.clients[ev.c].slot)
        || (&& ev.Alias? && s.clients[ev.c].pc.Saved? && s.clients[ev.c].slot.FixSlot?
            && slot == FixSlot(s.clients[ev.c].binding, Some(s.clients[ev.c].pc.record.key))
            && Holds(s, s.clients[ev.c].slot, record)))
  }

  lemma LinkAgreement(s: State, ev: Event)
    requires Inv(s) && KeysAgree(s) && ev.Link? && Step(s, ev).Some?
    ensures KeysAgree(Step(s, ev).value) <==> LinkAgrees(s, ev)
  {
    var t := Step(s, ev).value;
    var slot, record := s.clients[ev.c].slot, s.clients[ev.c].pc.record;
    assert s.data[s.names[Temp(ev.c)]] == Whole(record);
    forall b, q | Holds(s, b, q) ensures Holds(t, b, q) {
      IntentsAreForever(s, ev, b, q);
    }
    if Intent(slot) !in s.names {
      assert Holds(t, slot, record);
      forall b, q | Holds(t, b, q) && b != slot ensures Holds(s, b, q) {}
    } else {
      forall b, q | Holds(t, b, q) ensures Holds(s, b, q) {}
    }
  }

  // The discipline that keeps every link safe: a key is passed explicitly under the binding it was
  // generated for only once the path that finds it exists.
  predicate Disciplined(s: State, ev: Event) {
    ev.Begin? && ev.slot.FixSlot? && ev.slot.key.Some? && (ev.slot.binding, ev.slot.key.value) in s.generated ==> Intent(ev.slot) in s.names
  }

  predicate DisciplinedRun(s: State, events: seq<Event>)
    decreases |events|
  {
    events == [] ||
    (Disciplined(s, events[0]) && (Step(s, events[0]).Some? ==> DisciplinedRun(Step(s, events[0]).value, events[1..])))
  }

  ghost predicate KeysKnown(s: State) {
    && (forall g :: g in s.generated ==> g.1 in s.used)
    && (forall slot: Slot :: Intent(slot) in s.names && slot.key.Some? ==> slot.key.value in s.used)
    && (forall c :: c in s.clients && s.clients[c].slot.key.Some? ==> s.clients[c].slot.key.value in s.used)
    // a keyless intent carries a key generated for its binding
    && (forall slot: Slot, r :: slot.FixSlot? && slot.key.None? && Holds(s, slot, r) ==> (slot.binding, r.key) in s.generated)
    && (forall c :: c in s.clients && s.clients[c].slot.key.None? && (s.clients[c].pc.Writing? || s.clients[c].pc.Written?) ==>
          (s.clients[c].binding, s.clients[c].pc.record.key) in s.generated)
  }

  // The slot passes a key that was generated for its own binding.
  predicate PassesGenerated(slot: Slot, generated: set<(string, string)>) {
    slot.FixSlot? && slot.key.Some? && (slot.binding, slot.key.value) in generated
  }

  ghost predicate GeneratedFound(s: State) {
    // a generated key filed explicitly is the alias of the keyless intent
    && (forall slot: Slot, r :: PassesGenerated(slot, s.generated) && Holds(s, slot, r) ==> Holds(s, FixSlot(slot.binding, None), r))
    && (forall c :: c in s.clients && PassesGenerated(s.clients[c].slot, s.generated) ==> Intent(s.clients[c].slot) in s.names)
  }

  ghost predicate AliasInv(s: State) {
    Inv(s) && KeysKnown(s) && GeneratedFound(s) && KeysAgree(s)
  }

  // Everything held before is still held, and a link is the only source of anything new.
  lemma HeldAfter(s: State, ev: Event)
    requires Inv(s) && Step(s, ev).Some?
    ensures forall slot, record :: Holds(s, slot, record) ==> Holds(Step(s, ev).value, slot, record)
    ensures forall slot, record :: Holds(Step(s, ev).value, slot, record) ==> Holds(s, slot, record) || NewlyHeld(s, ev, slot, record)
  {
    var t := Step(s, ev).value;
    forall slot, record | Holds(s, slot, record) ensures Holds(t, slot, record) {
      IntentsAreForever(s, ev, slot, record);
    }
    forall slot, record | Holds(t, slot, record)
      ensures Holds(s, slot, record) || NewlyHeld(s, ev, slot, record)
    {
      if Intent(slot) in s.names {
        assert Holds(s, slot, s.data[s.names[Intent(slot)]].record);
      }
    }
  }

  lemma KeylessStayGenerated(s: State, ev: Event, slot: Slot, r: Record)
    requires Inv(s) && KeysKnown(s) && Step(s, ev).Some?
    requires slot.FixSlot? && slot.key.None? && Holds(Step(s, ev).value, slot, r)
    ensures (slot.binding, r.key) in Step(s, ev).value.generated
  {
    HeldAfter(s, ev);
    assert Holds(s, slot, r) || NewlyHeld(s, ev, slot, r);
  }

  lemma PassedStayUsed(s: State, ev: Event, slot: Slot)
    requires Inv(s) && KeysKnown(s) && Step(s, ev).Some?
    requires Intent(slot) in Step(s, ev).value.names && slot.key.Some?
    ensures slot.key.value in Step(s, ev).value.used
  {
    if Intent(slot) !in s.names && ev.Alias? {
      var mine := s.clients[ev.c].slot;
      assert Fits(mine, s.clients[ev.c].pc.record);
    }
  }

  lemma WritersStayKnown(s: State, ev: Event, c: nat)
    requires KeysKnown(s) && Step(s, ev).Some? && c in Step(s, ev).value.clients
    ensures var t := Step(s, ev).value; var client := t.clients[c];
            && (client.slot.key.Some? ==> client.slot.key.value in t.used)
            && (client.slot.key.None? && (client.pc.Writing? || client.pc.Written?) ==> (client.binding, client.pc.record.key) in t.generated)
  {
  }

  lemma KeysStayKnown(s: State, ev: Event)
    requires Inv(s) && KeysKnown(s) && Step(s, ev).Some?
    ensures KeysKnown(Step(s, ev).value)
  {
    var t := Step(s, ev).value;
    forall slot: Slot, r | slot.FixSlot? && slot.key.None? && Holds(t, slot, r) ensures (slot.binding, r.key) in t.generated {
      KeylessStayGenerated(s, ev, slot, r);
    }
    forall slot: Slot | Intent(slot) in t.names && slot.key.Some? ensures slot.key.value in t.used {
      PassedStayUsed(s, ev, slot);
    }
    forall c | c in t.clients
      ensures t.clients[c].slot.key.Some? ==> t.clients[c].slot.key.value in t.used
      ensures t.clients[c].slot.key.None? && (t.clients[c].pc.Writing? || t.clients[c].pc.Written?) ==> (t.clients[c].binding, t.clients[c].pc.record.key) in t.generated
    {
      WritersStayKnown(s, ev, c);
    }
  }

  // A link of a Fix slot that succeeds introduces a key no other intent of the binding sends.
  lemma DisciplinedLink(s: State, ev: Event, b: Slot, q: Record)
    requires Inv(s) && KeysKnown(s) && GeneratedFound(s)
    requires ev.Link? && Step(s, ev).Some? && s.clients[ev.c].slot.FixSlot? && Intent(s.clients[ev.c].slot) !in s.names
    requires b.FixSlot? && b.binding == s.clients[ev.c].slot.binding && Holds(s, b, q)
    ensures q.key != s.clients[ev.c].pc.record.key
  {
    var slot, record := s.clients[ev.c].slot, s.clients[ev.c].pc.record;
    assert Fits(b, q) && Fits(slot, record) && b != slot;
    if slot.key.None? {
      assert slot == FixSlot(b.binding, None) && (b.binding, record.key) in s.generated;
      assert b.key.Some? && q.key == b.key.value;
      assert PassesGenerated(b, s.generated) ==> Holds(s, slot, q);
    }
  }

  lemma DisciplinedAgreement(s: State, ev: Event)
    requires AliasInv(s) && Step(s, ev).Some?
    ensures KeysAgree(Step(s, ev).value)
  {
    AgreementStep(s, ev);
    if ev.Link? && s.clients[ev.c].slot.FixSlot? && Intent(s.clients[ev.c].slot) !in s.names {
      forall b: Slot, q | b.FixSlot? && b.binding == s.clients[ev.c].slot.binding && Holds(s, b, q)
        ensures q.key != s.clients[ev.c].pc.record.key
      {
        DisciplinedLink(s, ev, b, q);
      }
    }
  }

  lemma GeneratedStaysFound(s: State, ev: Event)
    requires AliasInv(s) && Disciplined(s, ev) && Step(s, ev).Some?
    ensures GeneratedFound(Step(s, ev).value)
  {
    var t := Step(s, ev).value;
    HeldAfter(s, ev);
    forall slot: Slot, r | PassesGenerated(slot, t.generated) && Holds(t, slot, r)
      ensures Holds(t, FixSlot(slot.binding, None), r)
    {
      if ev.Begin? {} else { SlotStays(s, ev, ev.c); }
      ExplicitGeneratedIsAlias(s, ev, t.generated, slot, r);
    }
    WaitersStayFound(s, ev);
  }

  lemma ExplicitGeneratedIsAlias(s: State, ev: Event, generated: set<(string, string)>, slot: Slot, r: Record)
    requires AliasInv(s) && (Holds(s, slot, r) || NewlyHeld(s, ev, slot, r))
    requires forall g :: g in generated && g.1 in s.used ==> g in s.generated
    requires PassesGenerated(slot, generated)
    ensures Holds(s, FixSlot(slot.binding, None), r)
  {
    if Holds(s, slot, r) {
      assert slot.key.value in s.used && PassesGenerated(slot, s.generated);
    } else if ev.Alias? {
      AliasedFromKeyless(s, ev, generated, slot, r);
    } else {
      // a linking caller that passes a generated key would have found its path
      assert false;
    }
  }

  lemma AliasedFromKeyless(s: State, ev: Event, generated: set<(string, string)>, slot: Slot, r: Record)
    requires AliasInv(s) && ev.Alias? && NewlyHeld(s, ev, slot, r) && PassesGenerated(slot, generated)
    requires forall g :: g in generated && g.1 in s.used ==> g in s.generated
    ensures Holds(s, FixSlot(slot.binding, None), r)
  {
    var mine := s.clients[ev.c].slot;
    assert HonestClient(s, ev.c);
    assert Holds(s, mine, r) && Fits(mine, r) && mine.binding == slot.binding;
    assert mine.key.Some? ==> mine == slot;
  }

  // A caller that passed a generated key will find its path.
  lemma WaitersStayFound(s: State, ev: Event)
    requires AliasInv(s) && Disciplined(s, ev) && Step(s, ev).Some?
    ensures var t := Step(s, ev).value;
            forall c :: c in t.clients && PassesGenerated(t.clients[c].slot, t.generated) ==> Intent(t.clients[c].slot) in t.names
  {
    var t := Step(s, ev).value;
    forall c | c in t.clients && PassesGenerated(t.clients[c].slot, t.generated)
      ensures Intent(t.clients[c].slot) in t.names
    {
      if c in s.clients {
        SlotStays(s, ev, c);
        assert t.clients[c].slot.key.value in s.used;
      }
    }
  }

  lemma SlotStays(s: State, ev: Event, c: nat)
    requires Step(s, ev).Some? && c in s.clients
    ensures var t := Step(s, ev).value;
            && c in t.clients && t.clients[c].slot == s.clients[c].slot && t.clients[c].binding == s.clients[c].binding
            && (Intent(s.clients[c].slot) in s.names ==> Intent(s.clients[c].slot) in t.names)
            && forall g :: g in t.generated && g.1 in s.used ==> g in s.generated
  {
  }

  lemma DisciplinedStep(s: State, ev: Event)
    requires AliasInv(s) && Disciplined(s, ev) && Step(s, ev).Some?
    ensures AliasInv(Step(s, ev).value)
  {
    StepKeepsInv(s, ev);
    KeysStayKnown(s, ev);
    GeneratedStaysFound(s, ev);
    DisciplinedAgreement(s, ev);
  }

  lemma {:induction false} DisciplinedRunKeeps(s: State, events: seq<Event>)
    requires AliasInv(s) && Run(s, events).Some? && DisciplinedRun(s, events)
    ensures AliasInv(Run(s, events).value)
    decreases |events|
  {
    if events != [] {
      DisciplinedStep(s, events[0]);
      DisciplinedRunKeeps(Step(s, events[0]).value, events[1..]);
    }
  }

  /** With that discipline an idempotency key never reaches the server with two different requests
      of one binding, generated keys and their explicit retries included. */
  lemma OneRequestPerKey(events: seq<Event>)
    requires Run(Init, events).Some? && DisciplinedRun(Init, events)
    ensures var s := Run(Init, events).value;
            forall i, j :: 0 <= i < |s.log| && 0 <= j < |s.log| && s.log[i].slot.FixSlot? && s.log[j].slot.FixSlot?
                           && s.log[i].binding == s.log[j].binding && s.log[i].record.key == s.log[j].record.key ==>
                             s.log[i].record == s.log[j].record
  {
    DisciplinedRunKeeps(Init, events);
    var s := Run(Init, events).value;
    forall i | 0 <= i < |s.log| && s.log[i].slot.FixSlot? ensures s.log[i].slot.binding == s.log[i].binding {
      assert Fits(s.log[i].slot, s.log[i].record);
    }
  }

  // What the path of a submission's key holds.
  lemma ShownKeyHolds(s: State, done: Submission) returns (record: Record)
    requires Inv(s) && PathsShown(s) && done in s.log && done.saver && done.slot.FixSlot?
    ensures Holds(s, PathOf(done.binding, done.record.key), record) && record.key == done.record.key
    ensures KeysAgree(s) ==> record == done.record
  {
    var path := PathOf(done.binding, done.record.key);
    var i :| 0 <= i < |s.log| && s.log[i] == done;
    record := s.data[s.names[Intent(path)]].record;
    assert Fits(path, record);
    assert Holds(s, done.slot, done.record) && Fits(done.slot, done.record);
  }

  /** What the alias link promises, over every run: whoever made an intent and submitted it has shown a key
      that is found again. A later invocation given that key reads a saved request under it, and it is the
      very request that was submitted if no link of the run put another beside the key. */
  lemma ShownKeysAreFound(events: seq<Event>, done: Submission, c: nat) returns (record: Record)
    requires Run(Init, events).Some? && c !in Run(Init, events).value.clients
    requires done in Run(Init, events).value.log && done.saver && done.slot.FixSlot?
    ensures Finds(Run(Init, events).value, c, done.binding, done.record.key, record) && record.key == done.record.key
    ensures AllLinksAgree(Init, events) ==> record == done.record
  {
    var s := Run(Init, events).value;
    RunKeepsInv(Init, events);
    RunKeepsPaths(Init, events);
    if AllLinksAgree(Init, events) { RunsAgreeIffLinksDo(Init, events); }
    record := ShownKeyHolds(s, done);
    RetryFinds(s, c, done.binding, done.record.key, record);
  }

  // A disciplined run has no such link.
  lemma {:induction false} DisciplinedLinksAgree(s: State, events: seq<Event>)
    requires AliasInv(s) && Run(s, events).Some? && DisciplinedRun(s, events)
    ensures AllLinksAgree(s, events)
  {
    DisciplinedRunKeeps(s, events);
    RunsAgreeIffLinksDo(s, events);
  }

  // -- Without the discipline --------------------------------------------------------------------------

  lemma {:induction false} RunConcat(s: State, a: seq<Event>, b: seq<Event>)
    requires Run(s, a).Some?
    ensures Run(s, a + b) == Run(Run(s, a).value, b)
    decreases |a|
  {
    if a == [] {
      assert a + b == b;
    } else {
      assert (a + b)[1..] == a[1..] + b;
      RunConcat(Step(s, a[0]).value, a[1..], b);
    }
  }

  lemma {:induction false} RunThrough(states: seq<State>, events: seq<Event>)
    requires |states| == |events| + 1
    requires forall i :: 0 <= i < |events| ==> Step(states[i], events[i]) == Some(states[i + 1])
    ensures Run(states[0], events) == Some(states[|events|])
    decreases |events|
  {
    if events != [] {
      RunThrough(states[1..], events[1..]);
    }
  }

  // An invocation without a key is killed after its first link and before the alias link.
  function Killed(b: string, g: string, body: string): seq<Event> {
    [Begin(0, FixSlot(b, None), b), Look(0), Create(0, 0, body, g), Finish(0), Link(0), Stop(0, false)]
  }

  // A second one without a key recovers the saved intent and submits it.
  function Recovers(b: string): seq<Event> {
    [Begin(1, FixSlot(b, None), b), Look(1), Submit(1)]
  }

  // A third one retries with the key it was shown, and saves a new body under that key.
  function Retries(b: string, g: string, body: string, uuid: string): seq<Event> {
    [Begin(2, FixSlot(b, Some(g)), b), Look(2), Create(2, 1, body, uuid), Finish(2), Link(2)]
    + [Reread(2), Alias(2), Unlink(2), Submit(2)]
  }

  lemma KilledWritten(b: string, g: string, body: string) returns (states: seq<State>)
    ensures |states| == 5 && states[0] == Init
    ensures forall i :: 0 <= i < 4 ==> Step(states[i], Killed(b, g, body)[i]) == Some(states[i + 1])
    ensures states[4].names == map[Temp(0) := 0] && states[4].data == map[0 := Whole(Record(g, b, body))]
    ensures states[4].clients.Keys == {0} && states[4].clients[0] == Client(FixSlot(b, None), b, Written(Record(g, b, body)), true)
    ensures states[4].used == {g} && states[4].log == []
  {
    var s1 := BeginStep(Init, 0, FixSlot(b, None), b).value;
    var s2 := LookStep(s1, 0).value;
    var s3 := CreateStep(s2, 0, 0, body, g).value;
    states := [Init, s1, s2, s3, FinishStep(s3, 0).value];
  }

  lemma AfterKilled(b: string, g: string, body: string) returns (s: State)
    ensures Run(Init, Killed(b, g, body)) == Some(s)
    ensures s.names == map[Temp(0) := 0, Intent(FixSlot(b, None)) := 0] && s.data == map[0 := Whole(Record(g, b, body))]
    ensures s.clients.Keys == {0} && s.used == {g} && s.log == []
  {
    var states := KilledWritten(b, g, body);
    var s5 := LinkStep(states[4], 0).value;
    s := WithPc(s5, 0, Stopped);
    RunThrough(states + [s5, s], Killed(b, g, body));
  }

  lemma AfterRecovery(b: string, g: string, body: string, s: State) returns (t: State)
    requires s.names == map[Temp(0) := 0, Intent(FixSlot(b, None)) := 0] && s.data == map[0 := Whole(Record(g, b, body))]
    requires s.clients.Keys == {0} && s.used == {g} && s.log == []
    ensures Run(s, Recovers(b)) == Some(t)
    ensures t.names == s.names && t.data == s.data && t.clients.Keys == {0, 1} && t.used == {g}
    ensures t.log == [Submission(FixSlot(b, None), b, Record(g, b, body), false)]
  {
    var s1 := BeginStep(s, 1, FixSlot(b, None), b).value;
    var s2 := LookStep(s1, 1).value;
    t := SubmitStep(s2, 1).value;
    RunThrough([s, s1, s2, t], Recovers(b));
  }

  lemma RetryWriting(b: string, g: string, body: string, uuid: string, s: State) returns (states: seq<State>)
    requires Temp(2) !in s.names && Intent(FixSlot(b, Some(g))) !in s.names && 1 !in s.data && 2 !in s.clients
    requires g in s.used && uuid !in s.used
    ensures |states| == 4 && states[0] == s
    ensures forall i :: 0 <= i < 3 ==> Step(states[i], Retries(b, g, body, uuid)[i]) == Some(states[i + 1])
    ensures states[3].names == s.names[Temp(2) := 1] && states[3].data == s.data[1 := Torn] && states[3].log == s.log
    ensures 2 in states[3].clients && states[3].clients[2] == Client(FixSlot(b, Some(g)), b, Writing(Record(g, b, body)), true)
  {
    var s1 := BeginStep(s, 2, FixSlot(b, Some(g)), b).value;
    var s2 := LookStep(s1, 2).value;
    states := [s, s1, s2, CreateStep(s2, 2, 1, body, uuid).value];
  }

  lemma RetryLinked(b: string, g: string, body: string, uuid: string, s: State) returns (states: seq<State>)
    requires Temp(2) !in s.names && Intent(FixSlot(b, Some(g))) !in s.names && 1 !in s.data && 2 !in s.clients
    requires g in s.used && uuid !in s.used
    ensures |states| == 6 && states[0] == s
    ensures forall i :: 0 <= i < 5 ==> Step(states[i], Retries(b, g, body, uuid)[i]) == Some(states[i + 1])
    ensures Holds(states[5], FixSlot(b, Some(g)), Record(g, b, body))
    ensures 2 in states[5].clients && states[5].clients[2] == Client(FixSlot(b, Some(g)), b, Linked, true) && states[5].log == s.log
  {
    states := RetryWriting(b, g, body, uuid, s);
    var s4 := FinishStep(states[3], 2).value;
    states := states + [s4, LinkStep(s4, 2).value];
  }

  lemma AfterRetry(b: string, g: string, body: string, uuid: string, s: State) returns (t: State)
    requires Temp(2) !in s.names && Intent(FixSlot(b, Some(g))) !in s.names && 1 !in s.data && 2 !in s.clients
    requires g in s.used && uuid !in s.used
    ensures Run(s, Retries(b, g, body, uuid)) == Some(t)
    ensures t.log == s.log + [Submission(FixSlot(b, Some(g)), b, Record(g, b, body), true)]
  {
    var states := RetryLinked(b, g, body, uuid, s);
    var s6 := RereadStep(states[5], 2).value;
    var s7 := AliasStep(s6, 2).value;
    var s8 := UnlinkStep(s7, 2).value;
    t := SubmitStep(s8, 2).value;
    RunThrough(states + [s6, s7, s8, t], Retries(b, g, body, uuid));
  }

  /** Without it the promise of the alias link fails: an invocation killed between its two links
      leaves a generated key that is shown and submitted but cannot be found under its own path,
      and the retry that the program then recommends sends another body under the same key. */
  lemma KilledBeforeAlias(b: string, g: string, body: string, other: string, uuid: string)
    requires uuid != g
    ensures var events := Killed(b, g, body) + (Recovers(b) + Retries(b, g, other, uuid));
            && Run(Init, events).Some?
            && Run(Init, events).value.log
               == [Submission(FixSlot(b, None), b, Record(g, b, body), false), Submission(FixSlot(b, Some(g)), b, Record(g, b, other), true)]
  {
    var s := AfterKilled(b, g, body);
    var t := AfterRecovery(b, g, body, s);
    var u := AfterRetry(b, g, other, uuid, t);
    RunConcat(s, Recovers(b), Retries(b, g, other, uuid));
    RunConcat(Init, Killed(b, g, body), Recovers(b) + Retries(b, g, other, uuid));
  }
}
