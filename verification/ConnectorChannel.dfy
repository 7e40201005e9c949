/**
 The connector client and its hosts: one locked stream of requests, reader threads that fill
 queues, timeouts, kills and restarts.

 A host process loads its connectors and then answers the lines of its input in order, one reply
 each; where loading fails it says so unasked, under id 0, and serves nothing. It may die at any
 moment. Its reader thread is bound for life to the queue object created when the process was
 started. A request may end without a reply and without a close, as when its caller is interrupted,
 and its reply then arrives later. JSON lines are the `Message` and `Reply` values; Framing.dfy shows
 that they arrive whole.
 */
module ConnectorChannel {
  import opened Basics

  type Pid = nat
  type Qid = nat

  datatype Outcome = Result(value: string) | RemoteError(code: string)

  datatype Message = Message(id: nat, payload: string)

  datatype Reply = Reply(id: nat, outcome: Outcome)

  datatype Item = Line(reply: Reply) | EndOfFile

  datatype Phase = Loading | Serving | Failed

  datatype Process = Process(
    alive: bool,
    phase: Phase,
    inbox: seq<Message>,         // written to the host, not yet read by it
    outbox: seq<Reply>,          // written by the host, not yet read by the reader thread
    ended: bool,                 // the reader thread has seen the end of the output
    queue: Qid)                  // the queue its reader thread fills

  datatype Pc =
    | Idle
    | Starting(payload: string)
    | Probing(payload: string)             // a new process must stay silent at first
    | Checking(payload: string)
    | Sending(id: nat, payload: string)
    | Waiting(id: nat, payload: string)

  datatype Sent = Sent(pid: Pid, message: Message)

  datatype Call = Call(id: nat, payload: string, outcome: Outcome)

  datatype Refusal = Refusal(pid: Pid, reply: Reply)

  datatype State = State(
    processes: map<Pid, Process>,
    queues: map<Qid, seq<Item>>,
    process: Option<Pid>,
    stdout: Qid,
    requestId: nat,
    pc: Pc,
    computed: map<(Pid, nat), (string, Outcome)>,   // what each host computed for each message
    sent: seq<Sent>,
    abandoned: set<nat>,                            // ids of requests that were neither answered nor closed
    returned: seq<Call>,                            // every value or remote error `request` came back with
    refused: seq<Refusal>)                          // replies refused because of their id

  datatype Event =
    | Enter(payload: string)
    | Reuse
    | Spawn(pid: Pid, queue: Qid)
    | Probe(next: Qid)
    | Check(next: Qid)
    | Refuse                       // the payload cannot be encoded or exceeds the limit
    | Send
    | SendFails(next: Qid)
    | Take(next: Qid)
    | GiveUp(next: Qid)            // timeout, output on stderr, or a reply whose value is invalid
    | Abandon                      // the caller is interrupted: nothing is closed
    | CloseNow(next: Qid)          // an explicit close between requests
    | HostReady(pid: Pid)
    | HostFails(pid: Pid, code: string)
    | HostAnswers(pid: Pid, outcome: Outcome)
    | HostDies(pid: Pid)
    | Pump(pid: Pid)               // the reader thread moves one line
    | PumpEnd(pid: Pid)            // the reader thread reports the end of the output

  const Init := State(map[], map[0 := []], None, 0, 0, Idle, map[], [], {}, [], [])

  // `close`: forget the process, kill it, and put a new queue object in place.
  function Closed(s: State, next: Qid): State {
    var killed :=
      if s.process.Some? && s.process.value in s.processes
      then s.processes[s.process.value := s.processes[s.process.value].(alive := false)]
      else s.processes;
    s.(processes := killed, process := None, stdout := next, queues := s.queues[next := []], pc := Idle)
  }

  function Live(s: State): bool {
    s.process.Some? && s.process.value in s.processes && s.processes[s.process.value].alive
  }

  function Step(s: State, ev: Event): Option<State> {
    match ev
    case Enter(payload) => if s.pc.Idle? then Some(s.(pc := Starting(payload))) else None
    case Reuse => if s.pc.Starting? && Live(s) then Some(s.(pc := Checking(s.pc.payload))) else None
    case Spawn(pid, queue) => SpawnStep(s, pid, queue)
    case Probe(next) => ProbeStep(s, next)
    case Check(next) => CheckStep(s, next)
    case Refuse => if s.pc.Sending? then Some(s.(pc := Idle)) else None
    case Send => SendStep(s)
    case SendFails(next) => if s.pc.Sending? && next !in s.queues then Some(Closed(s, next)) else None
    case Take(next) => TakeStep(s, next)
    case GiveUp(next) => if !s.pc.Idle? && next !in s.queues then Some(Closed(s, next)) else None
    case Abandon => AbandonStep(s)
    case CloseNow(next) => if s.pc.Idle? && next !in s.queues then Some(Closed(s, next)) else None
    case HostReady(pid) => ReadyStep(s, pid)
    case HostFails(pid, code) => FailStep(s, pid, code)
    case HostAnswers(pid, outcome) => AnswerStep(s, pid, outcome)
    case HostDies(pid) =>
      if pid !in s.processes then None else Some(s.(processes := s.processes[pid := s.processes[pid].(alive := false)]))
    case Pump(pid) => PumpStep(s, pid)
    case PumpEnd(pid) => PumpEndStep(s, pid)
  }

  function SpawnStep(s: State, pid: Pid, queue: Qid): Option<State> {
    if !s.pc.Starting? || s.process.Some? || pid in s.processes || queue in s.queues then None
    else Some(s.(processes := s.processes[pid := Process(true, Loading, [], [], false, queue)],
                 queues := s.queues[queue := []], process := Some(pid), stdout := queue, pc := Probing(s.pc.payload)))
  }

  function ProbeStep(s: State, next: Qid): Option<State> {
    if !s.pc.Probing? || s.stdout !in s.queues || next in s.queues then None
    else if s.queues[s.stdout] != [] then Some(Closed(s, next))
    else Some(s.(pc := Checking(s.pc.payload)))
  }

  function CheckStep(s: State, next: Qid): Option<State> {
    if !s.pc.Checking? || s.stdout !in s.queues || next in s.queues then None
    else if s.queues[s.stdout] != [] || !Live(s) then Some(Closed(s, next))
    else Some(s.(requestId := s.requestId + 1, pc := Sending(s.requestId + 1, s.pc.payload)))
  }

  function SendStep(s: State): Option<State> {
    if !s.pc.Sending? || s.process.None? || s.process.value !in s.processes then None else
    var pid := s.process.value;
    var p := s.processes[pid];
    var m := Message(s.pc.id, s.pc.payload);
    Some(s.(processes := s.processes[pid := p.(inbox := p.inbox + [m])],
            sent := s.sent + [Sent(pid, m)], pc := Waiting(s.pc.id, s.pc.payload)))
  }

  // The first queued item: end of output closes, a reply with another id closes, the right id returns.
  function TakeStep(s: State, next: Qid): Option<State> {
    if !s.pc.Waiting? || s.process.None? || s.stdout !in s.queues || s.queues[s.stdout] == [] || next in s.queues then None else
    var item := s.queues[s.stdout][0];
    var taken := s.(queues := s.queues[s.stdout := s.queues[s.stdout][1..]]);
    if item.EndOfFile? then Some(Closed(taken, next))
    else if item.reply.id != s.pc.id then
      Some(Closed(taken, next).(refused := s.refused + [Refusal(s.process.value, item.reply)]))
    else Some(taken.(returned := s.returned + [Call(s.pc.id, s.pc.payload, item.reply.outcome)], pc := Idle))
  }

  function AbandonStep(s: State): Option<State> {
    if s.pc.Idle? then None
    else Some(s.(pc := Idle, abandoned := if s.pc.Waiting? then s.abandoned + {s.pc.id} else s.abandoned))
  }

  function ReadyStep(s: State, pid: Pid): Option<State> {
    if pid !in s.processes || !s.processes[pid].alive || !s.processes[pid].phase.Loading? then None
    else Some(s.(processes := s.processes[pid := s.processes[pid].(phase := Serving)]))
  }

  // The error of a host that could not load its connectors, under id 0.
  function FailStep(s: State, pid: Pid, code: string): Option<State> {
    if pid !in s.processes || !s.processes[pid].alive || !s.processes[pid].phase.Loading? then None else
    var p := s.processes[pid];
    Some(s.(processes := s.processes[pid := p.(phase := Failed, outbox := p.outbox + [Reply(0, RemoteError(code))])]))
  }

  function AnswerStep(s: State, pid: Pid, outcome: Outcome): Option<State> {
    if pid !in s.processes || !s.processes[pid].alive || !s.processes[pid].phase.Serving? || s.processes[pid].inbox == [] then None else
    var p := s.processes[pid];
    var m := p.inbox[0];
    Some(s.(processes := s.processes[pid := p.(inbox := p.inbox[1..], outbox := p.outbox + [Reply(m.id, outcome)])],
            computed := s.computed[(pid, m.id) := (m.payload, outcome)]))
  }

  function PumpStep(s: State, pid: Pid): Option<State> {
    if pid !in s.processes || s.processes[pid].queue !in s.queues || s.processes[pid].outbox == [] then None else
    var p := s.processes[pid];
    Some(s.(processes := s.processes[pid := p.(outbox := p.outbox[1..])],
            queues := s.queues[p.queue := s.queues[p.queue] + [Line(p.outbox[0])]]))
  }

  function PumpEndStep(s: State, pid: Pid): Option<State> {
    if pid !in s.processes || s.processes[pid].queue !in s.queues then None else
    var p := s.processes[pid];
    if p.alive || p.ended || p.outbox != [] then None
    else Some(s.(processes := s.processes[pid := p.(ended := true)],
                 queues := s.queues[p.queue := s.queues[p.queue] + [EndOfFile]]))
  }

  function Run(s: State, events: seq<Event>): Option<State>
    decreases |events|
  {
    if events == [] then Some(s) else
    var next := Step(s, events[0]);
    if next.None? then None else Run(next.value, events[1..])
  }

  // -- The invariant -----------------------------------------------------------------------------------

  ghost predicate Wired(s: State) {
    && s.stdout in s.queues
    && (forall p :: p in s.processes ==> s.processes[p].queue in s.queues)
    && (forall p, q :: p in s.processes && q in s.processes && p != q ==> s.processes[p].queue != s.processes[q].queue)
    && (s.process.Some? ==> s.process.value in s.processes && s.processes[s.process.value].queue == s.stdout)
    && (s.process.None? ==> (s.pc.Idle? || s.pc.Starting?))
  }

  // Request ids only go up; a waiting client has sent its request to its present process.
  ghost predicate SentOk(s: State) {
    && (forall i :: 0 <= i < |s.sent| ==> 1 <= s.sent[i].message.id <= s.requestId)
    && (forall i, j :: 0 <= i < j < |s.sent| ==> s.sent[i].message.id < s.sent[j].message.id)
    && (s.pc.Sending? ==> s.pc.id == s.requestId >= 1 && forall i :: 0 <= i < |s.sent| ==> s.sent[i].message.id < s.requestId)
    && (s.pc.Waiting? ==> s.pc.id == s.requestId && s.process.Some? && Sent(s.process.value, Message(s.pc.id, s.pc.payload)) in s.sent)
  }

  // What waits in an inbox was sent there and has not been answered; what was computed was sent.
  ghost predicate WorkOk(s: State) {
    && (forall p, i :: p in s.processes && 0 <= i < |s.processes[p].inbox| ==>
          Sent(p, s.processes[p].inbox[i]) in s.sent && (p, s.processes[p].inbox[i].id) !in s.computed)
    && (forall p, i, j :: p in s.processes && 0 <= i < j < |s.processes[p].inbox| ==>
          s.processes[p].inbox[i].id < s.processes[p].inbox[j].id)
    && (forall p: Pid, id: nat :: (p, id) in s.computed ==> Sent(p, Message(id, s.computed[(p, id)].0)) in s.sent)
  }

  // A reply is what its host computed under that id, or the error of a host that failed to start.
  ghost predicate Honest(s: State, pid: Pid, r: Reply) {
    || (r.id == 0 && pid in s.processes && s.processes[pid].phase.Failed?)
    || ((pid, r.id) in s.computed && s.computed[(pid, r.id)].1 == r.outcome)
  }

  ghost predicate Speaks(s: State)
    requires Wired(s)
  {
    && (forall p, i :: p in s.processes && 0 <= i < |s.processes[p].outbox| ==> Honest(s, p, s.processes[p].outbox[i]))
    && (forall p, i :: p in s.processes && 0 <= i < |s.queues[s.processes[p].queue]| && s.queues[s.processes[p].queue][i].Line? ==>
          Honest(s, p, s.queues[s.processes[p].queue][i].reply))
  }

  function ItemIds(items: seq<Item>): seq<nat> {
    if items == [] then [] else (if items[0].Line? then [items[0].reply.id] else []) + ItemIds(items[1..])
  }

  function ReplyIds(replies: seq<Reply>): (ids: seq<nat>)
    ensures |ids| == |replies| && forall i :: 0 <= i < |ids| ==> ids[i] == replies[i].id
  {
    seq(|replies|, i requires 0 <= i < |replies| => replies[i].id)
  }

  function MessageIds(messages: seq<Message>): (ids: seq<nat>)
    ensures |ids| == |messages| && forall i :: 0 <= i < |ids| ==> ids[i] == messages[i].id
  {
    seq(|messages|, i requires 0 <= i < |messages| => messages[i].id)
  }

  // The ids under way to and from a process, the next to be taken first.
  function Trail(p: Process, queue: seq<Item>): seq<nat> {
    ItemIds(queue) + ReplyIds(p.outbox) + MessageIds(p.inbox)
  }

  ghost predicate Rising(ids: seq<nat>) { forall i, j :: 0 <= i < j < |ids| ==> ids[i] < ids[j] }

  // Whose id may be under way: the present request's, an abandoned one's, or that of a failed start.
  ghost predicate Due(s: State, p: Process, id: nat) {
    (s.pc.Waiting? && id == s.pc.id) || id in s.abandoned || (id == 0 && p.phase.Failed?)
  }

  ghost predicate TrailFits(s: State, p: Process, trail: seq<nat>) {
    && Rising(trail)
    && (forall i :: 0 <= i < |trail| ==> trail[i] <= s.requestId && Due(s, p, trail[i]))
    && (s.pc.Sending? ==> forall i :: 0 <= i < |trail| ==> trail[i] < s.requestId)
    && (s.pc.Waiting? ==> trail != [] && trail[|trail| - 1] == s.pc.id)
  }

  // A host speaks only once it has loaded, or has failed to.
  predicate LoadsInSilence(p: Process, queue: seq<Item>) {
    p.phase.Loading? ==> ItemIds(queue) == [] && p.outbox == []
  }

  ghost predicate TrailOk(s: State)
    requires Wired(s)
  {
    s.process.Some? ==>
      var p, queue := s.processes[s.process.value], s.queues[s.stdout];
      TrailFits(s, p, Trail(p, queue)) && LoadsInSilence(p, queue)
  }

  ghost predicate Backed(s: State, call: Call) {
    exists pid: Pid :: Sent(pid, Message(call.id, call.payload)) in s.sent && (pid, call.id) in s.computed
                  && s.computed[(pid, call.id)] == (call.payload, call.outcome)
  }

  ghost predicate Answered(s: State) {
    && (forall i :: 0 <= i < |s.returned| ==> Backed(s, s.returned[i]))
    && (forall i :: 0 <= i < |s.returned| ==> s.returned[i].id <= s.requestId)
    && (s.pc.Sending? || s.pc.Waiting? ==> forall i :: 0 <= i < |s.returned| ==> s.returned[i].id < s.requestId)
    && (forall i, j :: 0 <= i < j < |s.returned| ==> s.returned[i].id < s.returned[j].id)
  }

  // Why a reply may be refused: its host failed to start, or its own request had been abandoned.
  ghost predicate Justified(s: State, r: Refusal) {
    || (r.reply.id == 0 && r.pid in s.processes && s.processes[r.pid].phase.Failed?)
    || (r.reply.id in s.abandoned && (r.pid, r.reply.id) in s.computed && s.computed[(r.pid, r.reply.id)].1 == r.reply.outcome)
  }

  ghost predicate RefusedOk(s: State) {
    forall i :: 0 <= i < |s.refused| ==> Justified(s, s.refused[i])
  }

  ghost predicate Inv(s: State) {
    Wired(s) && SentOk(s) && WorkOk(s) && Speaks(s) && TrailOk(s) && Answered(s) && RefusedOk(s)
  }

  predicate ByHost(ev: Event) {
    ev.HostReady? || ev.HostFails? || ev.HostAnswers? || ev.HostDies? || ev.Pump? || ev.PumpEnd?
  }

  // -- Wiring ------------------------------------------------------------------------------------------

  lemma HostKeepsWired(s: State, ev: Event)
    requires Wired(s) && ByHost(ev) && Step(s, ev).Some?
    ensures Wired(Step(s, ev).value)
  {
  }

  lemma ClosedKeepsWired(s: State, next: Qid)
    requires Wired(s) && next !in s.queues
    ensures Wired(Closed(s, next))
  {
  }

  lemma StepKeepsWired(s: State, ev: Event)
    requires Wired(s) && Step(s, ev).Some?
    ensures Wired(Step(s, ev).value)
  {
    match ev
    case Probe(next) => ClosedKeepsWired(s, next);
    case Check(next) => ClosedKeepsWired(s, next);
    case SendFails(next) => ClosedKeepsWired(s, next);
    case GiveUp(next) => ClosedKeepsWired(s, next);
    case CloseNow(next) => ClosedKeepsWired(s, next);
    case Take(next) =>
      var taken := s.(queues := s.queues[s.stdout := s.queues[s.stdout][1..]]);
      assert Wired(taken);
      ClosedKeepsWired(taken, next);
    case _ => if ByHost(ev) { HostKeepsWired(s, ev); }
  }

  // -- Requests and work -------------------------------------------------------------------------------

  lemma OtherKeepsWork(s: State, ev: Event)
    requires Step(s, ev).Some? && !ev.Send? && !ev.HostAnswers?
    ensures var t := Step(s, ev).value;
            && t.sent == s.sent && t.computed == s.computed
            && forall p :: p in t.processes ==> t.processes[p].inbox == if p in s.processes then s.processes[p].inbox else []
  {
  }

  lemma SendKeepsSent(s: State)
    requires Inv(s) && SendStep(s).Some?
    ensures SentOk(SendStep(s).value)
  {
    var t := SendStep(s).value;
    assert t.sent[|s.sent|] == Sent(s.process.value, Message(s.pc.id, s.pc.payload));
  }

  lemma HostKeepsSent(s: State, ev: Event)
    requires Inv(s) && Step(s, ev).Some? && ByHost(ev)
    ensures var t := Step(s, ev).value;
            t.sent == s.sent && t.pc == s.pc && t.requestId == s.requestId && t.process == s.process && t.returned == s.returned
            && t.refused == s.refused && t.abandoned == s.abandoned
  {
  }

  // Apart from sending, the client only ever takes the next id.
  lemma ClientMovesOn(s: State, ev: Event)
    requires Step(s, ev).Some? && !ByHost(ev) && !ev.Send?
    ensures var t := Step(s, ev).value;
            && t.sent == s.sent && !t.pc.Waiting? && t.requestId == s.requestId + (if t.pc.Sending? then 1 else 0)
            && (t.pc.Sending? ==> t.pc.id == t.requestId)
  {
  }

  lemma ClientKeepsSent(s: State, ev: Event)
    requires Inv(s) && Step(s, ev).Some? && !ByHost(ev) && !ev.Send?
    ensures SentOk(Step(s, ev).value)
  {
    ClientMovesOn(s, ev);
  }

  lemma StepKeepsSent(s: State, ev: Event)
    requires Inv(s) && Step(s, ev).Some?
    ensures SentOk(Step(s, ev).value)
  {
    if ev.Send? {
      SendKeepsSent(s);
    } else if ByHost(ev) {
      HostKeepsSent(s, ev);
    } else {
      ClientKeepsSent(s, ev);
    }
  }

  lemma SendKeepsWork(s: State)
    requires Inv(s) && SendStep(s).Some?
    ensures WorkOk(SendStep(s).value)
  {
    var t := SendStep(s).value;
    var pid, m := s.process.value, Message(s.pc.id, s.pc.payload);
    assert t.sent[|s.sent|] == Sent(pid, m);
    assert (pid, m.id) !in s.computed;
    forall p, i | p in t.processes && 0 <= i < |t.processes[p].inbox|
      ensures Sent(p, t.processes[p].inbox[i]) in t.sent && (p, t.processes[p].inbox[i].id) !in t.computed
    {
      if p == pid && i == |s.processes[pid].inbox| {
      } else {
        assert Sent(p, s.processes[p].inbox[i]) in s.sent;
      }
    }
    forall i | 0 <= i < |s.processes[pid].inbox| ensures s.processes[pid].inbox[i].id < m.id {
      assert Sent(pid, s.processes[pid].inbox[i]) in s.sent;
    }
    forall p: Pid, id: nat | (p, id) in t.computed ensures Sent(p, Message(id, t.computed[(p, id)].0)) in t.sent {
      assert Sent(p, Message(id, s.computed[(p, id)].0)) in s.sent;
    }
  }

  lemma AnswerKeepsWork(s: State, pid: Pid, outcome: Outcome)
    requires Inv(s) && AnswerStep(s, pid, outcome).Some?
    ensures WorkOk(AnswerStep(s, pid, outcome).value)
  {
    var t := AnswerStep(s, pid, outcome).value;
    var m := s.processes[pid].inbox[0];
    assert Sent(pid, m) in s.sent;
    forall p, i | p in t.processes && 0 <= i < |t.processes[p].inbox|
      ensures Sent(p, t.processes[p].inbox[i]) in t.sent && (p, t.processes[p].inbox[i].id) !in t.computed
    {
      if p == pid {
        assert t.processes[p].inbox[i] == s.processes[p].inbox[i + 1];
        assert s.processes[p].inbox[0].id < s.processes[p].inbox[i + 1].id;
      } else {
        assert t.processes[p] == s.processes[p];
      }
    }
  }

  lemma StepKeepsWork(s: State, ev: Event)
    requires Inv(s) && Step(s, ev).Some?
    ensures WorkOk(Step(s, ev).value)
  {
    match ev
    case Send => SendKeepsWork(s);
    case HostAnswers(pid, outcome) => AnswerKeepsWork(s, pid, outcome);
    case _ => OtherKeepsWork(s, ev);
  }

  // What a host computed for a message is never overwritten.
  lemma ComputedForGood(s: State, ev: Event)
    requires Inv(s) && Step(s, ev).Some?
    ensures var t := Step(s, ev).value;
            && (forall k :: k in s.computed ==> k in t.computed && t.computed[k] == s.computed[k])
            && (forall x :: x in s.sent ==> x in t.sent)
  {
    match ev
    case HostAnswers(q, _) => assert (q, s.processes[q].inbox[0].id) !in s.computed;
    case Send =>
    case _ => OtherKeepsWork(s, ev);
  }

  // A failed start stays failed, and an abandoned request abandoned.
  lemma FailuresForGood(s: State, ev: Event)
    requires Wired(s) && Step(s, ev).Some?
    ensures var t := Step(s, ev).value;
            && (forall p :: p in s.processes ==> p in t.processes && (s.processes[p].phase.Failed? ==> t.processes[p].phase.Failed?))
            && s.abandoned <= t.abandoned
  {
    if ByHost(ev) {
      HostFailuresForGood(s, ev);
    }
  }

  lemma HostFailuresForGood(s: State, ev: Event)
    requires Wired(s) && Step(s, ev).Some? && ByHost(ev)
    ensures var t := Step(s, ev).value;
            && (forall p :: p in s.processes ==> p in t.processes && (s.processes[p].phase.Failed? ==> t.processes[p].phase.Failed?))
            && s.abandoned == t.abandoned
  {
  }

  // -- Replies -----------------------------------------------------------------------------------------

  // Only host events add a line to a queue or an outbox.
  ghost predicate AddsNoLine(s: State, t: State, p: Pid)
    requires p in t.processes
  {
    && t.processes[p].queue in t.queues
    && if p in s.processes then
         && t.processes[p].outbox == s.processes[p].outbox && t.processes[p].queue == s.processes[p].queue
         && s.processes[p].queue in s.queues
         && var was, now := s.queues[s.processes[p].queue], t.queues[t.processes[p].queue];
            now == was || (was != [] && now == was[1..])
       else t.processes[p].outbox == [] && t.queues[t.processes[p].queue] == []
  }

  lemma ClosedAddsNoLine(s: State, next: Qid)
    requires Wired(s) && next !in s.queues
    ensures forall p :: p in s.processes ==> AddsNoLine(s, Closed(s, next), p)
  {
  }

  lemma TakeAddsNoLine(s: State, next: Qid)
    requires Wired(s) && TakeStep(s, next).Some?
    ensures var t := TakeStep(s, next).value; forall p :: p in t.processes ==> AddsNoLine(s, t, p)
  {
  }

  lemma ClientAddsNoLine(s: State, ev: Event, p: Pid)
    requires Wired(s) && Step(s, ev).Some? && !ByHost(ev) && p in Step(s, ev).value.processes
    ensures AddsNoLine(s, Step(s, ev).value, p)
  {
    match ev
    case Take(next) => TakeAddsNoLine(s, next);
    case Probe(next) => ClosedAddsNoLine(s, next);
    case Check(next) => ClosedAddsNoLine(s, next);
    case SendFails(next) => ClosedAddsNoLine(s, next);
    case GiveUp(next) => ClosedAddsNoLine(s, next);
    case CloseNow(next) => ClosedAddsNoLine(s, next);
    case _ =>
  }

  // Whatever is honest stays so.
  lemma HonestForGood(s: State, ev: Event, p: Pid, r: Reply)
    requires Inv(s) && Step(s, ev).Some? && Honest(s, p, r)
    ensures Honest(Step(s, ev).value, p, r)
  {
    ComputedForGood(s, ev);
    FailuresForGood(s, ev);
  }

  lemma ClientKeepsSpeech(s: State, ev: Event)
    requires Inv(s) && Step(s, ev).Some? && Wired(Step(s, ev).value) && !ByHost(ev)
    ensures Speaks(Step(s, ev).value)
  {
    var t := Step(s, ev).value;
    forall p, i | p in t.processes && 0 <= i < |t.queues[t.processes[p].queue]| && t.queues[t.processes[p].queue][i].Line?
      ensures Honest(t, p, t.queues[t.processes[p].queue][i].reply)
    {
      ClientAddsNoLine(s, ev, p);
      var was, now := s.queues[s.processes[p].queue], t.queues[t.processes[p].queue];
      assert was[if now == was then i else i + 1] == now[i];
      HonestForGood(s, ev, p, now[i].reply);
    }
    forall p, i | p in t.processes && 0 <= i < |t.processes[p].outbox| ensures Honest(t, p, t.processes[p].outbox[i]) {
      ClientAddsNoLine(s, ev, p);
      HonestForGood(s, ev, p, s.processes[p].outbox[i]);
    }
  }

  lemma PumpKeepsSpeech(s: State, pid: Pid)
    requires Inv(s) && PumpStep(s, pid).Some? && Wired(PumpStep(s, pid).value)
    ensures Speaks(PumpStep(s, pid).value)
  {
    var t := PumpStep(s, pid).value;
    var first := s.processes[pid].outbox[0];
    assert Honest(s, pid, first);
    forall p, i | p in t.processes && 0 <= i < |t.queues[t.processes[p].queue]| && t.queues[t.processes[p].queue][i].Line?
      ensures Honest(t, p, t.queues[t.processes[p].queue][i].reply)
    {
      if p == pid {
        var q := s.queues[s.processes[pid].queue];
        assert i == |q| || t.queues[t.processes[p].queue][i] == q[i];
      } else {
        assert t.queues[t.processes[p].queue] == s.queues[s.processes[p].queue];
      }
    }
    forall p, i | p in t.processes && 0 <= i < |t.processes[p].outbox| ensures Honest(t, p, t.processes[p].outbox[i]) {
      if p == pid { assert t.processes[p].outbox[i] == s.processes[p].outbox[i + 1]; }
    }
  }

  lemma AnswerKeepsSpeech(s: State, pid: Pid, outcome: Outcome)
    requires Inv(s) && AnswerStep(s, pid, outcome).Some? && Wired(AnswerStep(s, pid, outcome).value)
    ensures Speaks(AnswerStep(s, pid, outcome).value)
  {
    var t := AnswerStep(s, pid, outcome).value;
    ComputedForGood(s, HostAnswers(pid, outcome));
    forall p, i | p in t.processes && 0 <= i < |t.processes[p].outbox| ensures Honest(t, p, t.processes[p].outbox[i]) {
      if p == pid && i == |s.processes[p].outbox| {
        assert t.processes[p].outbox[i] == Reply(s.processes[p].inbox[0].id, outcome);
      } else {
        assert t.processes[p].outbox[i] == s.processes[p].outbox[i] && Honest(s, p, s.processes[p].outbox[i]);
      }
    }
    forall p, i | p in t.processes && 0 <= i < |t.queues[t.processes[p].queue]| && t.queues[t.processes[p].queue][i].Line?
      ensures Honest(t, p, t.queues[t.processes[p].queue][i].reply)
    {
      assert Honest(s, p, s.queues[s.processes[p].queue][i].reply);
    }
  }

  lemma FailKeepsSpeech(s: State, pid: Pid, code: string)
    requires Inv(s) && FailStep(s, pid, code).Some? && Wired(FailStep(s, pid, code).value)
    ensures Speaks(FailStep(s, pid, code).value)
  {
    var t := FailStep(s, pid, code).value;
    forall p, i | p in t.processes && 0 <= i < |t.processes[p].outbox| ensures Honest(t, p, t.processes[p].outbox[i]) {
      if p == pid && i == |s.processes[p].outbox| {
      } else {
        assert t.processes[p].outbox[i] == s.processes[p].outbox[i] && Honest(s, p, s.processes[p].outbox[i]);
      }
    }
    forall p, i | p in t.processes && 0 <= i < |t.queues[t.processes[p].queue]| && t.queues[t.processes[p].queue][i].Line?
      ensures Honest(t, p, t.queues[t.processes[p].queue][i].reply)
    {
      assert Honest(s, p, s.queues[s.processes[p].queue][i].reply);
    }
  }

  lemma EndKeepsSpeech(s: State, pid: Pid)
    requires Inv(s) && PumpEndStep(s, pid).Some? && Wired(PumpEndStep(s, pid).value)
    ensures Speaks(PumpEndStep(s, pid).value)
  {
    var t := PumpEndStep(s, pid).value;
    forall p, i | p in t.processes && 0 <= i < |t.queues[t.processes[p].queue]| && t.queues[t.processes[p].queue][i].Line?
      ensures Honest(t, p, t.queues[t.processes[p].queue][i].reply)
    {
      if p != pid { assert t.queues[t.processes[p].queue] == s.queues[s.processes[p].queue]; }
      assert Honest(s, p, s.queues[s.processes[p].queue][i].reply);
    }
    forall p, i | p in t.processes && 0 <= i < |t.processes[p].outbox| ensures Honest(t, p, t.processes[p].outbox[i]) {
      assert Honest(s, p, s.processes[p].outbox[i]);
    }
  }

  lemma LifeKeepsSpeech(s: State, ev: Event)
    requires Inv(s) && Step(s, ev).Some? && Wired(Step(s, ev).value) && (ev.HostReady? || ev.HostDies?)
    ensures Speaks(Step(s, ev).value)
  {
    var t := Step(s, ev).value;
    forall p, i | p in t.processes && 0 <= i < |t.queues[t.processes[p].queue]| && t.queues[t.processes[p].queue][i].Line?
      ensures Honest(t, p, t.queues[t.processes[p].queue][i].reply)
    {
      assert Honest(s, p, s.queues[s.processes[p].queue][i].reply);
    }
    forall p, i | p in t.processes && 0 <= i < |t.processes[p].outbox| ensures Honest(t, p, t.processes[p].outbox[i]) {
      assert Honest(s, p, s.processes[p].outbox[i]);
    }
  }

  lemma HostKeepsSpeech(s: State, ev: Event)
    requires Inv(s) && Step(s, ev).Some? && Wired(Step(s, ev).value) && (ev.HostAnswers? || ev.HostFails? || ev.Pump?)
    ensures Speaks(Step(s, ev).value)
  {
    match ev
    case HostAnswers(pid, outcome) => AnswerKeepsSpeech(s, pid, outcome);
    case HostFails(pid, code) => FailKeepsSpeech(s, pid, code);
    case Pump(pid) => PumpKeepsSpeech(s, pid);
  }

  lemma StepKeepsSpeech(s: State, ev: Event)
    requires Inv(s) && Step(s, ev).Some? && Wired(Step(s, ev).value)
    ensures Speaks(Step(s, ev).value)
  {
    if ev.HostAnswers? || ev.HostFails? || ev.Pump? {
      HostKeepsSpeech(s, ev);
    } else if ev.HostReady? || ev.HostDies? {
      LifeKeepsSpeech(s, ev);
    } else if ev.PumpEnd? {
      EndKeepsSpeech(s, ev.pid);
    } else {
      ClientKeepsSpeech(s, ev);
    }
  }

  // -- The trail ---------------------------------------------------------------------------------------

  lemma {:induction false} ItemIdsAppend(items: seq<Item>, x: Item)
    ensures ItemIds(items + [x]) == ItemIds(items) + if x.Line? then [x.reply.id] else []
    decreases |items|
  {
    if items != [] {
      assert (items + [x])[1..] == items[1..] + [x];
      ItemIdsAppend(items[1..], x);
    } else {
      assert ([x])[1..] == [];
    }
  }

  // Hosts and reader threads move ids along the trail.
  lemma Regrouped(a: seq<nat>, b: seq<nat>, c: seq<nat>, d: seq<nat>)
    ensures (a + b) + c + d == a + (b + c) + d
  {
  }

  lemma PumpKeepsTrail(p: Process, queue: seq<Item>)
    requires p.outbox != []
    ensures Trail(p.(outbox := p.outbox[1..]), queue + [Line(p.outbox[0])]) == Trail(p, queue)
  {
    ItemIdsAppend(queue, Line(p.outbox[0]));
    assert ReplyIds(p.outbox) == [p.outbox[0].id] + ReplyIds(p.outbox[1..]);
    Regrouped(ItemIds(queue), [p.outbox[0].id], ReplyIds(p.outbox[1..]), MessageIds(p.inbox));
  }

  lemma RegroupedTail(a: seq<nat>, b: seq<nat>, x: seq<nat>, c: seq<nat>)
    ensures a + (b + x) + c == a + b + (x + c)
  {
  }

  lemma AnswerKeepsTrail(p: Process, queue: seq<Item>, outcome: Outcome)
    requires p.inbox != []
    ensures Trail(p.(inbox := p.inbox[1..], outbox := p.outbox + [Reply(p.inbox[0].id, outcome)]), queue) == Trail(p, queue)
  {
    var x := [p.inbox[0].id];
    assert MessageIds(p.inbox) == x + MessageIds(p.inbox[1..]);
    assert ReplyIds(p.outbox + [Reply(p.inbox[0].id, outcome)]) == ReplyIds(p.outbox) + x;
    RegroupedTail(ItemIds(queue), ReplyIds(p.outbox), x, MessageIds(p.inbox[1..]));
  }

  // A failed start puts its 0 in front of the requests that wait.
  lemma FailedTrail(p: Process, queue: seq<Item>, code: string)
    requires p.outbox == [] && ItemIds(queue) == []
    ensures Trail(p, queue) == MessageIds(p.inbox)
    ensures Trail(p.(phase := Failed, outbox := [Reply(0, RemoteError(code))]), queue) == [0] + MessageIds(p.inbox)
  {
    assert ReplyIds(p.outbox) == [];
    assert ReplyIds([Reply(0, RemoteError(code))]) == [0];
    assert ItemIds(queue) + [0] == [0];
  }

  lemma FailedTrailFits(s: State, p: Process, failed: Process, ids: seq<nat>)
    requires TrailFits(s, p, ids) && failed == p.(phase := Failed, outbox := failed.outbox)
    requires (forall i :: 0 <= i < |ids| ==> ids[i] > 0) && (s.pc.Sending? ==> s.requestId > 0)
    ensures TrailFits(s, failed, [0] + ids)
  {
    var trail := [0] + ids;
    forall i | 0 <= i < |trail| ensures trail[i] <= s.requestId && Due(s, failed, trail[i]) {
      if i > 0 { assert trail[i] == ids[i - 1] && Due(s, p, ids[i - 1]); }
    }
  }

  // `Due` and the bounds look at the client's side only.
  lemma FitsAnywhere(s: State, t: State, p: Process, trail: seq<nat>)
    requires TrailFits(s, p, trail) && t.pc == s.pc && t.abandoned == s.abandoned && t.requestId == s.requestId
    ensures TrailFits(t, p, trail)
  {
    forall i | 0 <= i < |trail| ensures Due(t, p, trail[i]) { assert Due(s, p, trail[i]); }
  }

  lemma PhaseAside(s: State, p: Process, q: Process, trail: seq<nat>)
    requires TrailFits(s, p, trail) && (p.phase.Failed? ==> q.phase.Failed?)
    ensures TrailFits(s, q, trail)
  {
    forall i | 0 <= i < |trail| ensures Due(s, q, trail[i]) { assert Due(s, p, trail[i]); }
  }

  // Host events of another process leave the present one alone.
  lemma OthersAreApart(s: State, ev: Event)
    requires Wired(s) && Step(s, ev).Some? && ByHost(ev) && s.process.Some? && ev.pid != s.process.value
    ensures var t := Step(s, ev).value;
            && t.process == s.process && t.stdout == s.stdout && t.pc == s.pc && t.abandoned == s.abandoned && t.requestId == s.requestId
            && s.process.value in t.processes && t.processes[s.process.value] == s.processes[s.process.value]
            && t.stdout in t.queues && t.queues[t.stdout] == s.queues[s.stdout]
  {
  }

  // The present process after a host event, and its trail.
  lemma TrailOkFrom(s: State, t: State, trail: seq<nat>)
    requires Wired(t) && s.process.Some? && t.process == s.process && t.pc == s.pc && t.abandoned == s.abandoned && t.requestId == s.requestId
    requires TrailFits(s, t.processes[t.process.value], trail)
    requires Trail(t.processes[t.process.value], t.queues[t.stdout]) == trail
    requires LoadsInSilence(t.processes[t.process.value], t.queues[t.stdout])
    ensures TrailOk(t)
  {
    FitsAnywhere(s, t, t.processes[t.process.value], trail);
  }

  lemma PumpTrailOk(s: State, pid: Pid)
    requires Inv(s) && PumpStep(s, pid).Some? && Wired(PumpStep(s, pid).value) && s.process == Some(pid)
    ensures TrailOk(PumpStep(s, pid).value)
  {
    var t, p, queue := PumpStep(s, pid).value, s.processes[pid], s.queues[s.stdout];
    PumpKeepsTrail(p, queue);
    PhaseAside(s, p, t.processes[pid], Trail(p, queue));
    TrailOkFrom(s, t, Trail(p, queue));
  }

  lemma EndTrailOk(s: State, pid: Pid)
    requires Inv(s) && PumpEndStep(s, pid).Some? && Wired(PumpEndStep(s, pid).value) && s.process == Some(pid)
    ensures TrailOk(PumpEndStep(s, pid).value)
  {
    var t, p, queue := PumpEndStep(s, pid).value, s.processes[pid], s.queues[s.stdout];
    ItemIdsAppend(queue, EndOfFile);
    PhaseAside(s, p, t.processes[pid], Trail(p, queue));
    assert ItemIds(t.queues[t.stdout]) == ItemIds(queue);
    TrailOkFrom(s, t, Trail(p, queue));
  }

  lemma AnswerTrailOk(s: State, pid: Pid, outcome: Outcome)
    requires Inv(s) && AnswerStep(s, pid, outcome).Some? && Wired(AnswerStep(s, pid, outcome).value) && s.process == Some(pid)
    ensures TrailOk(AnswerStep(s, pid, outcome).value)
  {
    var t, p, queue := AnswerStep(s, pid, outcome).value, s.processes[pid], s.queues[s.stdout];
    AnswerKeepsTrail(p, queue, outcome);
    PhaseAside(s, p, t.processes[pid], Trail(p, queue));
    TrailOkFrom(s, t, Trail(p, queue));
  }

  lemma InboxIsPositive(s: State, pid: Pid)
    requires Inv(s) && pid in s.processes
    ensures var ids := MessageIds(s.processes[pid].inbox); forall i :: 0 <= i < |ids| ==> ids[i] > 0
  {
    forall i | 0 <= i < |s.processes[pid].inbox| ensures s.processes[pid].inbox[i].id > 0 {
      assert Sent(pid, s.processes[pid].inbox[i]) in s.sent;
    }
  }

  lemma FailTrailOk(s: State, pid: Pid, code: string)
    requires Inv(s) && FailStep(s, pid, code).Some? && Wired(FailStep(s, pid, code).value) && s.process == Some(pid)
    ensures TrailOk(FailStep(s, pid, code).value)
  {
    var t, p, queue := FailStep(s, pid, code).value, s.processes[pid], s.queues[s.stdout];
    var ids := MessageIds(p.inbox);
    FailedTrail(p, queue, code);
    InboxIsPositive(s, pid);
    assert t.processes[pid].outbox == [Reply(0, RemoteError(code))];
    FailedTrailFits(s, p, t.processes[pid], ids);
    TrailOkFrom(s, t, [0] + ids);
  }

  lemma LifeTrailOk(s: State, ev: Event)
    requires Inv(s) && Step(s, ev).Some? && Wired(Step(s, ev).value) && (ev.HostReady? || ev.HostDies?) && s.process == Some(ev.pid)
    ensures TrailOk(Step(s, ev).value)
  {
    var t, p, queue := Step(s, ev).value, s.processes[ev.pid], s.queues[s.stdout];
    PhaseAside(s, p, t.processes[ev.pid], Trail(p, queue));
    TrailOkFrom(s, t, Trail(p, queue));
  }

  lemma ReaderKeepsTrail(s: State, ev: Event)
    requires Inv(s) && Step(s, ev).Some? && Wired(Step(s, ev).value) && (ev.Pump? || ev.PumpEnd?) && s.process == Some(ev.pid)
    ensures TrailOk(Step(s, ev).value)
  {
    if ev.Pump? { PumpTrailOk(s, ev.pid); } else { EndTrailOk(s, ev.pid); }
  }

  lemma SpeakerKeepsTrail(s: State, ev: Event)
    requires Inv(s) && Step(s, ev).Some? && Wired(Step(s, ev).value) && (ev.HostAnswers? || ev.HostFails?) && s.process == Some(ev.pid)
    ensures TrailOk(Step(s, ev).value)
  {
    if ev.HostAnswers? { AnswerTrailOk(s, ev.pid, ev.outcome); } else { FailTrailOk(s, ev.pid, ev.code); }
  }

  lemma OtherHostKeepsTrail(s: State, ev: Event)
    requires Inv(s) && Step(s, ev).Some? && Wired(Step(s, ev).value) && ByHost(ev) && s.process.Some? && s.process != Some(ev.pid)
    ensures TrailOk(Step(s, ev).value)
  {
    OthersAreApart(s, ev);
    TrailOkFrom(s, Step(s, ev).value, Trail(s.processes[s.process.value], s.queues[s.stdout]));
  }

  lemma HostKeepsTrail(s: State, ev: Event)
    requires Inv(s) && Step(s, ev).Some? && Wired(Step(s, ev).value) && ByHost(ev) && s.process.Some?
    ensures TrailOk(Step(s, ev).value)
  {
    if s.process != Some(ev.pid) {
      OtherHostKeepsTrail(s, ev);
    } else if ev.Pump? || ev.PumpEnd? {
      ReaderKeepsTrail(s, ev);
    } else if ev.HostAnswers? || ev.HostFails? {
      SpeakerKeepsTrail(s, ev);
    } else {
      LifeTrailOk(s, ev);
    }
  }

  lemma NoProcessNoTrail(s: State, ev: Event)
    requires Wired(s) && Step(s, ev).Some? && ByHost(ev) && s.process.None?
    ensures Step(s, ev).value.process.None?
  {
  }

  lemma SendKeepsTrail(s: State)
    requires Inv(s) && SendStep(s).Some? && Wired(SendStep(s).value)
    ensures TrailOk(SendStep(s).value)
  {
    var t, pid := SendStep(s).value, s.process.value;
    var p := s.processes[pid];
    var trail := Trail(p, s.queues[s.stdout]);
    assert MessageIds(t.processes[pid].inbox) == MessageIds(p.inbox) + [s.pc.id];
    assert Trail(t.processes[pid], t.queues[t.stdout]) == trail + [s.pc.id];
    forall i | 0 <= i < |trail| ensures Due(t, t.processes[pid], trail[i]) { assert Due(s, p, trail[i]); }
  }

  lemma LongTrails(s: State, p: Process, trail: seq<nat>)
    requires TrailFits(s, p, trail)
    ensures |trail| > 1 ==> trail[0] < s.requestId
  {
    if |trail| > 1 { assert trail[0] < trail[1] <= s.requestId; }
  }

  lemma TakeKeepsTrail(s: State, next: Qid)
    requires Inv(s) && TakeStep(s, next).Some? && Wired(TakeStep(s, next).value)
    ensures TrailOk(TakeStep(s, next).value)
  {
    var q, p := s.queues[s.stdout], s.processes[s.process.value];
    if q[0].Line? && q[0].reply.id == s.pc.id {
      HeadOfTrail(p, q);
      LongTrails(s, p, Trail(p, q));
      assert |Trail(p, q[1..])| == 0;
      assert LoadsInSilence(p, q[1..]) by { NothingUnderWay(p, q[1..]); }
    }
  }

  lemma HeadOfTrail(p: Process, queue: seq<Item>)
    requires queue != [] && queue[0].Line?
    ensures Trail(p, queue) == [queue[0].reply.id] + Trail(p, queue[1..])
  {
    assert ItemIds(queue) == [queue[0].reply.id] + ItemIds(queue[1..]);
  }

  lemma NothingUnderWay(p: Process, queue: seq<Item>)
    requires Trail(p, queue) == []
    ensures ItemIds(queue) == [] && p.outbox == [] && p.inbox == []
  {
    assert |Trail(p, queue)| == |ItemIds(queue)| + |p.outbox| + |p.inbox|;
  }

  // While nothing is sent or taken, a client that does not close leaves the trail as it was.
  lemma ClientKeepsTrail(s: State, ev: Event)
    requires Inv(s) && Step(s, ev).Some? && Wired(Step(s, ev).value) && !ByHost(ev) && !ev.Send? && !ev.Take? && !ev.Spawn?
    ensures TrailOk(Step(s, ev).value)
  {
    var t := Step(s, ev).value;
    if t.process.Some? {
      assert t.process == s.process && t.stdout == s.stdout && t.queues == s.queues && t.processes == s.processes;
      var p := s.processes[s.process.value];
      var trail := Trail(p, s.queues[s.stdout]);
      assert s.requestId <= t.requestId;
      forall i | 0 <= i < |trail| ensures Due(t, p, trail[i]) { assert Due(s, p, trail[i]); }
    }
  }

  lemma StepKeepsTrail(s: State, ev: Event)
    requires Inv(s) && Step(s, ev).Some? && Wired(Step(s, ev).value)
    ensures TrailOk(Step(s, ev).value)
  {
    if ByHost(ev) {
      if s.process.Some? { HostKeepsTrail(s, ev); } else { NoProcessNoTrail(s, ev); }
    } else if ev.Send? {
      SendKeepsTrail(s);
    } else if ev.Take? {
      TakeKeepsTrail(s, ev.next);
    } else if !ev.Spawn? {
      ClientKeepsTrail(s, ev);
    }
  }

  // -- What is returned and what is refused ------------------------------------------------------------

  lemma SameRequest(s: State, a: Sent, b: Sent)
    requires SentOk(s) && a in s.sent && b in s.sent && a.message.id == b.message.id
    ensures a == b
  {
    var i :| 0 <= i < |s.sent| && s.sent[i] == a;
    var j :| 0 <= j < |s.sent| && s.sent[j] == b;
  }

  // The first queued reply is returned exactly when it is the one computed for this very request.
  lemma TakenReply(s: State)
    requires Inv(s) && s.pc.Waiting? && s.queues[s.stdout] != [] && s.queues[s.stdout][0].Line?
    ensures s.process.Some?
    ensures var pid, r := s.process.value, s.queues[s.stdout][0].reply;
            if r.id == s.pc.id then
              Sent(pid, Message(s.pc.id, s.pc.payload)) in s.sent && (pid, r.id) in s.computed
              && s.computed[(pid, r.id)] == (s.pc.payload, r.outcome)
            else Justified(s, Refusal(pid, r))
  {
    var pid, queue := s.process.value, s.queues[s.stdout];
    var r, p := queue[0].reply, s.processes[pid];
    assert Honest(s, pid, r);
    HeadOfTrail(p, queue);
    assert Trail(p, queue)[0] == r.id && Due(s, p, r.id);
    var mine := Sent(pid, Message(s.pc.id, s.pc.payload));
    RequestsArePositive(s, mine);
    if r.id == s.pc.id {
      SameRequest(s, mine, Sent(pid, Message(r.id, s.computed[(pid, r.id)].0)));
    } else if r.id == 0 {
      NothingComputedForZero(s, pid);
    }
  }

  lemma RequestsArePositive(s: State, x: Sent)
    requires SentOk(s) && x in s.sent
    ensures x.message.id >= 1
  {
    var i :| 0 <= i < |s.sent| && s.sent[i] == x;
  }

  lemma NothingComputedForZero(s: State, pid: Pid)
    requires SentOk(s) && WorkOk(s)
    ensures (pid, 0) !in s.computed
  {
    if (pid, 0) in s.computed {
      RequestsArePositive(s, Sent(pid, Message(0, s.computed[(pid, 0)].0)));
    }
  }

  lemma BackedForGood(s: State, ev: Event, call: Call)
    requires Inv(s) && Step(s, ev).Some? && Backed(s, call)
    ensures Backed(Step(s, ev).value, call)
  {
    ComputedForGood(s, ev);
    var pid: Pid :| Sent(pid, Message(call.id, call.payload)) in s.sent && (pid, call.id) in s.computed
                    && s.computed[(pid, call.id)] == (call.payload, call.outcome);
    assert Sent(pid, Message(call.id, call.payload)) in Step(s, ev).value.sent;
  }

  lemma OtherReturnsNothing(s: State, ev: Event)
    requires Step(s, ev).Some? && !ev.Take?
    ensures var t := Step(s, ev).value;
            t.returned == s.returned && t.refused == s.refused && s.requestId <= t.requestId
            && (t.pc.Sending? || t.pc.Waiting? ==> s.requestId < t.requestId || ((s.pc.Sending? || s.pc.Waiting?) && t.requestId == s.requestId))
  {
  }

  lemma TakeKeepsAnswered(s: State, next: Qid)
    requires Inv(s) && TakeStep(s, next).Some?
    ensures Answered(TakeStep(s, next).value)
  {
    var t := TakeStep(s, next).value;
    forall i | 0 <= i < |s.returned| ensures Backed(t, s.returned[i]) { BackedForGood(s, Take(next), s.returned[i]); }
    var item := s.queues[s.stdout][0];
    if item.Line? && item.reply.id == s.pc.id {
      TakenReply(s);
      assert Backed(t, Call(s.pc.id, s.pc.payload, item.reply.outcome));
    }
  }

  lemma StepKeepsAnswered(s: State, ev: Event)
    requires Inv(s) && Step(s, ev).Some?
    ensures Answered(Step(s, ev).value)
  {
    if ev.Take? {
      TakeKeepsAnswered(s, ev.next);
    } else {
      OtherReturnsNothing(s, ev);
      forall i | 0 <= i < |s.returned| ensures Backed(Step(s, ev).value, s.returned[i]) { BackedForGood(s, ev, s.returned[i]); }
    }
  }

  lemma JustifiedForGood(s: State, ev: Event, r: Refusal)
    requires Inv(s) && Step(s, ev).Some? && Justified(s, r)
    ensures Justified(Step(s, ev).value, r)
  {
    ComputedForGood(s, ev);
    FailuresForGood(s, ev);
  }

  lemma StepKeepsRefused(s: State, ev: Event)
    requires Inv(s) && Step(s, ev).Some?
    ensures RefusedOk(Step(s, ev).value)
  {
    var t := Step(s, ev).value;
    forall i | 0 <= i < |s.refused| ensures Justified(t, s.refused[i]) { JustifiedForGood(s, ev, s.refused[i]); }
    if ev.Take? {
      var item := s.queues[s.stdout][0];
      if item.Line? && item.reply.id != s.pc.id {
        TakenReply(s);
        JustifiedForGood(s, ev, Refusal(s.process.value, item.reply));
      }
    } else {
      OtherReturnsNothing(s, ev);
    }
  }

  lemma StepKeepsInv(s: State, ev: Event)
    requires Inv(s) && Step(s, ev).Some?
    ensures Inv(Step(s, ev).value)
  {
    StepKeepsWired(s, ev);
    StepKeepsSent(s, ev);
    StepKeepsWork(s, ev);
    StepKeepsSpeech(s, ev);
    StepKeepsTrail(s, ev);
    StepKeepsAnswered(s, ev);
    StepKeepsRefused(s, ev);
  }

  lemma {:induction false} RunKeepsInv(s: State, events: seq<Event>)
    requires Inv(s) && Run(s, events).Some?
    ensures Inv(Run(s, events).value)
    decreases |events|
  {
    if events != [] {
      StepKeepsInv(s, events[0]);
      RunKeepsInv(Step(s, events[0]).value, events[1..]);
    }
  }

  /** Over every run, with timeouts, dying hosts, failed starts, abandoned requests, kills and restarts:
      whatever `request` returns is what one host computed for that very request, and no two requests
      share an id. A reply is refused for its id only if it is the error of a host that failed to start
      or the late answer to a request that was abandoned. */
  lemma RepliesBelong(events: seq<Event>)
    requires Run(Init, events).Some?
    ensures var s := Run(Init, events).value;
            && (forall i :: 0 <= i < |s.returned| ==> Backed(s, s.returned[i]))
            && (forall i, j :: 0 <= i < j < |s.sent| ==> s.sent[i].message.id < s.sent[j].message.id)
            && (forall i, j :: 0 <= i < j < |s.returned| ==> s.returned[i].id < s.returned[j].id)
            && (forall i :: 0 <= i < |s.refused| ==> Justified(s, s.refused[i]))
  {
    RunKeepsInv(Init, events);
  }

  // -- When a request completes ------------------------------------------------------------------------

  /** A waiting client that takes a line returns it if and only if nothing but its own request is under
      way: no late answer to an abandoned one, no error of a failed start. */
  lemma TakeReturnsIff(s: State, next: Qid)
    requires Inv(s) && s.pc.Waiting? && s.queues[s.stdout] != [] && s.queues[s.stdout][0].Line? && next !in s.queues
    ensures s.process.Some? && TakeStep(s, next).Some?
    ensures var t := TakeStep(s, next).value;
            (|t.returned| == |s.returned| + 1) <==> |Trail(s.processes[s.process.value], s.queues[s.stdout])| == 1
  {
    var p, queue := s.processes[s.process.value], s.queues[s.stdout];
    HeadOfTrail(p, queue);
    LongTrails(s, p, Trail(p, queue));
  }

  lemma OnlyMessage(s: State)
    requires Inv(s) && s.pc.Waiting? && s.process.Some?
    requires s.processes[s.process.value].inbox != [] && |Trail(s.processes[s.process.value], s.queues[s.stdout])| == 1
    ensures s.processes[s.process.value].inbox == [Message(s.pc.id, s.pc.payload)] && s.processes[s.process.value].outbox == []
  {
    var pid := s.process.value;
    var p := s.processes[pid];
    var trail := Trail(p, s.queues[s.stdout]);
    assert |trail| == |ItemIds(s.queues[s.stdout])| + |p.outbox| + |p.inbox|;
    assert trail[0] == p.inbox[0].id;
    assert Sent(pid, p.inbox[0]) in s.sent;
    SameRequest(s, Sent(pid, p.inbox[0]), Sent(pid, Message(s.pc.id, s.pc.payload)));
  }

  function Completion(s: State, outcome: Outcome, next: Qid): Option<State>
    requires s.process.Some?
  {
    var answered := Step(s, HostAnswers(s.process.value, outcome));
    if answered.None? then None else
    var pumped := Step(answered.value, Pump(s.process.value));
    if pumped.None? then None else Step(pumped.value, Take(next))
  }

  /** The client is not stuck: while a serving host lives and has only this request before it,
      answering, moving the line and taking it completes the request with the host's own outcome and
      keeps the process. */
  lemma LiveHostCompletes(s: State, outcome: Outcome, next: Qid)
    requires Inv(s) && s.pc.Waiting? && Live(s) && next !in s.queues && s.queues[s.stdout] == []
    requires var p := s.processes[s.process.value]; p.phase.Serving? && p.inbox != [] && |Trail(p, [])| == 1
    ensures Completion(s, outcome, next).Some?
    ensures var t := Completion(s, outcome, next).value;
            t.pc.Idle? && t.process == s.process && t.returned == s.returned + [Call(s.pc.id, s.pc.payload, outcome)]
  {
    OnlyMessage(s);
    CompletesAlone(s, outcome, next);
  }

  lemma CompletesAlone(s: State, outcome: Outcome, next: Qid)
    requires Live(s) && s.pc.Waiting? && next !in s.queues && s.stdout in s.queues && s.queues[s.stdout] == []
    requires var p := s.processes[s.process.value];
             p.phase.Serving? && p.queue == s.stdout && p.inbox == [Message(s.pc.id, s.pc.payload)] && p.outbox == []
    ensures Completion(s, outcome, next).Some?
    ensures var t := Completion(s, outcome, next).value;
            t.pc.Idle? && t.process == s.process && t.returned == s.returned + [Call(s.pc.id, s.pc.payload, outcome)]
  {
    var pid := s.process.value;
    var a := AnswerStep(s, pid, outcome).value;
    assert a.processes[pid].outbox == [Reply(s.pc.id, outcome)] && a.queues == s.queues;
    var b := PumpStep(a, pid).value;
    assert b.queues[b.stdout] == [Line(Reply(s.pc.id, outcome))] && b.pc == s.pc && b.returned == s.returned;
  }

  // -- When something is refused -----------------------------------------------------------------------

  ghost predicate Calm(s: State) {
    s.abandoned == {} && forall p :: p in s.processes ==> !s.processes[p].phase.Failed?
  }

  lemma StepKeepsCalm(s: State, ev: Event)
    requires Calm(s) && Step(s, ev).Some? && !ev.Abandon? && !ev.HostFails?
    ensures Calm(Step(s, ev).value)
  {
  }

  lemma {:induction false} RunKeepsCalm(s: State, events: seq<Event>)
    requires Calm(s) && Run(s, events).Some?
    requires forall i :: 0 <= i < |events| ==> !events[i].Abandon? && !events[i].HostFails?
    ensures Calm(Run(s, events).value)
    decreases |events|
  {
    if events != [] {
      StepKeepsCalm(s, events[0]);
      RunKeepsCalm(Step(s, events[0]).value, events[1..]);
    }
  }

  lemma CalmJustifiesNothing(s: State, r: Refusal)
    requires Calm(s)
    ensures !Justified(s, r)
  {
  }

  /** As long as every host loads its connectors and no request is abandoned, no reply is ever refused
      for its id, so late output of a killed process is never even looked at. */
  lemma CalmRunsRefuseNothing(events: seq<Event>)
    requires Run(Init, events).Some?
    requires forall i :: 0 <= i < |events| ==> !events[i].Abandon? && !events[i].HostFails?
    ensures Run(Init, events).value.refused == []
  {
    var s := Run(Init, events).value;
    RunKeepsInv(Init, events);
    RunKeepsCalm(Init, events);
    assert s.refused != [] ==> Justified(s, s.refused[0]);
    if s.refused != [] { CalmJustifiesNothing(s, s.refused[0]); }
  }

  lemma {:induction false} RunThrough(states: seq<State>, events: seq<Event>)
    requires |states| == |events| + 1
    requires forall i :: 0 <= i < |events| ==> Step(states[i], events[i]) == Some(states[i + 1])
    ensures Run(states[0], events) == Some(states[|events|])
    decreases |events|
  {
    if events != [] {
      RunThrough(states[1..], events[1..]);
    }
  }

  // A host whose connectors take longer to load than the client's initial wait, and then fail to.
  function SlowStart(payload: string, code: string): seq<Event> {
    [Enter(payload), Spawn(1, 1), Probe(2), Check(2), Send, HostFails(1, code), Pump(1), Take(2)]
  }

  lemma SlowStartSent(payload: string, code: string) returns (states: seq<State>)
    ensures |states| == 6 && states[0] == Init
    ensures forall i :: 0 <= i < 5 ==> Step(states[i], SlowStart(payload, code)[i]) == Some(states[i + 1])
    ensures var s := states[5];
            && s.process == Some(1) && s.stdout == 1 && s.pc == Waiting(1, payload) && s.refused == [] && s.returned == []
            && s.queues == map[0 := [], 1 := []]
            && 1 in s.processes && s.processes[1] == Process(true, Loading, [Message(1, payload)], [], false, 1)
  {
    var s1 := Step(Init, Enter(payload)).value;
    var s2 := SpawnStep(s1, 1, 1).value;
    var s3 := ProbeStep(s2, 2).value;
    var s4 := CheckStep(s3, 2).value;
    states := [Init, s1, s2, s3, s4, SendStep(s4).value];
  }

  /** A slow and failing start does reach a waiting client, which refuses the error for its id. */
  lemma SlowStartIsRefused(payload: string, code: string)
    ensures Run(Init, SlowStart(payload, code)).Some?
    ensures var s := Run(Init, SlowStart(payload, code)).value;
            s.refused == [Refusal(1, Reply(0, RemoteError(code)))] && s.returned == []
  {
    var states := SlowStartSent(payload, code);
    var s6 := FailStep(states[5], 1, code).value;
    var s7 := PumpStep(s6, 1).value;
    assert s7.queues[1] == [Line(Reply(0, RemoteError(code)))];
    RunThrough(states + [s6, s7, TakeStep(s7, 2).value], SlowStart(payload, code));
  }

  // A request that is interrupted, and another one before the first is answered.
  function Interrupted(a: string, b: string, v: string): seq<Event> {
    [Enter(a), Spawn(1, 1), HostReady(1), Probe(2), Check(2), Send, Abandon]
    + [Enter(b), Reuse, Check(2), Send, HostAnswers(1, Result(v)), Pump(1), Take(2)]
  }

  lemma InterruptedStart(a: string, b: string, v: string) returns (states: seq<State>)
    ensures |states| == 5 && states[0] == Init
    ensures forall i :: 0 <= i < 4 ==> Step(states[i], Interrupted(a, b, v)[i]) == Some(states[i + 1])
    ensures states[4] == State(map[1 := Process(true, Serving, [], [], false, 1)], map[0 := [], 1 := []],
                               Some(1), 1, 0, Checking(a), map[], [], {}, [], [])
  {
    var s1 := Step(Init, Enter(a)).value;
    var s2 := SpawnStep(s1, 1, 1).value;
    var s3 := ReadyStep(s2, 1).value;
    states := [Init, s1, s2, s3, ProbeStep(s3, 2).value];
  }

  lemma InterruptedFirst(a: string, b: string, v: string) returns (states: seq<State>)
    ensures |states| == 8 && states[0] == Init
    ensures forall i :: 0 <= i < 7 ==> Step(states[i], Interrupted(a, b, v)[i]) == Some(states[i + 1])
    ensures var s := states[7];
            && s.process == Some(1) && s.stdout == 1 && s.pc == Idle && s.refused == [] && s.returned == [] && s.requestId == 1
            && s.queues == map[0 := [], 1 := []]
            && 1 in s.processes && s.processes[1] == Process(true, Serving, [Message(1, a)], [], false, 1)
  {
    states := InterruptedStart(a, b, v);
    var s5 := CheckStep(states[4], 2).value;
    var s6 := SendStep(s5).value;
    states := states + [s5, s6, AbandonStep(s6).value];
  }

  lemma InterruptedSecond(s: State, b: string) returns (states: seq<State>)
    requires s.process == Some(1) && s.stdout == 1 && s.pc == Idle && s.requestId == 1 && s.queues == map[0 := [], 1 := []]
    requires 1 in s.processes && s.processes[1].alive && s.processes[1].queue == 1
    ensures |states| == 5 && states[0] == s
    ensures forall i :: 0 <= i < 4 ==> Step(states[i], [Enter(b), Reuse, Check(2), Send][i]) == Some(states[i + 1])
    ensures var t := states[4];
            && t.process == s.process && t.stdout == s.stdout && t.pc == Waiting(2, b) && t.queues == s.queues
            && t.refused == s.refused && t.returned == s.returned
            && 1 in t.processes && t.processes[1] == s.processes[1].(inbox := s.processes[1].inbox + [Message(2, b)])
  {
    var s1 := Step(s, Enter(b)).value;
    var s2 := Step(s1, Reuse).value;
    var s3 := CheckStep(s2, 2).value;
    states := [s, s1, s2, s3, SendStep(s3).value];
  }

  lemma InterruptedLast(s: State, v: string) returns (states: seq<State>)
    requires s.process == Some(1) && s.stdout == 1 && s.pc.Waiting? && s.pc.id == 2 && s.queues == map[0 := [], 1 := []]
    requires 1 in s.processes && s.processes[1].alive && s.processes[1].phase.Serving? && s.processes[1].queue == 1
    requires s.processes[1].outbox == [] && s.processes[1].inbox != [] && s.processes[1].inbox[0].id == 1
    ensures |states| == 4 && states[0] == s
    ensures forall i :: 0 <= i < 3 ==> Step(states[i], [HostAnswers(1, Result(v)), Pump(1), Take(2)][i]) == Some(states[i + 1])
    ensures states[3].refused == s.refused + [Refusal(1, Reply(1, Result(v)))] && states[3].returned == s.returned
  {
    var s1 := AnswerStep(s, 1, Result(v)).value;
    var s2 := PumpStep(s1, 1).value;
    assert s2.queues[1] == [Line(Reply(1, Result(v)))];
    states := [s, s1, s2, TakeStep(s2, 2).value];
  }

  /** The answer to an interrupted request reaches the next one, and is refused, not returned. */
  lemma LateAnswerIsRefused(a: string, b: string, v: string)
    ensures Run(Init, Interrupted(a, b, v)).Some?
    ensures var s := Run(Init, Interrupted(a, b, v)).value;
            s.refused == [Refusal(1, Reply(1, Result(v)))] && s.returned == []
  {
    var first := InterruptedFirst(a, b, v);
    var second := InterruptedSecond(first[7], b);
    var last := InterruptedLast(second[4], v);
    RunThrough(first + second[1..] + last[1..], Interrupted(a, b, v));
  }

  // -- What closing is for -----------------------------------------------------------------------------

  /** A process the client lets go is dead, and the client is idle, without a process, on a fresh queue. */
  lemma LetGoIsDead(s: State, ev: Event, pid: Pid)
    requires Wired(s) && Step(s, ev).Some? && s.process == Some(pid) && Step(s, ev).value.process != Some(pid)
    ensures var t := Step(s, ev).value;
            && pid in t.processes && !t.processes[pid].alive && t.pc.Idle? && t.process.None?
            && t.stdout in t.queues && t.queues[t.stdout] == [] && t.stdout != t.processes[pid].queue
  {
  }

  // Dead, and not the client's.
  predicate Gone(s: State, pid: Pid) {
    pid in s.processes && !s.processes[pid].alive && s.process != Some(pid)
  }

  lemma StepKeepsGone(s: State, ev: Event, pid: Pid)
    requires Gone(s, pid) && Step(s, ev).Some?
    ensures var t := Step(s, ev).value;
            && Gone(t, pid) && t.processes[pid].inbox == s.processes[pid].inbox && |t.processes[pid].outbox| <= |s.processes[pid].outbox|
            && (forall id :: (pid, id) in t.computed <==> (pid, id) in s.computed)
            && (forall id :: (pid, id) in s.computed ==> t.computed[(pid, id)] == s.computed[(pid, id)])
  {
  }

  /** And it stays so over any run: it is never used again, is sent nothing, and computes and writes nothing. */
  lemma {:induction false} GoneForGood(s: State, events: seq<Event>, pid: Pid)
    requires Gone(s, pid) && Run(s, events).Some?
    ensures var t := Run(s, events).value;
            && Gone(t, pid) && t.processes[pid].inbox == s.processes[pid].inbox && |t.processes[pid].outbox| <= |s.processes[pid].outbox|
            && (forall id :: (pid, id) in t.computed <==> (pid, id) in s.computed)
            && (forall id :: (pid, id) in s.computed ==> t.computed[(pid, id)] == s.computed[(pid, id)])
    decreases |events|
  {
    if events != [] {
      StepKeepsGone(s, events[0], pid);
      GoneForGood(Step(s, events[0]).value, events[1..], pid);
    }
  }

  /** A request goes out only to a live host that has said nothing unasked, under the next id; and where the
      host has spoken or died, the check lets it go instead. */
  lemma SendsOnlyWhenSilent(s: State, next: Qid)
    requires Wired(s) && CheckStep(s, next).Some?
    ensures var t := CheckStep(s, next).value;
            if s.queues[s.stdout] == [] && Live(s)
            then t.pc == Sending(s.requestId + 1, s.pc.payload) && t.process == s.process && t.requestId == s.requestId + 1
            else t.pc.Idle? && t.process.None?
    ensures forall ev :: Step(s, ev).Some? && Step(s, ev).value.pc.Sending? ==> ev.Check? || ByHost(ev)
  {
  }

  // -- The end of the output ---------------------------------------------------------------------------

  // The end is reported once, after everything that was written.
  ghost predicate EndLast(s: State) {
    forall pid :: pid in s.processes ==>
      var p := s.processes[pid];
      && (p.ended ==> !p.alive && p.outbox == [])
      && (p.queue in s.queues ==> EndsOnce(s.queues[p.queue], p.ended))
  }

  predicate EndsOnce(queue: seq<Item>, ended: bool) {
    forall i :: 0 <= i < |queue| && queue[i].EndOfFile? ==> ended && i == |queue| - 1
  }

  lemma HostKeepsEnd(s: State, ev: Event)
    requires Wired(s) && EndLast(s) && Step(s, ev).Some? && ByHost(ev)
    ensures EndLast(Step(s, ev).value)
  {
  }

  lemma ClosedKeepsEnd(s: State, next: Qid)
    requires Wired(s) && EndLast(s) && next !in s.queues
    ensures EndLast(Closed(s, next))
  {
  }

  lemma TakeKeepsEnd(s: State, next: Qid)
    requires Wired(s) && EndLast(s) && TakeStep(s, next).Some?
    ensures EndLast(TakeStep(s, next).value)
  {
    var taken := s.(queues := s.queues[s.stdout := s.queues[s.stdout][1..]]);
    assert EndLast(taken);
    ClosedKeepsEnd(taken, next);
  }

  lemma ClientKeepsEnd(s: State, ev: Event)
    requires Wired(s) && EndLast(s) && Step(s, ev).Some? && !ByHost(ev) && !ev.Take?
    ensures EndLast(Step(s, ev).value)
  {
    if ev.Probe? || ev.Check? || ev.SendFails? || ev.GiveUp? || ev.CloseNow? { ClosedKeepsEnd(s, ev.next); }
  }

  lemma StepKeepsEnd(s: State, ev: Event)
    requires Wired(s) && EndLast(s) && Step(s, ev).Some?
    ensures EndLast(Step(s, ev).value)
  {
    if ByHost(ev) { HostKeepsEnd(s, ev); } else if ev.Take? { TakeKeepsEnd(s, ev.next); } else { ClientKeepsEnd(s, ev); }
  }

  lemma {:induction false} EndComesLast(s: State, events: seq<Event>)
    requires Wired(s) && EndLast(s) && Run(s, events).Some?
    ensures EndLast(Run(s, events).value)
    decreases |events|
  {
    if events != [] {
      StepKeepsWired(s, events[0]);
      StepKeepsEnd(s, events[0]);
      EndComesLast(Step(s, events[0]).value, events[1..]);
    }
  }

  /** A waiting client is not left hanging by a host that dies: once its lines are moved, the end of its
      output is reported and taken, which ends the request without a value and lets the process go. */
  lemma DeadHostEndsTheRequest(s: State, next: Qid)
    requires Wired(s) && EndLast(s) && s.pc.Waiting? && s.process.Some? && next !in s.queues && s.queues[s.stdout] == []
    requires var p := s.processes[s.process.value]; !p.alive && p.outbox == [] && !p.ended
    ensures Run(s, [PumpEnd(s.process.value), Take(next)]).Some?
    ensures var t := Run(s, [PumpEnd(s.process.value), Take(next)]).value;
            t.pc.Idle? && t.process.None? && t.returned == s.returned && t.refused == s.refused
  {
    var pid := s.process.value;
    var a := PumpEndStep(s, pid).value;
    assert a.queues[a.stdout] == [EndOfFile] && a.pc == s.pc;
    var b := TakeStep(a, next).value;
    RunThrough([s, a, b], [PumpEnd(pid), Take(next)]);
  }
}
