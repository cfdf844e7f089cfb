/**
  Every interleaving of client, channel and worker.

  The system state joins the client, the worker's queue and the two message channels. Events
  happen in any order; messages to the client may overtake each other or get lost, and the
  worker may exit at any time and be replaced by a new one.
 */
module CommandRuns {
  import opened Wrappers
  import opened CommandProtocol

  /** One finished run of a handler. */
  datatype Execution = Execution(request: Request, outcome: Outcome)

  /**
    `sent`, `enqueued`, `answered` and `executed` are history; the last covers all workers, the
    others before it the current one.
   */
  datatype System = System(
    client: Client, sent: map<nat, Command>,
    toWorker: seq<Request>, queue: Queue, toClient: seq<Result>,
    enqueued: seq<Request>, answered: seq<Request>, executed: seq<Execution>)

  datatype Event =
    | Send(command: Command, sending: Sending)
    | Deliver
    | Finish(outcome: Outcome)
    | Receive(index: nat)
    | Lose(index: nat)
    | Timer(id: nat)
    | Exit(failed: seq<Result>)

  const START := System(Client(0, map[], map[], [], []), map[], [], Queue(None, []), [], [], [], [])

  ghost predicate Enabled(s: System, e: Event) {
    match e
    case Send(_, _) => true
    case Deliver => s.toWorker != []
    case Finish(_) => s.queue.running.Some?
    case Receive(i) => i < |s.toClient|
    case Lose(i) => i < |s.toClient|
    case Timer(id) => id in s.client.pending
    case Exit(failed) => AllFail(failed, s.client.pending.Keys, EXITED)
  }

  function Without<T>(xs: seq<T>, i: nat): (r: seq<T>)
    requires i < |xs|
    ensures forall x :: x in r ==> x in xs
  {
    xs[..i] + xs[i + 1..]
  }

  ghost function Next(s: System, e: Event): System
    requires Enabled(s, e)
  {
    match e
    case Send(command, sending) =>
      var id := s.client.nextId;
      s.(client := SendStep(s.client, command.kind, sending), sent := s.sent[id := command],
         toWorker := if sending.Sent? then s.toWorker + [Request(id, command)] else s.toWorker)
    case Deliver =>
      s.(toWorker := s.toWorker[1..], queue := EnqueueStep(s.queue, s.toWorker[0]),
         enqueued := s.enqueued + [s.toWorker[0]])
    case Finish(outcome) =>
      var r := s.queue.running.value;
      s.(queue := FinishStep(s.queue), toClient := s.toClient + [Result(r.id, outcome)],
         answered := s.answered + [r], executed := s.executed + [Execution(r, outcome)])
    case Receive(i) => s.(client := MessageStep(s.client, s.toClient[i]), toClient := Without(s.toClient, i))
    case Lose(i) => s.(toClient := Without(s.toClient, i))
    case Timer(id) => s.(client := TimeoutStep(s.client, id))
    case Exit(failed) =>
      s.(client := FailAllStep(s.client, failed), toWorker := [], queue := Queue(None, []),
         enqueued := [], answered := [])
  }

  // ---- What every step keeps ---------------------------------------------------------------

  /** Each promise given out is pending or settled, never both and never settled twice. */
  ghost predicate PromisesSettleOnce(c: Client) {
    && (forall i, j :: 0 <= i < j < |c.settled| ==> c.settled[i].id != c.settled[j].id)
    && Ids(c.settled) !! c.pending.Keys
    && (forall id: nat :: id < c.nextId <==> id in Ids(c.settled) || id in c.pending)
  }

  ghost predicate TimedOutSettled(c: Client, id: nat) {
    Result(id, Err(TIMEOUT)) in c.settled
  }

  /** Late answers concern timed-out commands only, each at most once. */
  ghost predicate LateOnce(c: Client) {
    && (forall id :: id in c.timedOut ==> TimedOutSettled(c, id))
    && (forall l :: l in c.late ==> TimedOutSettled(c, l.id) && l.id !in c.timedOut)
    && (forall i, j :: 0 <= i < j < |c.late| ==> c.late[i].id != c.late[j].id)
  }

  ghost predicate Answered(executed: seq<Execution>, id: nat, outcome: Outcome) {
    exists e :: e in executed && e.request.id == id && e.outcome == outcome
  }

  /** Successes and late answers are what the handler returned for that very request. */
  ghost predicate Truthful(s: System) {
    && (forall m :: m in s.toClient ==> Answered(s.executed, m.id, m.outcome))
    && (forall r :: r in s.client.settled && r.outcome.Ok? ==> Answered(s.executed, r.id, r.outcome))
    && (forall l :: l in s.client.late ==>
          Answered(s.executed, l.id, l.outcome) && l.id in s.sent && s.sent[l.id].kind == l.kind)
    && (forall id :: id in s.client.pending ==> id in s.sent && s.sent[id].kind == s.client.pending[id])
    && (forall id :: id in s.client.timedOut ==> id in s.sent && s.sent[id].kind == s.client.timedOut[id])
  }

  function Requests(executed: seq<Execution>): (r: seq<Request>)
    ensures |r| == |executed|
    ensures forall i :: 0 <= i < |r| ==> r[i] == executed[i].request
  {
    if executed == [] then [] else [executed[0].request] + Requests(executed[1..])
  }

  /** Everything executed, then running, then waiting, then on its way. */
  ghost function Flow(s: System): seq<Request> {
    Requests(s.executed) + (InWorker(s.queue) + s.toWorker)
  }

  ghost predicate Ordered(flow: seq<Request>, nextId: nat, sent: map<nat, Command>) {
    && (forall i, j :: 0 <= i < j < |flow| ==> flow[i].id < flow[j].id)
    && (forall r :: r in flow ==> r.id < nextId && r.id in sent && sent[r.id] == r.command)
  }

  /** Commands are executed in the order they were sent, each at most once and as it was sent. */
  ghost predicate InSendOrder(s: System) {
    Ordered(Flow(s), s.client.nextId, s.sent)
  }

  /** On the worker: answered, then running, then waiting, is the order of arrival. */
  ghost predicate WorkerInOrder(s: System) {
    s.answered + InWorker(s.queue) == s.enqueued && Busy(s.queue)
  }

  ghost predicate Invariant(s: System) {
    PromisesSettleOnce(s.client) && LateOnce(s.client) && Truthful(s) && InSendOrder(s) && WorkerInOrder(s)
    && forall id :: id in s.sent ==> id < s.client.nextId
  }

  // ---- The client's part -------------------------------------------------------------------

  lemma IdsAppend(rs: seq<Result>, more: seq<Result>)
    ensures Ids(rs + more) == Ids(rs) + Ids(more)
  {
    assert forall r :: r in rs + more <==> r in rs || r in more;
  }

  lemma SettleKeeps(c: Client, id: nat, outcome: Outcome)
    requires PromisesSettleOnce(c) && LateOnce(c)
    ensures PromisesSettleOnce(Settle(c, id, outcome)) && LateOnce(Settle(c, id, outcome))
  {
    if id in c.pending {
      IdsAppend(c.settled, [Result(id, outcome)]);
      forall i | 0 <= i < |c.settled| ensures c.settled[i].id != id {
        assert c.settled[i] in c.settled;
      }
      assert forall k: nat :: k in Ids([Result(id, outcome)]) <==> k == id;
    }
  }

  lemma SendKeeps(c: Client, kind: string, sending: Sending)
    requires PromisesSettleOnce(c) && LateOnce(c)
    ensures PromisesSettleOnce(SendStep(c, kind, sending)) && LateOnce(SendStep(c, kind, sending))
  {
    var id := c.nextId;
    var waiting := c.(nextId := id + 1, pending := c.pending[id := kind]);
    assert id !in Ids(c.settled) && id !in c.pending;
    assert PromisesSettleOnce(waiting) && LateOnce(waiting);
    match sending
    case Sent =>
    case Throws(error) => SettleKeeps(waiting, id, Err(error));
    case Invalid(error) =>
      SettleKeeps(waiting, id, Err(error));
      assert waiting.pending - {id} == c.pending;
    case NoWorker =>
      SettleKeeps(waiting, id, Err(UNAVAILABLE));
      assert waiting.pending - {id} == c.pending;
  }

  lemma TimeoutKeeps(c: Client, id: nat)
    requires PromisesSettleOnce(c) && LateOnce(c) && id in c.pending
    ensures PromisesSettleOnce(TimeoutStep(c, id)) && LateOnce(TimeoutStep(c, id))
  {
    SettleKeeps(c, id, Err(TIMEOUT));
    var d := Settle(c, id, Err(TIMEOUT));
    assert d.settled[|d.settled| - 1] in d.settled;
    forall l | l in c.late ensures l.id != id {
      assert TimedOutSettled(c, l.id);
    }
  }

  lemma MessageKeeps(c: Client, m: Result)
    requires PromisesSettleOnce(c) && LateOnce(c)
    ensures PromisesSettleOnce(MessageStep(c, m)) && LateOnce(MessageStep(c, m))
  {
    if m.id in c.timedOut {
      forall i | 0 <= i < |c.late| ensures c.late[i].id != m.id {
        assert c.late[i] in c.late;
      }
    } else {
      SettleKeeps(c, m.id, m.outcome);
    }
  }

  lemma FailAllKeeps(c: Client, failed: seq<Result>)
    requires PromisesSettleOnce(c) && LateOnce(c) && AllFail(failed, c.pending.Keys, EXITED)
    ensures PromisesSettleOnce(FailAllStep(c, failed)) && LateOnce(FailAllStep(c, failed))
  {
    IdsAppend(c.settled, failed);
    forall i, j | 0 <= i < |c.settled| && 0 <= j < |failed| ensures c.settled[i].id != failed[j].id {
      assert c.settled[i] in c.settled && failed[j] in failed;
      assert c.settled[i].id in Ids(c.settled) && failed[j].id in Ids(failed);
    }
  }

  lemma ClientKeeps(s: System, e: Event)
    requires Invariant(s) && Enabled(s, e)
    ensures PromisesSettleOnce(Next(s, e).client) && LateOnce(Next(s, e).client)
  {
    match e
    case Send(command, sending) => SendKeeps(s.client, command.kind, sending);
    case Deliver =>
    case Finish(_) =>
    case Receive(i) => MessageKeeps(s.client, s.toClient[i]);
    case Lose(_) =>
    case Timer(id) => TimeoutKeeps(s.client, id);
    case Exit(failed) => FailAllKeeps(s.client, failed);
  }

  // ---- Channel and worker ------------------------------------------------------------------

  lemma RequestsAppend(executed: seq<Execution>, e: Execution)
    ensures Requests(executed + [e]) == Requests(executed) + [e.request]
  {
  }

  lemma QueueKeepsFlow(q: Queue, toWorker: seq<Request>)
    requires Busy(q) && toWorker != []
    ensures InWorker(EnqueueStep(q, toWorker[0])) + toWorker[1..] == InWorker(q) + toWorker
    ensures Busy(EnqueueStep(q, toWorker[0])) && InWorker(EnqueueStep(q, toWorker[0])) == InWorker(q) + [toWorker[0]]
  {
  }

  lemma FinishKeepsFlow(q: Queue)
    requires Busy(q) && q.running.Some?
    ensures InWorker(q) == [q.running.value] + InWorker(FinishStep(q)) && Busy(FinishStep(q))
  {
  }

  /** Deliveries and finished runs move requests along the flow; only sends add to it. */
  lemma SendExtendsFlow(s: System, command: Command)
    ensures Flow(Next(s, Send(command, Sent))) == Flow(s) + [Request(s.client.nextId, command)]
  {
  }

  lemma FinishMovesFlow(s: System, outcome: Outcome)
    requires WorkerInOrder(s) && s.queue.running.Some?
    ensures Flow(Next(s, Finish(outcome))) == Flow(s) && WorkerInOrder(Next(s, Finish(outcome)))
  {
    var r := s.queue.running.value;
    RequestsAppend(s.executed, Execution(r, outcome));
    FinishKeepsFlow(s.queue);
    var rest := InWorker(FinishStep(s.queue));
    hide InWorker, Requests, Drain;
    Regroup(Requests(s.executed), [r], rest + s.toWorker);
    Regroup([r], rest, s.toWorker);
    Regroup(s.answered, [r], rest);
  }

  lemma DeliverMovesFlow(s: System)
    requires WorkerInOrder(s) && s.toWorker != []
    ensures Flow(Next(s, Deliver)) == Flow(s) && WorkerInOrder(Next(s, Deliver))
  {
    QueueKeepsFlow(s.queue, s.toWorker);
  }

  lemma OrderedExtends(flow: seq<Request>, nextId: nat, sent: map<nat, Command>, command: Command)
    requires Ordered(flow, nextId, sent)
    ensures Ordered(flow, nextId + 1, sent[nextId := command])
    ensures Ordered(flow + [Request(nextId, command)], nextId + 1, sent[nextId := command])
  {
    var next := flow + [Request(nextId, command)];
    assert forall i :: 0 <= i < |flow| ==> flow[i] in flow;
    assert forall r :: r in next <==> r in flow || r == Request(nextId, command);
  }

  lemma OrderedPrefix(front: seq<Request>, back: seq<Request>, nextId: nat, sent: map<nat, Command>)
    requires Ordered(front + back, nextId, sent)
    ensures Ordered(front, nextId, sent)
  {
    assert forall i :: 0 <= i < |front| ==> front[i] == (front + back)[i];
    assert forall r :: r in front ==> r in front + back;
  }

  lemma OrderKeeps(s: System, e: Event)
    requires InSendOrder(s) && WorkerInOrder(s) && Enabled(s, e)
    ensures InSendOrder(Next(s, e)) && WorkerInOrder(Next(s, e))
  {
    hide Ordered, Flow, InWorker;
    match e
    case Send(command, sending) =>
      OrderedExtends(Flow(s), s.client.nextId, s.sent, command);
      SendExtendsFlow(s, command);
      SameFlow(s, Next(s, e));
    case Deliver => DeliverMovesFlow(s);
    case Finish(outcome) => FinishMovesFlow(s, outcome);
    case Exit(_) =>
      ExitCutsFlow(s, e);
      OrderedPrefix(Requests(s.executed), InWorker(s.queue) + s.toWorker, s.client.nextId, s.sent);
    case _ => SameFlow(s, Next(s, e));
  }

  lemma SameFlow(s: System, t: System)
    ensures s.executed == t.executed && s.queue == t.queue && s.toWorker == t.toWorker ==> Flow(s) == Flow(t)
    ensures Flow(s) == Requests(s.executed) + (InWorker(s.queue) + s.toWorker)
  {
  }

  lemma ExitCutsFlow(s: System, e: Event)
    requires e.Exit? && Enabled(s, e)
    ensures Flow(Next(s, e)) == Requests(s.executed) && WorkerInOrder(Next(s, e))
    ensures Flow(s) == Requests(s.executed) + (InWorker(s.queue) + s.toWorker)
  {
  }

  lemma AnsweredGrows(executed: seq<Execution>, e: Execution, id: nat, outcome: Outcome)
    ensures Answered(executed, id, outcome) ==> Answered(executed + [e], id, outcome)
    ensures Answered(executed + [e], e.request.id, e.outcome)
  {
    if Answered(executed, id, outcome) {
      var x :| x in executed && x.request.id == id && x.outcome == outcome;
      assert x in executed + [e];
    }
    assert e in executed + [e];
  }

  lemma FinishKeepsTruth(s: System, outcome: Outcome)
    requires Truthful(s) && s.queue.running.Some?
    ensures Truthful(Next(s, Finish(outcome)))
  {
    var t := Next(s, Finish(outcome));
    var x := Execution(s.queue.running.value, outcome);
    forall id, o
      ensures Answered(s.executed, id, o) ==> Answered(t.executed, id, o)
    {
      AnsweredGrows(s.executed, x, id, o);
    }
    AnsweredGrows(s.executed, x, 0, outcome);
    hide Answered;
  }

  lemma TruthKeeps(s: System, e: Event)
    requires Truthful(s) && LateOnce(s.client) && Enabled(s, e)
    requires forall id :: id in s.sent ==> id < s.client.nextId
    ensures Truthful(Next(s, e))
  {
    hide Answered;
    match e
    case Finish(outcome) => FinishKeepsTruth(s, outcome);
    case Receive(i) => assert s.toClient[i] in s.toClient;
    case Send(_, _) =>
    case Exit(failed) =>
    case _ =>
  }

  lemma StepKeepsInvariant(s: System, e: Event)
    requires Invariant(s) && Enabled(s, e)
    ensures Invariant(Next(s, e))
  {
    hide PromisesSettleOnce, LateOnce, Truthful, InSendOrder, WorkerInOrder, Enabled;
    ClientKeeps(s, e);
    OrderKeeps(s, e);
    TruthKeeps(s, e);
  }

  /** The logs are final: what is settled or reported stays so. */
  lemma StepsOnlyAppend(s: System, e: Event)
    requires Enabled(s, e)
    ensures s.client.settled <= Next(s, e).client.settled && s.client.late <= Next(s, e).client.late
  {
  }

  // ---- Runs --------------------------------------------------------------------------------

  /** `trace` is a run: it starts in the start state and each state follows by the event. */
  ghost predicate IsRun(trace: seq<System>, events: seq<Event>) {
    && |trace| == |events| + 1 && trace[0] == START
    && forall i :: 0 <= i < |events| ==> Enabled(trace[i], events[i]) && trace[i + 1] == Next(trace[i], events[i])
  }

  lemma {:induction false} RunsKeepInvariant(trace: seq<System>, events: seq<Event>, n: nat)
    requires IsRun(trace, events) && n < |trace|
    ensures Invariant(trace[n])
  {
    if n > 0 {
      RunsKeepInvariant(trace, events, n - 1);
      StepKeepsInvariant(trace[n - 1], events[n - 1]);
    }
  }

  lemma {:induction false} LogsOnlyGrow(trace: seq<System>, events: seq<Event>, m: nat, n: nat)
    requires IsRun(trace, events) && m <= n < |trace|
    ensures trace[m].client.settled <= trace[n].client.settled && trace[m].client.late <= trace[n].client.late
    decreases n
  {
    hide Next, Enabled;
    if m < n {
      LogsOnlyGrow(trace, events, m, n - 1);
      StepsOnlyAppend(trace[n - 1], events[n - 1]);
    }
  }

  /** Two runs of the handler for one id are the same run. */
  lemma ExecutedOnce(s: System, i: nat, j: nat)
    requires Invariant(s) && i < |s.executed| && j < |s.executed|
             && s.executed[i].request.id == s.executed[j].request.id
    ensures i == j
  {
    assert Flow(s)[i] == s.executed[i].request && Flow(s)[j] == s.executed[j].request;
  }

  /**
    In every run: a promise is settled at most once, and once settled it keeps that outcome. A
    success is what the handler returned in its only run for that command, which ran exactly as
    it was sent.
   */
  lemma SuccessIsTheHandlersResult(trace: seq<System>, events: seq<Event>, n: nat, i: nat) returns (k: nat)
    requires IsRun(trace, events) && n < |trace| && i < |trace[n].client.settled|
             && trace[n].client.settled[i].outcome.Ok?
    ensures var s, r := trace[n], trace[n].client.settled[i];
            && r.id in s.sent
            && k < |s.executed| && s.executed[k] == Execution(Request(r.id, s.sent[r.id]), r.outcome)
            && (forall j :: 0 <= j < |s.executed| && s.executed[j].request.id == r.id ==> j == k)
            && (forall m :: n <= m < |trace| ==> r in trace[m].client.settled)
            && (forall j :: 0 <= j < |s.client.settled| && s.client.settled[j].id == r.id ==> j == i)
  {
    var s := trace[n];
    var r := s.client.settled[i];
    RunsKeepInvariant(trace, events, n);
    assert r in s.client.settled;
    var e :| e in s.executed && e.request.id == r.id && e.outcome == r.outcome;
    k :| 0 <= k < |s.executed| && s.executed[k] == e;
    assert Flow(s)[k] == e.request && Flow(s)[k] in Flow(s);
    forall j | 0 <= j < |s.executed| && s.executed[j].request.id == r.id ensures j == k {
      ExecutedOnce(s, j, k);
    }
    forall m | n <= m < |trace| ensures r in trace[m].client.settled {
      LogsOnlyGrow(trace, events, n, m);
      assert trace[m].client.settled[i] == r;
    }
  }

  /**
    In every run: pending and timed-out commands are disjoint, every command so far is pending
    or settled, a late answer is reported at most once and only for a command whose promise
    failed with the timeout, and the worker takes its commands in order of arrival.
   */
  lemma RunsAreSafe(trace: seq<System>, events: seq<Event>, n: nat)
    requires IsRun(trace, events) && n < |trace|
    ensures var c := trace[n].client;
            && c.pending.Keys !! c.timedOut.Keys
            && (forall id: nat :: id < c.nextId <==> id in c.pending || id in Ids(c.settled))
            && (forall i, j :: 0 <= i < j < |c.settled| ==> c.settled[i].id != c.settled[j].id)
            && (forall i, j :: 0 <= i < j < |c.late| ==> c.late[i].id != c.late[j].id)
            && (forall l :: l in c.late ==>
                  Result(l.id, Err(TIMEOUT)) in c.settled && Answered(trace[n].executed, l.id, l.outcome))
    ensures var s := trace[n];
            s.answered + InWorker(s.queue) == s.enqueued && (s.queue.running.None? ==> s.queue.pending == [])
  {
    RunsKeepInvariant(trace, events, n);
    var c := trace[n].client;
    forall id | id in c.timedOut ensures id !in c.pending {
      assert TimedOutSettled(c, id);
      assert id in Ids(c.settled);
    }
    forall l | l in c.late ensures Result(l.id, Err(TIMEOUT)) in c.settled {
      assert TimedOutSettled(c, l.id);
    }
  }
}
