/**
  What becomes of each command: a result settles the command it answers, a timeout and an exit fail
  theirs, a late result is reported, and if nothing is lost every command gets the outcome of its
  own execution.
 */
module CommandDelivery {
  import opened Wrappers
  import opened CommandProtocol
  import opened CommandRuns

  // ---- One event -----------------------------------------------------------------------------

  /**
    In every run: a result for a pending command settles that command with that result, and settles
    nothing else; a result for a timed-out command is reported once and forgotten; any other result
    changes nothing.
   */
  lemma ResultSettlesItsCommand(trace: seq<System>, events: seq<Event>, n: nat)
    requires IsRun(trace, events) && n < |events| && events[n].Receive?
    ensures events[n].index < |trace[n].toClient|
    ensures var m, c, d := trace[n].toClient[events[n].index], trace[n].client, trace[n + 1].client;
            && (m.id in c.pending ==>
                  && d.settled == c.settled + [m] && d.pending == c.pending - {m.id}
                  && d.late == c.late && d.timedOut == c.timedOut)
            && (m.id in c.timedOut ==>
                  && d.late == c.late + [Late(m.id, c.timedOut[m.id], m.outcome)] && d.timedOut == c.timedOut - {m.id}
                  && d.settled == c.settled && d.pending == c.pending)
            && (m.id !in c.pending && m.id !in c.timedOut ==> d == c)
  {
    RunsAreSafe(trace, events, n);
    assert trace[n + 1] == Next(trace[n], events[n]);
  }

  /** In every run a timeout fails its command and remembers it; no other command is touched. */
  lemma TimeoutFailsItsCommand(trace: seq<System>, events: seq<Event>, n: nat)
    requires IsRun(trace, events) && n < |events| && events[n].Timer?
    ensures var id, c, d := events[n].id, trace[n].client, trace[n + 1].client;
            && id in c.pending && d.settled == c.settled + [Result(id, Err(TIMEOUT))] && d.pending == c.pending - {id}
            && d.timedOut == c.timedOut[id := c.pending[id]] && d.late == c.late
  {
    assert trace[n + 1] == Next(trace[n], events[n]);
  }

  /** In every run the worker's exit fails every pending command, and nothing late is awaited any more. */
  lemma ExitFailsEveryCommand(trace: seq<System>, events: seq<Event>, n: nat)
    requires IsRun(trace, events) && n < |events| && events[n].Exit?
    ensures var c, d := trace[n].client, trace[n + 1].client;
            && d.pending == map[] && d.timedOut == map[] && c.settled <= d.settled
            && (forall id :: id in c.pending ==> Result(id, Err(EXITED)) in d.settled)
            && |d.settled| == |c.settled| + |c.pending|
  {
    var failed, c := events[n].failed, trace[n].client;
    assert trace[n + 1] == Next(trace[n], events[n]);
    forall id | id in c.pending ensures Result(id, Err(EXITED)) in failed {
      assert id in Ids(failed);
    }
    OneEntryEach(failed);
    assert |c.pending.Keys| == |c.pending|;
  }

  lemma {:induction false} OneEntryEach(rs: seq<Result>)
    requires forall i, j :: 0 <= i < j < |rs| ==> rs[i].id != rs[j].id
    ensures |Ids(rs)| == |rs|
  {
    if rs != [] {
      var n := |rs| - 1;
      OneEntryEach(rs[..n]);
      assert rs == rs[..n] + [rs[n]];
      IdsAppend(rs[..n], [rs[n]]);
      assert Ids([rs[n]]) == {rs[n].id};
      assert rs[n].id !in Ids(rs[..n]);
    }
  }

  /** In every run a command that is sent is pending afterwards; one that cannot be sent has failed, with its reason. */
  lemma SendIsPendingOrFailed(trace: seq<System>, events: seq<Event>, n: nat)
    requires IsRun(trace, events) && n < |events| && events[n].Send?
    ensures var id, c, d := trace[n].client.nextId, trace[n].client, trace[n + 1].client;
            match events[n].sending
            case Sent => id in d.pending && d.settled == c.settled
                         && trace[n + 1].toWorker == trace[n].toWorker + [Request(id, events[n].command)]
            case Invalid(error) => d.pending == c.pending && d.settled == c.settled + [Result(id, Err(error))]
            case Throws(error) => d.pending == c.pending && d.settled == c.settled + [Result(id, Err(error))]
            case NoWorker => d.pending == c.pending && d.settled == c.settled + [Result(id, Err(UNAVAILABLE))]
  {
    RunsKeepInvariant(trace, events, n);
    var id, c := trace[n].client.nextId, trace[n].client;
    assert trace[n + 1] == Next(trace[n], events[n]);
    assert forall k :: k in c.pending ==> k < c.nextId;
    assert c.pending[id := events[n].command.kind] - {id} == c.pending;
  }

  // ---- Runs in which nothing is lost ---------------------------------------------------------

  /** No message is lost, no command times out and the worker stays. */
  ghost predicate Lossless(events: seq<Event>) {
    forall e :: e in events ==> !e.Lose? && !e.Timer? && !e.Exit?
  }

  ghost predicate InChannel(rs: seq<Result>, id: nat) { exists m :: m in rs && m.id == id }

  ghost predicate Waits(rs: seq<Request>, id: nat) { exists r :: r in rs && r.id == id }

  /** What the worker has still to do. */
  ghost function ToDo(s: System): seq<Request> { InWorker(s.queue) + s.toWorker }

  /** Each pending command is with the worker, on its way there, or answered; it is in one of these places only. */
  ghost predicate Placed(todo: seq<Request>, channel: seq<Result>, pending: map<nat, string>) {
    && (forall r :: r in todo ==> r.id in pending && !InChannel(channel, r.id))
    && (forall m :: m in channel ==> m.id in pending)
    && (forall i, j :: 0 <= i < j < |channel| ==> channel[i].id != channel[j].id)
    && (forall id :: id in pending ==> Waits(todo, id) || InChannel(channel, id))
  }

  /** What was executed is answered or settled with its outcome. */
  ghost predicate OutcomesKept(executed: seq<Execution>, channel: seq<Result>, settled: seq<Result>) {
    forall x :: x in executed ==> Result(x.request.id, x.outcome) in channel + settled
  }

  ghost predicate NothingLost(s: System) {
    && s.client.timedOut == map[]
    && Placed(ToDo(s), s.toClient, s.client.pending)
    && OutcomesKept(s.executed, s.toClient, s.client.settled)
  }

  lemma PlacedWithOneMore(todo: seq<Request>, channel: seq<Result>, pending: map<nat, string>, r: Request)
    requires Placed(todo, channel, pending) && r.id !in pending
    ensures Placed(todo + [r], channel, pending[r.id := r.command.kind])
  {
    var more := pending[r.id := r.command.kind];
    forall id | id in more ensures Waits(todo + [r], id) || InChannel(channel, id) {
      if id == r.id {
        assert r in todo + [r];
      } else if Waits(todo, id) {
        var x :| x in todo && x.id == id;
        assert x in todo + [r];
      }
    }
  }

  lemma PlacedWhenAnswered(todo: seq<Request>, channel: seq<Result>, pending: map<nat, string>, r: Request, m: Result)
    requires Placed([r] + todo, channel, pending) && m.id == r.id
    requires forall x :: x in todo ==> x.id != r.id
    ensures Placed(todo, channel + [m], pending)
  {
    assert r in [r] + todo;
    assert forall x :: x in [r] + todo <==> x == r || x in todo;
    assert forall x :: x in channel + [m] <==> x in channel || x == m;
    forall id | id in pending ensures Waits(todo, id) || InChannel(channel + [m], id) {
      if Waits([r] + todo, id) {
        var x :| x in [r] + todo && x.id == id;
        assert m in channel + [m];
      } else {
        var x :| x in channel && x.id == id;
        assert x in channel + [m];
      }
    }
    forall i | 0 <= i < |channel| ensures channel[i].id != m.id { assert channel[i] in channel; }
  }

  lemma PlacedWhenReceived(todo: seq<Request>, channel: seq<Result>, pending: map<nat, string>, i: nat)
    requires i < |channel| && Placed(todo, channel, pending)
    ensures Placed(todo, Without(channel, i), pending - {channel[i].id})
  {
    var m, rest := channel[i], Without(channel, i);
    OnlyMessageGone(channel, i);
    assert InChannel(channel, m.id);
    hide Without;
    forall id | id in pending && id != m.id ensures Waits(todo, id) || InChannel(rest, id) {
      if !Waits(todo, id) {
        var x :| x in channel && x.id == id;
        assert x in rest;
      }
    }
  }

  lemma OnlyMessageGone(rs: seq<Result>, i: nat)
    requires i < |rs| && forall a, b :: 0 <= a < b < |rs| ==> rs[a].id != rs[b].id
    ensures forall x :: x in Without(rs, i) <==> x in rs && x.id != rs[i].id
    ensures var w := Without(rs, i); forall a, b :: 0 <= a < b < |w| ==> w[a].id != w[b].id
  {
    var w := Without(rs, i);
    assert forall a :: 0 <= a < |w| ==> w[a] == rs[if a < i then a else a + 1];
    forall x | x in rs && x.id != rs[i].id ensures x in w {
      var a :| 0 <= a < |rs| && rs[a] == x;
      assert w[if a < i then a else a - 1] == x;
    }
  }

  /** The received message is now in the log. */
  lemma OutcomesReceived(executed: seq<Execution>, channel: seq<Result>, settled: seq<Result>, i: nat)
    requires i < |channel| && OutcomesKept(executed, channel, settled)
    ensures OutcomesKept(executed, Without(channel, i), settled + [channel[i]])
  {
    assert forall a :: 0 <= a < |channel| && a != i ==> channel[a] == Without(channel, i)[if a < i then a else a - 1];
    assert forall x :: x in channel ==> x in Without(channel, i) || x == channel[i];
  }

  lemma SendLosesNothing(s: System, command: Command, sending: Sending)
    requires NothingLost(s) && Invariant(s)
    ensures NothingLost(Next(s, Send(command, sending)))
  {
    hide Placed, Truthful, InSendOrder, WorkerInOrder, LateOnce;
    var t, id := Next(s, Send(command, sending)), s.client.nextId;
    var c, d := s.client, t.client;
    assert forall k :: k in c.pending ==> k < id;
    PlacedWithOneMore(ToDo(s), s.toClient, c.pending, Request(id, command));
    assert sending.Sent? ==> ToDo(t) == ToDo(s) + [Request(id, command)];
    assert !sending.Sent? ==> ToDo(t) == ToDo(s);
    assert c.pending[id := command.kind] - {id} == c.pending;
    assert c.settled <= d.settled;
  }

  lemma DeliverLosesNothing(s: System)
    requires NothingLost(s) && Invariant(s) && s.toWorker != []
    ensures NothingLost(Next(s, Deliver))
  {
    hide Placed, OutcomesKept;
    QueueKeepsFlow(s.queue, s.toWorker);
    assert ToDo(Next(s, Deliver)) == ToDo(s);
  }

  lemma FinishLosesNothing(s: System, outcome: Outcome)
    requires NothingLost(s) && Invariant(s) && s.queue.running.Some?
    ensures NothingLost(Next(s, Finish(outcome)))
  {
    hide Placed, Truthful, PromisesSettleOnce, LateOnce;
    var t, r := Next(s, Finish(outcome)), s.queue.running.value;
    FinishKeepsFlow(s.queue);
    assert ToDo(s) == [r] + ToDo(t);
    OthersAreLater(s, r, ToDo(t));
    PlacedWhenAnswered(ToDo(t), s.toClient, s.client.pending, r, Result(r.id, outcome));
    assert forall x :: x in t.executed ==> x in s.executed || x == Execution(r, outcome);
  }

  /** Requests are in the worker once each: behind the running one there are only others. */
  lemma OthersAreLater(s: System, r: Request, rest: seq<Request>)
    requires InSendOrder(s) && ToDo(s) == [r] + rest
    ensures forall x :: x in rest ==> x.id != r.id
  {
    var k := |s.executed|;
    forall x | x in rest ensures x.id != r.id {
      var j :| 0 <= j < |rest| && rest[j] == x;
      assert Flow(s)[k] == r && Flow(s)[k + 1 + j] == x;
    }
  }

  lemma ReceiveLosesNothing(s: System, i: nat)
    requires NothingLost(s) && i < |s.toClient|
    ensures NothingLost(Next(s, Receive(i)))
  {
    var t, m := Next(s, Receive(i)), s.toClient[i];
    assert m in s.toClient;
    PlacedWhenReceived(ToDo(s), s.toClient, s.client.pending, i);
    OutcomesReceived(s.executed, s.toClient, s.client.settled, i);
    hide Placed, OutcomesKept, Without;
    assert t.client.settled == s.client.settled + [m] && t.client.pending == s.client.pending - {m.id};
    assert ToDo(t) == ToDo(s);
  }

  lemma {:induction false} LosslessRunsLoseNothing(trace: seq<System>, events: seq<Event>, n: nat)
    requires IsRun(trace, events) && n < |trace| && Lossless(events[..n])
    ensures NothingLost(trace[n])
  {
    if n == 0 {
      assert ToDo(START) == [];
    } else {
      var e, s := events[n - 1], trace[n - 1];
      LosslessSoFar(events, n);
      assert e in [e];
      LosslessRunsLoseNothing(trace, events, n - 1);
      RunsKeepInvariant(trace, events, n - 1);
      hide NothingLost, Invariant;
      match e
      case Send(command, sending) => SendLosesNothing(s, command, sending);
      case Deliver => DeliverLosesNothing(s);
      case Finish(outcome) => FinishLosesNothing(s, outcome);
      case Receive(i) => ReceiveLosesNothing(s, i);
    }
  }

  /** Nothing is on its way and nothing is being worked on. */
  ghost predicate Quiet(s: System) {
    s.toWorker == [] && s.toClient == [] && s.queue.running.None? && s.queue.pending == []
  }

  lemma FlowGrowsBySends(s: System, e: Event)
    requires WorkerInOrder(s) && Enabled(s, e) && !e.Exit?
    ensures Flow(s) <= Flow(Next(s, e))
    ensures e.Send? && e.sending.Sent? ==> Request(s.client.nextId, e.command) in Flow(Next(s, e))
  {
    hide Flow, InWorker, Requests, WorkerInOrder;
    match e
    case Send(command, sending) =>
      SendExtendsFlow(s, command);
      SameFlow(s, Next(s, e));
      if sending.Sent? { assert Flow(Next(s, e)) == Flow(s) + [Request(s.client.nextId, command)]; }
    case Deliver => DeliverMovesFlow(s);
    case Finish(outcome) => FinishMovesFlow(s, outcome);
    case Receive(_) => SameFlow(s, Next(s, e));
    case Lose(_) => SameFlow(s, Next(s, e));
    case Timer(_) => SameFlow(s, Next(s, e));
  }

  lemma RunGrowsFlow(trace: seq<System>, events: seq<Event>, n: nat)
    requires IsRun(trace, events) && n < |events| && !events[n].Exit?
    ensures Flow(trace[n]) <= Flow(trace[n + 1])
    ensures events[n].Send? && events[n].sending.Sent? ==>
              Request(trace[n].client.nextId, events[n].command) in Flow(trace[n + 1])
  {
    hide Flow, WorkerInOrder, InSendOrder, Truthful, LateOnce, PromisesSettleOnce;
    RunsKeepInvariant(trace, events, n);
    FlowGrowsBySends(trace[n], events[n]);
  }

  lemma LosslessSoFar(events: seq<Event>, n: nat)
    requires 0 < n <= |events| && Lossless(events[..n])
    ensures Lossless(events[..n - 1]) && Lossless([events[n - 1]])
  {
    assert events[n - 1] in events[..n] && forall x :: x in events[..n - 1] ==> x in events[..n];
  }

  /** What was sent stays in the flow of a lossless run. */
  lemma {:induction false} SentStaysInFlow(trace: seq<System>, events: seq<Event>, i: nat, n: nat)
    requires IsRun(trace, events) && i < n < |trace| && Lossless(events[..n])
             && events[i].Send? && events[i].sending.Sent?
    ensures Request(trace[i].client.nextId, events[i].command) in Flow(trace[n])
    decreases n
  {
    hide Flow, Next, Enabled;
    LosslessSoFar(events, n);
    assert events[n - 1] in [events[n - 1]];
    RunGrowsFlow(trace, events, n - 1);
    if i < n - 1 {
      SentStaysInFlow(trace, events, i, n - 1);
      assert Request(trace[i].client.nextId, events[i].command) in Flow(trace[n - 1]);
    }
  }

  /**
    Where nothing is lost, every command ends: once all is quiet no command is pending, and each one
    that was sent has been executed and settled with the outcome of just that execution.
   */
  lemma EveryCommandIsAnswered(trace: seq<System>, events: seq<Event>, n: nat)
    requires IsRun(trace, events) && n < |trace| && Lossless(events[..n]) && Quiet(trace[n])
    ensures trace[n].client.pending == map[]
    ensures forall i :: 0 <= i < n && events[i].Send? && events[i].sending.Sent? ==>
              AnsweredByExecution(trace[n], Request(trace[i].client.nextId, events[i].command))
  {
    LosslessRunsLoseNothing(trace, events, n);
    var s := trace[n];
    assert ToDo(s) == [];
    assert forall id :: id in s.client.pending ==> Waits(ToDo(s), id) || InChannel(s.toClient, id);
    assert s.client.pending == map[];
    forall i | 0 <= i < n && events[i].Send? && events[i].sending.Sent?
      ensures AnsweredByExecution(s, Request(trace[i].client.nextId, events[i].command))
    {
      SentStaysInFlow(trace, events, i, n);
      SettledInQuiet(s, Request(trace[i].client.nextId, events[i].command));
    }
  }

  /** The request was executed, and its command is settled with the outcome of that. */
  ghost predicate AnsweredByExecution(s: System, r: Request) {
    exists x :: x in s.executed && x.request == r && Result(r.id, x.outcome) in s.client.settled
  }

  lemma SettledInQuiet(s: System, r: Request)
    requires NothingLost(s) && Quiet(s) && r in Flow(s)
    ensures AnsweredByExecution(s, r)
  {
    var k :| 0 <= k < |Flow(s)| && Flow(s)[k] == r;
    assert InWorker(s.queue) + s.toWorker == [];
    var x := s.executed[k];
    assert x in s.executed && x.request == r;
    assert Result(r.id, x.outcome) in s.toClient + s.client.settled;
  }
}
