/**
  Commands from the web process to the runtime worker.

  The client keeps a promise per command until a result, a timeout or the worker's exit settles
  it, and remembers timed-out commands so that a late answer can be reported. The worker runs
  one command at a time. `Client` and `Queue` are the states, with one function per event; the
  classes change their fields in place and are proved to follow these functions.
 */
module CommandProtocol {
  import opened Wrappers

  datatype Outcome = Ok(result: string) | Err(error: string)
  datatype Command = Command(kind: string, payload: string)
  datatype Request = Request(id: nat, command: Command)
  datatype Result = Result(id: nat, outcome: Outcome)
  datatype Late = Late(id: nat, kind: string, outcome: Outcome)

  const UNAVAILABLE := "runtime_worker_unavailable"
  const TIMEOUT := "runtime_worker_timeout"
  const EXITED := "runtime_worker_exited"

  // ---- The client ------------------------------------------------------------------------

  /** `settled` is the log of resolved promises, `late` the log of reported late answers. */
  datatype Client = Client(nextId: nat, pending: map<nat, string>, timedOut: map<nat, string>, settled: seq<Result>,
                           late: seq<Late>)

  function Settle(c: Client, id: nat, outcome: Outcome): Client {
    if id in c.pending then c.(pending := c.pending - {id}, settled := c.settled + [Result(id, outcome)]) else c
  }

  /** How a send turns out: rejected by validation, no worker, the channel throws, or on its way. */
  datatype Sending = Invalid(error: string) | NoWorker | Throws(error: string) | Sent

  function SendStep(c: Client, kind: string, sending: Sending): Client {
    var id := c.nextId;
    var numbered := c.(nextId := id + 1);
    match sending
    case Invalid(error) => numbered.(settled := c.settled + [Result(id, Err(error))])
    case NoWorker => numbered.(settled := c.settled + [Result(id, Err(UNAVAILABLE))])
    case Throws(error) => Settle(numbered.(pending := c.pending[id := kind]), id, Err(error))
    case Sent => numbered.(pending := c.pending[id := kind])
  }

  function TimeoutStep(c: Client, id: nat): Client {
    if id in c.pending
    then Settle(c, id, Err(TIMEOUT)).(timedOut := c.timedOut[id := c.pending[id]])
    else c
  }

  function MessageStep(c: Client, m: Result): Client {
    if m.id in c.timedOut
    then c.(timedOut := c.timedOut - {m.id}, late := c.late + [Late(m.id, c.timedOut[m.id], m.outcome)])
    else Settle(c, m.id, m.outcome)
  }

  function Ids(rs: seq<Result>): set<nat> { set r | r in rs :: r.id }

  /** One failure for each of the ids, in some order. */
  ghost predicate AllFail(rs: seq<Result>, ids: set<nat>, error: string) {
    && Ids(rs) == ids
    && (forall r :: r in rs ==> r.outcome == Err(error))
    && (forall i, j :: 0 <= i < j < |rs| ==> rs[i].id != rs[j].id)
  }

  lemma OneMoreFails(rs: seq<Result>, ids: set<nat>, error: string, id: nat)
    requires AllFail(rs, ids, error) && id !in ids
    ensures AllFail(rs + [Result(id, Err(error))], ids + {id}, error)
  {
    var next := rs + [Result(id, Err(error))];
    assert forall r :: r in next <==> r in rs || r == Result(id, Err(error));
    forall i | 0 <= i < |rs| ensures rs[i].id in ids {
      assert rs[i] in rs;
    }
  }

  /** All pending promises fail and nothing late is expected any more; `failed` are the new log entries. */
  function FailAllStep(c: Client, failed: seq<Result>): Client {
    c.(pending := map[], timedOut := map[], settled := c.settled + failed)
  }

  class RuntimeCommandClient {
    var nextId: nat
    var pending: map<nat, string>
    var timedOut: map<nat, string>
    var settled: seq<Result>
    var late: seq<Late>

    constructor ()
      ensures State() == Client(0, map[], map[], [], [])
    {
      nextId, pending, timedOut, settled, late := 0, map[], map[], [], [];
    }

    function State(): Client
      reads this
    {
      Client(nextId, pending, timedOut, settled, late)
    }

    method SettlePromise(id: nat, outcome: Outcome) returns (ours: bool)
      modifies this
      ensures State() == Settle(old(State()), id, outcome)
      ensures ours <==> id in old(pending)
    {
      if id !in pending { return false; }
      pending := pending - {id};
      settled := settled + [Result(id, outcome)];
      ours := true;
    }

    method Send(command: Command, sending: Sending) returns (request: Option<Request>)
      modifies this
      ensures State() == SendStep(old(State()), command.kind, sending)
      ensures request == if sending.Sent? then Some(Request(old(nextId), command)) else None
    {
      var id := nextId;
      nextId := nextId + 1;
      if sending.Invalid? {
        settled := settled + [Result(id, Err(sending.error))];
        return None;
      }
      if sending.NoWorker? {
        settled := settled + [Result(id, Err(UNAVAILABLE))];
        return None;
      }
      pending := pending[id := command.kind];
      if sending.Throws? {
        var _ := SettlePromise(id, Err(sending.error));
        return None;
      }
      request := Some(Request(id, command));
    }

    method OnTimer(id: nat)
      modifies this
      ensures State() == TimeoutStep(old(State()), id)
    {
      var kind := if id in pending then pending[id] else "";
      var ours := SettlePromise(id, Err(TIMEOUT));
      if ours {
        timedOut := timedOut[id := kind];
      }
    }

    method HandleMessage(m: Result) returns (ours: bool)
      modifies this
      ensures State() == MessageStep(old(State()), m)
      ensures ours <==> m.id in old(timedOut) || m.id in old(pending)
    {
      if m.id in timedOut {
        var kind := timedOut[m.id];
        timedOut := timedOut - {m.id};
        late := late + [Late(m.id, kind, m.outcome)];
        return true;
      }
      if m.id !in pending { return false; }
      ours := SettlePromise(m.id, m.outcome);
    }

    method FailAll(error: string) returns (ghost failed: seq<Result>)
      modifies this
      ensures AllFail(failed, old(pending.Keys), error)
      ensures State() == FailAllStep(old(State()), failed)
    {
      failed := [];
      while pending != map[]
        invariant nextId == old(nextId) && late == old(late)
        invariant pending.Keys <= old(pending.Keys) && settled == old(settled) + failed
        invariant AllFail(failed, old(pending.Keys) - pending.Keys, error)
        decreases pending.Keys
      {
        var id :| id in pending;
        OneMoreFails(failed, old(pending.Keys) - pending.Keys, error, id);
        assert (pending - {id}).Keys == pending.Keys - {id};
        assert old(pending.Keys) - (pending.Keys - {id}) == old(pending.Keys) - pending.Keys + {id};
        var _ := SettlePromise(id, Err(error));
        failed := failed + [Result(id, Err(error))];
      }
      timedOut := map[];
    }
  }

  // ---- The worker's queue ----------------------------------------------------------------

  datatype Queue = Queue(running: Option<Request>, pending: seq<Request>)

  /** Starts the next command if none is running. */
  function Drain(q: Queue): Queue {
    if q.running.Some? || q.pending == [] then q else Queue(Some(q.pending[0]), q.pending[1..])
  }

  function EnqueueStep(q: Queue, r: Request): Queue { Drain(q.(pending := q.pending + [r])) }

  function FinishStep(q: Queue): Queue { Drain(q.(running := None)) }

  /** The requests in the worker, oldest first. */
  function InWorker(q: Queue): seq<Request> {
    (if q.running.Some? then [q.running.value] else []) + q.pending
  }

  /** The worker is never idle while something waits. */
  ghost predicate Busy(q: Queue) { q.running.None? ==> q.pending == [] }

  class RuntimeCommandQueue {
    var active: bool
    var running: Option<Request>
    var pending: seq<Request>

    constructor ()
      ensures Valid() && State() == Queue(None, [])
    {
      active, running, pending := false, None, [];
    }

    ghost predicate Valid()
      reads this
    {
      (active <==> running.Some?) && Busy(State())
    }

    function State(): Queue
      reads this
    {
      Queue(running, pending)
    }

    method DrainQueue()
      requires active <==> running.Some?
      modifies this
      ensures Valid() && State() == Drain(old(State()))
    {
      if active { return; }
      if |pending| == 0 { return; }
      var next := pending[0];
      pending := pending[1..];
      active, running := true, Some(next);
    }

    method Enqueue(request: Request)
      requires Valid()
      modifies this
      ensures Valid() && State() == EnqueueStep(old(State()), request)
      ensures InWorker(State()) == old(InWorker(State())) + [request]
    {
      pending := pending + [request];
      DrainQueue();
    }

    /** The handler of the running command returned or threw: answer, then go on with the next. */
    method Finish(outcome: Outcome) returns (message: Result)
      requires Valid() && active
      modifies this
      ensures Valid() && State() == FinishStep(old(State()))
      ensures message == Result(old(running).value.id, outcome)
      ensures old(InWorker(State())) == [old(running).value] + InWorker(State())
    {
      message := Result(running.value.id, outcome);
      active, running := false, None;
      DrainQueue();
    }
  }
}
