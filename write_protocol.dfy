/**
  The client's write-buffer and request-ordering protocol as a pure state
  machine. The state is the platefile id, the FIFO write queue and the log
  of every request sent to the remote service, oldest first. RemoteIndex
  (remote_index.dfy) is proved to move through exactly these states.
 */
module WriteProtocol {
  import opened PlateMessages

  /** `max_pending_write_updates` in write_update. */
  const MaxPendingWriteUpdates: nat := 10

  datatype ClientState = ClientState(platefileId: int, queue: seq<IndexWriteUpdate>, log: seq<Request>)

  /** The requests whose client method flushes the write queue before sending them. */
  predicate FlushesFirst(req: Request)
  {
    || req.ReadRequest?
    || req.MultiReadRequest?
    || req.WriteComplete?
    || req.ValidTilesRequest?
    || req.NumLevelsRequest?
    || req.TransactionComplete?
    || req.TransactionFailed?
  }

  /**
    A request a caller issues through one of the client's own operations:
    not the open/create handshake, not a batch (only flushes send those),
    and stamped with the client's platefile id.
   */
  predicate CallerRequest(req: Request, pid: int)
  {
    !req.OpenRequest? && !req.CreateRequest? && !req.MultiWriteUpdate? && req.platefileId == pid
  }

  predicate StampedUpdates(updates: seq<IndexWriteUpdate>, pid: int)
  {
    forall i :: 0 <= i < |updates| ==> updates[i].platefileId == pid
  }

  /** Every request after the handshake carries the client's platefile id. */
  predicate StampedRequest(req: Request, pid: int)
  {
    match req
    case OpenRequest(_) => true
    case CreateRequest(_, _) => true
    case MultiWriteUpdate(updates) => StampedUpdates(updates, pid)
    case _ => req.platefileId == pid
  }

  predicate StampedLog(log: seq<Request>, pid: int)
  {
    forall i :: 0 <= i < |log| ==> StampedRequest(log[i], pid)
  }

  /**
    What holds whenever control is back with the caller: fewer than ten
    pending entries, and the platefile id on every entry and request.
   */
  predicate Inv(s: ClientState)
  {
    && |s.queue| < MaxPendingWriteUpdates
    && StampedUpdates(s.queue, s.platefileId)
    && StampedLog(s.log, s.platefileId)
  }

  /**
    All write updates the log has carried to the service, in the order sent.
    A batch counts once its MultiWriteUpdate is sent, also when that call
    raised: its entries were already popped and are not resent.
   */
  function Batched(log: seq<Request>): seq<IndexWriteUpdate>
  {
    if |log| == 0 then []
    else (if log[0].MultiWriteUpdate? then log[0].updates else []) + Batched(log[1..])
  }

  /** flush_write_queue: the whole queue goes out as one batch, even when empty. */
  function Flush(s: ClientState): (t: ClientState)
    ensures t.platefileId == s.platefileId && t.queue == []
    ensures |t.log| == |s.log| + 1 && t.log[..|s.log|] == s.log
    ensures t.log[|s.log|] == MultiWriteUpdate(s.queue)
  {
    s.(queue := [], log := s.log + [MultiWriteUpdate(s.queue)])
  }

  /** write_update: enqueue one stamped entry, flushing once the queue reaches the threshold. */
  function Push(s: ClientState, header: TileHeader, record: IndexRecord): (t: ClientState)
    ensures t.platefileId == s.platefileId && s.log <= t.log
    ensures var u := IndexWriteUpdate(s.platefileId, header, record);
            if |s.queue| + 1 < MaxPendingWriteUpdates then t.log == s.log && t.queue == s.queue + [u]
            else t.queue == [] && t.log == s.log + [MultiWriteUpdate(s.queue + [u])]
    ensures |t.queue| < MaxPendingWriteUpdates
  {
    var queued := s.(queue := s.queue + [IndexWriteUpdate(s.platefileId, header, record)]);
    if |queued.queue| >= MaxPendingWriteUpdates then Flush(queued) else queued
  }

  /**
    Any other operation: flush first when the request is of the flushing
    kind, then send the request unless the flush's own call raised.
   */
  function Call(s: ClientState, req: Request, flushSucceeded: bool): (t: ClientState)
    ensures t.platefileId == s.platefileId && |t.log| > |s.log| && t.log[..|s.log|] == s.log
    ensures !FlushesFirst(req) ==> t.queue == s.queue && t.log == s.log + [req]
    ensures FlushesFirst(req) ==> && t.queue == []
                                  && t.log[|s.log|] == MultiWriteUpdate(s.queue)
                                  && |t.log| == |s.log| + (if flushSucceeded then 2 else 1)
    ensures FlushesFirst(req) && flushSucceeded ==> t.log[|t.log| - 1] == req
    ensures FlushesFirst(req) && !flushSucceeded ==> req !in t.log[|s.log|..]
  {
    if !FlushesFirst(req) then s.(log := s.log + [req])
    else if flushSucceeded then Flush(s).(log := Flush(s).log + [req])
    else Flush(s)
  }

  /** One client operation, as the caller sees it. */
  datatype Step =
    | WriteUpdateStep(header: TileHeader, record: IndexRecord)
    | FlushStep
    | CallStep(request: Request, flushSucceeded: bool)

  function Apply(s: ClientState, step: Step): ClientState
  {
    match step
    case WriteUpdateStep(header, record) => Push(s, header, record)
    case FlushStep => Flush(s)
    case CallStep(req, ok) => Call(s, req, ok)
  }

  predicate CallerStep(step: Step, pid: int)
  {
    step.CallStep? ==> CallerRequest(step.request, pid)
  }

  predicate CallerSteps(steps: seq<Step>, pid: int)
  {
    forall i :: 0 <= i < |steps| ==> CallerStep(steps[i], pid)
  }

  function Run(s: ClientState, steps: seq<Step>): ClientState
    decreases |steps|
  {
    if |steps| == 0 then s else Run(Apply(s, steps[0]), steps[1..])
  }

  /** The write updates a sequence of operations hands to the client, in call order. */
  function Issued(pid: int, steps: seq<Step>): seq<IndexWriteUpdate>
  {
    if |steps| == 0 then []
    else
      (match steps[0]
       case WriteUpdateStep(header, record) => [IndexWriteUpdate(pid, header, record)]
       case _ => [])
      + Issued(pid, steps[1..])
  }

  /** The state right after either constructor's handshake. */
  function Opened(pid: int, handshake: Request): ClientState
  {
    ClientState(pid, [], [handshake])
  }

  // ---------------------------------------------------------------------
  // Lemmas

  lemma {:induction false} BatchedConcat(a: seq<Request>, b: seq<Request>)
    ensures Batched(a + b) == Batched(a) + Batched(b)
  {
    if |a| > 0 {
      assert (a + b)[0] == a[0];
      assert (a + b)[1..] == a[1..] + b;
      BatchedConcat(a[1..], b);
    } else {
      assert a + b == b;
    }
  }

  lemma BatchedOne(req: Request)
    ensures Batched([req]) == if req.MultiWriteUpdate? then req.updates else []
  {
  }

  /** Sending one request adds its batch, if it is one, to what the log has carried. */
  lemma BatchedSnoc(log: seq<Request>, req: Request)
    ensures Batched(log + [req]) == Batched(log) + (if req.MultiWriteUpdate? then req.updates else [])
  {
    BatchedConcat(log, [req]);
    BatchedOne(req);
  }

  /**
    A flush moves the queue, unchanged and in order, to the end of what
    the log has carried: nothing is dropped, reordered or duplicated.
   */
  lemma FlushConserves(s: ClientState)
    ensures Flush(s).queue == []
    ensures Batched(Flush(s).log) == Batched(s.log) + s.queue
  {
    BatchedSnoc(s.log, MultiWriteUpdate(s.queue));
  }

  /**
    Flush before request: a flushing operation whose flush succeeded sends
    its request last, after a log that has carried every write that was
    pending; the queue is left empty.
   */
  lemma FlushBeforeRequest(s: ClientState, req: Request)
    requires FlushesFirst(req)
    ensures var t := Call(s, req, true);
            && |t.log| == |s.log| + 2
            && t.log[..|s.log|] == s.log
            && t.log[|s.log|] == MultiWriteUpdate(s.queue)
            && t.log[|t.log| - 1] == req
            && Batched(t.log[..|t.log| - 1]) == Batched(s.log) + s.queue
            && t.queue == []
  {
    var t := Call(s, req, true);
    assert t.log[..|t.log| - 1] == Flush(s).log;
    FlushConserves(s);
  }

  /**
    write_request, transaction_request and transaction_cursor do not flush:
    the queue is untouched and only their own request is sent.
   */
  lemma NoFlushBeforeRequest(s: ClientState, req: Request, flushSucceeded: bool)
    requires !FlushesFirst(req) && !req.MultiWriteUpdate?
    ensures Call(s, req, flushSucceeded).queue == s.queue
    ensures Batched(Call(s, req, flushSucceeded).log) == Batched(s.log)
  {
    BatchedSnoc(s.log, req);
  }

  /** One operation: the carried writes plus the queue grow by exactly the update it issues. */
  lemma ApplyConserves(s: ClientState, step: Step)
    requires CallerStep(step, s.platefileId)
    ensures var t := Apply(s, step);
            && t.platefileId == s.platefileId
            && Batched(t.log) + t.queue == Batched(s.log) + s.queue + Issued(s.platefileId, [step])
  {
    assert [step][1..] == [];
    match step
    case WriteUpdateStep(header, record) =>
      var u := IndexWriteUpdate(s.platefileId, header, record);
      FlushConserves(s.(queue := s.queue + [u]));
    case FlushStep =>
      FlushConserves(s);
    case CallStep(req, ok) =>
      FlushConserves(s);
      BatchedSnoc(s.log, req);
      BatchedSnoc(Flush(s).log, req);
  }

  /** A flush leaves a stamped state satisfying the invariant, whatever the size of the queue. */
  lemma FlushKeepsStamps(s: ClientState)
    requires StampedUpdates(s.queue, s.platefileId) && StampedLog(s.log, s.platefileId)
    ensures Inv(Flush(s))
  {
  }

  /** Every operation keeps the invariant: in particular the queue stays below ten. */
  lemma ApplyKeepsInv(s: ClientState, step: Step)
    requires Inv(s) && CallerStep(step, s.platefileId)
    ensures Inv(Apply(s, step)) && Apply(s, step).platefileId == s.platefileId
  {
  }

  /** Over any run: every write handed to the client is either carried by the log or still queued. */
  lemma {:induction false} RunConserves(s: ClientState, steps: seq<Step>)
    requires CallerSteps(steps, s.platefileId)
    ensures Run(s, steps).platefileId == s.platefileId
    ensures Batched(Run(s, steps).log) + Run(s, steps).queue
         == Batched(s.log) + s.queue + Issued(s.platefileId, steps)
    decreases |steps|
  {
    if |steps| > 0 {
      var pid := s.platefileId;
      var t := Apply(s, steps[0]);
      assert CallerStep(steps[0], pid);
      ApplyConserves(s, steps[0]);
      assert CallerSteps(steps[1..], pid) by {
        forall i | 0 <= i < |steps[1..]| ensures CallerStep(steps[1..][i], pid) {
          assert steps[1..][i] == steps[i + 1];
        }
      }
      RunConserves(t, steps[1..]);
      assert Issued(pid, steps) == Issued(pid, [steps[0]]) + Issued(pid, steps[1..]) by {
        assert [steps[0]][1..] == [];
      }
    }
  }

  /** Over any run the invariant holds after every operation, so the queue never reaches ten. */
  lemma {:induction false} RunKeepsInv(s: ClientState, steps: seq<Step>)
    requires Inv(s) && CallerSteps(steps, s.platefileId)
    ensures Inv(Run(s, steps)) && Run(s, steps).platefileId == s.platefileId
    decreases |steps|
  {
    if |steps| > 0 {
      var pid := s.platefileId;
      assert CallerStep(steps[0], pid);
      ApplyKeepsInv(s, steps[0]);
      assert CallerSteps(steps[1..], pid) by {
        forall i | 0 <= i < |steps[1..]| ensures CallerStep(steps[1..][i], pid) {
          assert steps[1..][i] == steps[i + 1];
        }
      }
      RunKeepsInv(Apply(s, steps[0]), steps[1..]);
    }
  }

  /**
    Read-your-writes: after the open or create handshake and any sequence of
    operations, a flushing operation whose flush succeeds is sent only after
    the log has carried every write update handed to the client, in call order.
   */
  lemma ReadYourWrites(pid: int, handshake: Request, steps: seq<Step>, req: Request)
    requires handshake.OpenRequest? || handshake.CreateRequest?
    requires CallerSteps(steps, pid) && FlushesFirst(req)
    ensures var t := Call(Run(Opened(pid, handshake), steps), req, true);
            && t.log[|t.log| - 1] == req
            && Batched(t.log[..|t.log| - 1]) == Issued(pid, steps)
            && t.queue == []
  {
    var s0 := Opened(pid, handshake);
    BatchedOne(handshake);
    RunConserves(s0, steps);
    FlushBeforeRequest(Run(s0, steps), req);
  }

  /** Below the threshold write_update only queues: nothing is sent and the entries wait in call order. */
  lemma {:induction false} QueuedBelowThreshold(s: ClientState, steps: seq<Step>)
    requires forall i :: 0 <= i < |steps| ==> steps[i].WriteUpdateStep?
    requires |s.queue| + |steps| < MaxPendingWriteUpdates
    ensures Run(s, steps).log == s.log
    ensures Run(s, steps).queue == s.queue + Issued(s.platefileId, steps)
    ensures Run(s, steps).platefileId == s.platefileId
    decreases |steps|
  {
    if |steps| > 0 {
      var t := Apply(s, steps[0]);
      assert forall i :: 0 <= i < |steps[1..]| ==> steps[1..][i] == steps[i + 1];
      QueuedBelowThreshold(t, steps[1..]);
      assert [steps[0]][1..] == [];
    }
  }
}
