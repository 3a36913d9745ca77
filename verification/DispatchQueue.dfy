/**
 * The in-memory dispatch queue (src/internal/dispatch/queue.go).
 *
 * `Queue` is the shared state as a value. Each function below it is one atomic section of the
 * source: a channel operation, or the code between one Lock and its Unlock. The class runs those
 * sections in the source's order; module Dispatcher interleaves them.
 */
module DispatchQueue {
  import opened Specs

  datatype Queue = Queue(
    pending: seq<WorkerSpec>,
    inFlight: map<Uuid, WorkerSpec>,
    dlq: seq<WorkerSpec>,
    dropped: nat,
    closed: bool,
    closeSignalled: bool)

  const EMPTY := Queue([], map[], [], 0, false, false)

  function Send(q: Queue, spec: WorkerSpec): Queue {
    q.(pending := q.pending + [spec])
  }

  function Receive(q: Queue): Queue
    requires q.pending != []
  {
    q.(pending := q.pending[1..])
  }

  function Record(q: Queue, spec: WorkerSpec): Queue {
    q.(inFlight := q.inFlight[spec.executionId := spec])
  }

  function Forget(q: Queue, spec: WorkerSpec): Queue {
    q.(inFlight := q.inFlight - {spec.executionId})
  }

  function DeadLetter(q: Queue, spec: WorkerSpec): Queue {
    Forget(q, spec).(dropped := q.dropped + 1, dlq := q.dlq + [spec])
  }

  function NextAttempt(spec: WorkerSpec): WorkerSpec {
    spec.(attempt := spec.attempt + 1)
  }

  datatype NackPlan = Unknown | Drop | Requeue

  /** What Nack resolves to do from the one snapshot it takes of the in-flight set and the closed flag. */
  function Plan(q: Queue, maxAttempts: int, spec: WorkerSpec): NackPlan {
    if spec.executionId !in q.inFlight then Unknown
    else if q.closed then Drop
    else if spec.attempt < maxAttempts then Requeue
    else Drop
  }

  datatype EnqueueReturn = Sent | SpecInvalid | EnqueueClosed | QueueFull | EnqueueCtxErr | EnqueueBlocks
  datatype DequeueReturn = Got(spec: WorkerSpec) | DequeueClosed | DequeueCtxErr | DequeueBlocks
  datatype NackReturn = Dropped | Retried | UnknownSpec | NackCtxErr | NackBlocks

  /**
   * The queue object. `preferCtx` stands for Go's free choice when a select has several ready
   * cases: it takes the context's case when true. The `Blocks` returns are the calls that would
   * wait for another goroutine.
   */
  class InMemoryQueue {
    const bufferSize: nat
    const maxAttempts: int
    const nonBlocking: bool
    var pending: seq<WorkerSpec>
    var inFlight: map<Uuid, WorkerSpec>
    var dlq: seq<WorkerSpec>
    var dropped: nat
    var closed: bool
    var closeSignalled: bool

    ghost function Model(): Queue
      reads this
    {
      Queue(pending, inFlight, dlq, dropped, closed, closeSignalled)
    }

    ghost predicate Valid()
      reads this
    {
      |pending| <= bufferSize && dropped == |dlq| && (closeSignalled ==> closed)
    }

    constructor (bufferSize: nat, maxAttempts: int, nonBlocking: bool)
      ensures Valid() && Model() == EMPTY
      ensures this.bufferSize == bufferSize && this.maxAttempts == maxAttempts && this.nonBlocking == nonBlocking
    {
      this.bufferSize, this.maxAttempts, this.nonBlocking := bufferSize, maxAttempts, nonBlocking;
      pending, inFlight, dlq, dropped, closed, closeSignalled := [], map[], [], 0, false, false;
    }

    method Enqueue(spec: WorkerSpec, ctxDone: bool, preferCtx: bool) returns (r: EnqueueReturn)
      requires Valid()
      modifies this
      ensures Valid()
      ensures Model() == if r.Sent? then old(Model()).(pending := old(pending) + [spec]) else old(Model())
      ensures r.Sent? ==> spec.Valid() && !closed
      ensures r.SpecInvalid? <==>
        || spec.executionId == NIL || spec.taskId == NIL || spec.agentId == NIL || spec.projectId == NIL
        || spec.model == "" || spec.provider == "" || spec.permissionMode == "" || spec.attempt < 1
      ensures r.EnqueueClosed? <==> spec.Valid() && closed
      ensures r.QueueFull? ==> nonBlocking && |pending| == bufferSize
      ensures r.EnqueueCtxErr? ==> ctxDone
      ensures r.EnqueueBlocks? ==> !nonBlocking && |pending| == bufferSize && !ctxDone
    {
      if !spec.Valid() {
        return SpecInvalid;
      }
      if closed {
        return EnqueueClosed;
      }
      if ctxDone && (preferCtx || |pending| == bufferSize) {
        return EnqueueCtxErr;
      }
      if |pending| == bufferSize {
        return if nonBlocking then QueueFull else EnqueueBlocks;
      }
      pending := pending + [spec];
      return Sent;
    }

    method Dequeue(ctxDone: bool, preferCtx: bool) returns (r: DequeueReturn)
      requires Valid()
      modifies this
      ensures Valid()
      ensures r.Got? ==> old(pending) != [] && r.spec == old(pending)[0]
                         && Model() == old(Model()).(pending := old(pending)[1..],
                                                     inFlight := old(inFlight)[r.spec.executionId := r.spec])
      ensures !r.Got? ==> Model() == old(Model())
      ensures r.DequeueClosed? ==> closeSignalled && pending == []
      ensures r.DequeueCtxErr? ==> ctxDone
      ensures r.DequeueBlocks? <==> old(pending) == [] && !ctxDone && !closeSignalled
    {
      if ctxDone && (preferCtx || (pending == [] && !closeSignalled)) {
        return DequeueCtxErr;
      }
      if pending == [] {
        return if closeSignalled then DequeueClosed else DequeueBlocks;
      }
      var spec := pending[0];
      pending := pending[1..];
      inFlight := inFlight[spec.executionId := spec];
      return Got(spec);
    }

    method Ack(spec: WorkerSpec) returns (known: bool)
      requires Valid()
      modifies this
      ensures Valid()
      ensures known <==> spec.executionId in old(inFlight)
      ensures Model() == if known then old(Model()).(inFlight := old(inFlight) - {spec.executionId}) else old(Model())
    {
      if spec.executionId !in inFlight {
        return false;
      }
      inFlight := inFlight - {spec.executionId};
      return true;
    }

    method Nack(spec: WorkerSpec, ctxDone: bool, preferCtx: bool) returns (r: NackReturn)
      requires Valid()
      modifies this
      ensures Valid()
      ensures r.UnknownSpec? <==> spec.executionId !in old(inFlight)
      ensures r.Dropped? <==> spec.executionId in old(inFlight) && (closed || spec.attempt >= maxAttempts)
      ensures r.Retried? ==> |old(pending)| < bufferSize
      ensures r.NackBlocks? ==> |pending| == bufferSize && !ctxDone
      ensures r.NackCtxErr? ==> ctxDone
      ensures
        var q, id, retry := old(Model()), spec.executionId, spec.(attempt := spec.attempt + 1);
        Model() ==
        match r
        case UnknownSpec => q
        case Dropped => q.(inFlight := q.inFlight - {id}, dlq := q.dlq + [spec], dropped := q.dropped + 1)
        case Retried => q.(inFlight := q.inFlight - {id}, pending := q.pending + [retry])
        case NackCtxErr => q.(inFlight := q.inFlight[id := retry])
        case NackBlocks => q.(inFlight := q.inFlight - {id})
    {
      var known, wasClosed := spec.executionId in inFlight, closed;
      if !known {
        return UnknownSpec;
      }
      if wasClosed || spec.attempt >= maxAttempts {
        inFlight := inFlight - {spec.executionId};
        dropped := dropped + 1;
        dlq := dlq + [spec];
        return Dropped;
      }
      var retry := spec.(attempt := spec.attempt + 1);
      inFlight := inFlight - {spec.executionId};
      if |pending| < bufferSize && !(ctxDone && preferCtx) {
        pending := pending + [retry];
        return Retried;
      }
      if ctxDone {
        inFlight := inFlight[retry.executionId := retry];
        return NackCtxErr;
      }
      return NackBlocks;
    }

    method Close()
      requires Valid()
      modifies this
      ensures Valid()
      ensures Model() == if old(closed) then old(Model())
                         else old(Model()).(closed := true, closeSignalled := true)
    {
      if closed {
        return;
      }
      closed := true;
      closeSignalled := true;
    }
  }
}
