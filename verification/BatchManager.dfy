// The mutable batch manager of internal/batch/manager.go: its critical sections are the atomic
// steps of BatchModel, and a Flush that nothing interrupts is their composition.
module BatchManagement {
  import opened Common
  import opened M = BatchModel

  class BatchManager {
    const maxBatchSize: nat
    var queue: seq<Pending>

    constructor (configured: int)
      ensures maxBatchSize == MaxBatch(configured) && queue == []
    {
      maxBatchSize := MaxBatch(configured);
      queue := [];
    }

    /** `id` is the next tracking ID. An urgent request goes to the client at once, in a batch of its own, and
        yields no ID when the client refuses it; any other request only joins the queue. */
    method Submit(request: Request, urgent: bool, id: nat, accepts: bool)
      returns (tracking: Option<nat>, sent: seq<seq<Request>>)
      modifies this
      ensures urgent ==> queue == old(queue) && sent == [[Tagged(request, id)]]
      ensures !urgent ==> queue == old(queue) + [Pending(id, Tagged(request, id))] && sent == []
      ensures tracking == if urgent && !accepts then None else Some(id)
    {
      var req := request;
      if req.id == 0 {
        req := req.(id := id);
      }
      if urgent {
        return if accepts then Some(id) else None, [[req]];
      }
      queue := queue + [Pending(id, req)];
      return Some(id), [];
    }

    /** The first critical section of Flush: takes everything. */
    method Drain() returns (pending: seq<Pending>)
      modifies this
      ensures pending == old(queue) && queue == []
    {
      pending := queue;
      queue := [];
    }

    /** The loop that strips the tracking wrapper. */
    method Unwrap(pending: seq<Pending>) returns (requests: seq<Request>)
      ensures requests == Requests(pending)
    {
      requests := [];
      for i := 0 to |pending|
        invariant requests == Requests(pending[..i])
      {
        assert pending[..i + 1] == pending[..i] + [pending[i]];
        RequestsConcat(pending[..i], [pending[i]]);
        requests := requests + [pending[i].req];
      }
      assert pending[..|pending|] == pending;
    }

    /** The second critical section: the overflow goes to the back, one request at a time. */
    method PutBack(overflow: seq<Request>)
      modifies this
      ensures queue == old(queue) + Wrap(overflow)
    {
      for i := 0 to |overflow|
        invariant queue == old(queue) + Wrap(overflow)[..i]
      {
        queue := queue + [Pending(0, overflow[i])];
      }
    }

    /** The third critical section, after a client error: the batch returns to the front. */
    method RequeueFailed(requests: seq<Request>)
      modifies this
      ensures queue == Wrap(requests) + old(queue)
    {
      var requeue: seq<Pending> := [];
      for i := 0 to |requests|
        invariant queue == old(queue) && requeue == Wrap(requests)[..i]
      {
        requeue := requeue + [Pending(0, requests[i])];
      }
      queue := requeue + queue;
    }

    /** A whole Flush that runs without interleaving; `accepts` is the client's answer. */
    method Flush(accepts: bool) returns (called: bool, batch: seq<Request>)
      requires maxBatchSize > 0
      modifies this
      ensures called == (old(queue) != [])
      ensures batch == First(Requests(old(queue)), maxBatchSize)
      ensures queue == QueueAfter(old(queue), maxBatchSize, accepts)
      ensures Requests(queue) ==
              if accepts then Overflow(Requests(old(queue)), maxBatchSize) else Requests(old(queue))
    {
      hide Requests, Wrap;
      if |queue| == 0 {
        QueueAfterEffect(queue, maxBatchSize, accepts);
        return false, [];
      }
      var pending := Drain();
      var requests := Unwrap(pending);
      if |requests| > maxBatchSize {
        var overflow := requests[maxBatchSize..];
        requests := requests[..maxBatchSize];
        PutBack(overflow);
      }
      if !accepts {
        RequeueFailed(requests);
      }
      QueueAfterEffect(old(queue), maxBatchSize, accepts);
      return true, requests;
    }
  }
}
