/**
 * Concrete runs of the queue server that show its behaviour at the limits,
 * and the two places where simplequeue.c does not do what it evidently
 * means to: `get` leaves the size of the payload it returns in `n_bytes`,
 * and the shutdown drain closes the log after the first queue. For each,
 * the behaviour as written is exhibited and the corrected operation is
 * proved to keep the property the code relies on.
 */
module QueueFindings {
  import opened Wrappers
  import opened QueueModel
  import opened QueueProperties

  lemma BytesLast(s: seq<string>)
    requires s != []
    ensures Bytes(s) >= |s[|s| - 1]|
  {
    assert s == s[..|s| - 1] + [s[|s| - 1]];
    BytesAppend(s[..|s| - 1], s[|s| - 1]);
  }

  /**
   * As written: once the bytes `get` leaves behind reach `max_bytes`, every
   * later put of a non-empty payload empties its queue to the log, the new
   * payload included, so the queue can never hold anything again.
   */
  lemma PhantomBytesStarve(e: EngineState, queueName: Option<string>, payload: string)
    requires Valid(e) && e.maxBytes > 0 && PhantomBytes(e) >= e.maxBytes && payload != ""
    ensures var r := Put(e, queueName, Some(payload)).0;
      r.queues[QueueName(queueName)].entries == [] && PhantomBytes(r) == PhantomBytes(e)
  {
    var name := QueueName(queueName);
    var r := Put(e, queueName, Some(payload)).0;
    PutEffect(e, queueName, payload);
    PutKeepsOthers(e, queueName, Some(payload));
    var s := EntriesOf(e, name) + [payload];
    var k :| 0 <= k <= |s| && r.queues[name].entries == s[k..];
    assert r.queues[name].entries != [] ==> r.queues[name].entries[|r.queues[name].entries| - 1] == payload;
    NonEmptyExceeds(r, name, payload);
    PutEndsWithinLimitsOrEmpty(e, queueName, payload);
  }

  /**
   * With the unaccounted bytes at `max_bytes`, a queue whose last payload is
   * not empty exceeds the byte limit.
   */
  lemma NonEmptyExceeds(r: EngineState, name: string, payload: string)
    requires Valid(r) && name in r.queues && r.maxBytes > 0 && PhantomBytes(r) >= r.maxBytes && payload != ""
    requires r.queues[name].entries != [] ==> r.queues[name].entries[|r.queues[name].entries| - 1] == payload
    ensures r.queues[name].entries == [] || OverLimits(r)
  {
    var q := r.queues[name];
    if q.entries != [] {
      BytesLast(q.entries);
      TotalMember(r.queues, r.order, name);
    }
  }

  /** A registered queue's payload bytes are part of the sum over the registry. */
  lemma {:induction false} TotalMember(qs: map<string, NamedQueue>, names: seq<string>, n: string)
    requires n in names && n in qs
    ensures Total(qs, names, Size) >= Bytes(qs[n].entries)
  {
    if names[0] != n {
      TotalMember(qs, names[1..], n);
    }
  }

  /**
   * The first half of `PhantomBytesExample`: a put of a one-byte payload to
   * the empty default queue and a get that returns it leave one byte counted
   * that no payload accounts for.
   */
  lemma PutThenGet(e0: EngineState, a: string)
    requires Valid(e0) && e0.maxDepth == 0 && e0.maxBytes == 1 && e0.nBytes == 0
    requires EntriesOf(e0, DefaultQueueName) == [] && |a| == 1
    ensures var (e2, p) := Get(Put(e0, None, Some(a)).0, None);
      && p == Some(a) && e2.queues[DefaultQueueName].entries == [] && e2.nBytes == 1
      && PhantomBytes(e2) == 1 && e2.log == e0.log && e2.logOpen == e0.logOpen
      && e2.maxDepth == 0 && e2.maxBytes == 1
  {
    var name := DefaultQueueName;
    AppendedQueue(e0, name, a);
    AppendedCounters(e0, name, a);
    PutNoEviction(e0, None, a);
    var e1 := Appended(e0, name, a);
    assert e1.queues[name].entries == [a];
  }

  /**
   * As written: with `max_bytes` 1, from a state with no bytes counted, a put
   * of a one-byte payload a, a get that returns it, and a put of a one-byte
   * payload b send b straight to the overflow log, though its queue is empty
   * and b is within the limit; one byte stays counted for good.
   */
  lemma PhantomBytesExample(e0: EngineState, a: string, b: string)
    requires Valid(e0) && e0.maxDepth == 0 && e0.maxBytes == 1 && e0.nBytes == 0
    requires EntriesOf(e0, DefaultQueueName) == [] && |a| == 1 && |b| == 1
    ensures var e1 := Put(e0, None, Some(a)).0;
      var (e2, p) := Get(e1, None);
      var e3 := Put(e2, None, Some(b)).0;
      && p == Some(a)
      && e3.queues[DefaultQueueName].entries == []
      && e3.log == e0.log + (if e0.logOpen then b + "\n" else "")
      && PhantomBytes(e3) == 1
  {
    PutThenGet(e0, a);
    PutOntoPhantomByte(Get(Put(e0, None, Some(a)).0, None).0, b);
  }

  /**
   * The second half of `PhantomBytesExample`: with `max_bytes` 1 and one
   * byte counted that no payload accounts for, a put of a one-byte payload
   * to the empty default queue evicts it at once.
   */
  lemma PutOntoPhantomByte(e2: EngineState, b: string)
    requires Valid(e2) && e2.maxDepth == 0 && e2.maxBytes == 1 && e2.nBytes == 1 && PhantomBytes(e2) == 1
    requires DefaultQueueName in e2.queues && e2.queues[DefaultQueueName].entries == [] && |b| == 1
    ensures var e3 := Put(e2, None, Some(b)).0;
      && e3.queues[DefaultQueueName].entries == []
      && e3.log == e2.log + (if e2.logOpen then b + "\n" else "")
      && PhantomBytes(e3) == 1
  {
    var name := DefaultQueueName;
    var a3 := Appended(e2, name, b);
    AppendedQueue(e2, name, b);
    AppendedCounters(e2, name, b);
    assert a3.queues[name].entries == [b];
    assert [b][..1] == [b];
    Single(b);
    assert OverLimitsAfter(a3, name, 0);
    assert EvictionCount(a3, name, 0) == 1;
    var e3 := EvictPrefix(a3, name, 1);
    assert Put(e2, None, Some(b)).0 == e3;
  }

  /** Serving one request with `get` as intended. */
  function StepCorrected(e: EngineState, req: Request): (r: EngineState)
    requires Valid(e)
    ensures Valid(r)
    ensures !req.GetRequest? ==> r == Step(e, req)
  {
    match req
    case GetRequest(q) => GetCorrected(e, q).0
    case _ => Step(e, req)
  }

  function RunCorrected(e: EngineState, reqs: seq<Request>): (r: EngineState)
    requires Valid(e)
    ensures Valid(r)
    decreases |reqs|
  {
    if reqs == [] then e else RunCorrected(StepCorrected(e, reqs[0]), reqs[1..])
  }

  /**
   * With `get` as intended, `n_bytes` is exactly the size of the resident
   * payloads in every state a server reaches from start-up.
   */
  lemma {:induction false} RunCorrectedExact(e: EngineState, reqs: seq<Request>)
    requires Valid(e) && PhantomBytes(e) == 0
    ensures PhantomBytes(RunCorrected(e, reqs)) == 0
    ensures RunCorrected(e, reqs).nBytes == Total(RunCorrected(e, reqs).queues, RunCorrected(e, reqs).order, Size)
    decreases |reqs|
  {
    if reqs != [] {
      if reqs[0].PutRequest? {
        PutKeepsOthers(e, reqs[0].queue, reqs[0].data);
      }
      RunCorrectedExact(StepCorrected(e, reqs[0]), reqs[1..]);
    }
  }

  /** With `get` as intended, the run of `PhantomBytesExample` keeps b queued and logs nothing. */
  lemma PhantomBytesExampleCorrected(e0: EngineState, a: string, b: string)
    requires Valid(e0) && e0.maxDepth == 0 && e0.maxBytes == 1 && e0.nBytes == 0
    requires EntriesOf(e0, DefaultQueueName) == [] && |a| == 1 && |b| == 1
    ensures var e1 := Put(e0, None, Some(a)).0;
      var (e2, p) := GetCorrected(e1, None);
      var e3 := Put(e2, None, Some(b)).0;
      && p == Some(a)
      && e3.queues[DefaultQueueName].entries == [b] && e3.log == e0.log && PhantomBytes(e3) == 0
  {
    var name := DefaultQueueName;
    PutThenGet(e0, a);
    var e1 := Put(e0, None, Some(a)).0;
    var e2 := GetCorrected(e1, None).0;
    assert e2.queues[name].entries == [] && e2.nBytes == 0;
    AppendedQueue(e2, name, b);
    AppendedCounters(e2, name, b);
    PutNoEviction(e2, None, b);
  }

  /**
   * As written, the shutdown drain logs only the payloads of the first queue
   * in registry order: when a later queue holds payloads, they are counted
   * as overflow but never reach the log, where the intended drain writes
   * them after the first queue's.
   */
  lemma ShutdownLosesLaterQueues(e: EngineState)
    requires Valid(e) && e.logOpen && |e.order| >= 2 && e.queues[e.order[1]].entries != []
    ensures var first := Lines(e.queues[e.order[0]].entries);
      && Shutdown(e).log == e.log + first
      && ShutdownCorrected(e).log == e.log + first + AllLines(e.queues, e.order[1..])
      && |AllLines(e.queues, e.order[1..])| > 0
  {
    ShutdownAsWritten(e);
    ShutdownCorrectedLogsAll(e);
    var rest := e.order[1..];
    assert rest[0] == e.order[1];
    LinesLength(e.queues[rest[0]].entries);
    ConcatAssoc(e.log, Lines(e.queues[e.order[0]].entries), AllLines(e.queues, rest));
  }
}
