/**
 * Properties of the queue server that relate several operations or follow
 * one operation through to what a client can observe: what a put does to
 * its queue, the capacity limits every request keeps, FIFO order, the stats
 * renderings, and the shutdown drain.
 */
module QueueProperties {
  import opened Wrappers
  import opened QueueModel

  /** The payloads queue `name` holds: its list, or none when it is not registered. */
  function EntriesOf(e: EngineState, name: string): seq<string>
  {
    if name in e.queues then e.queues[name].entries else []
  }

  /**
   * A put with a payload appends it at the tail of the named queue and then
   * evicts some k payloads from the head, each one only while a limit is
   * exceeded: they are logged in order, each followed by a newline, when the
   * handle is open, and counted in `n_overflow`. The loop ends with no limit
   * exceeded or with the queue empty.
   */
  lemma PutEffect(e: EngineState, queueName: Option<string>, payload: string)
    requires Valid(e)
    ensures var name, r := QueueName(queueName), Put(e, queueName, Some(payload)).0;
      var s := EntriesOf(e, name) + [payload];
      exists k :: 0 <= k <= |s|
        && r.queues[name].entries == s[k..]
        && r.nOverflow == e.nOverflow + k
        && r.totalDepth + k == e.totalDepth + 1
        && r.log == e.log + (if e.logOpen then Lines(s[..k]) else "")
        && (forall i :: 0 <= i < k ==> OverLimits(EvictPrefix(Appended(e, name, payload), name, i)))
  {
    var name := QueueName(queueName);
    var a := Appended(e, name, payload);
    var k := EvictionCount(a, name, 0);
    EvictionCountMinimal(a, name, 0);
    forall i | 0 <= i < k ensures OverLimits(EvictPrefix(a, name, i)) {
      OverLimitsAfterEvicting(a, name, i);
    }
    var s := EntriesOf(e, name) + [payload];
    assert a.queues[name].entries == s;
    var r := EvictPrefix(a, name, k);
    assert r == Put(e, queueName, Some(payload)).0;
    assert r.queues[name].entries == s[k..];
  }

  /** The queue a put appends to, before the append: the registered one or a new empty one. */
  function QueueBefore(e: EngineState, name: string): NamedQueue
  {
    if name in e.queues then e.queues[name] else EmptyQueue
  }

  /**
   * The first part of a put with a payload, before the capacity loop,
   * registers the queue (last, when it is new) and leaves every other queue
   * as it was.
   */
  lemma AppendedRegisters(e: EngineState, name: string, payload: string)
    requires Valid(e)
    ensures var a := Appended(e, name, payload);
      && a.order == (if name in e.queues then e.order else e.order + [name])
      && a.queues.Keys == e.queues.Keys + {name}
      && (forall n :: n in e.queues && n != name ==> a.queues[n] == e.queues[n])
  {
    var e2 := GetOrCreateQueue(e.(nPuts := e.nPuts + 1), name);
    assert Appended(e, name, payload) == Enqueue(e2, name, payload);
  }

  /**
   * The first part of a put with a payload appends the payload at the tail
   * of its queue and raises the queue's depth and high-water mark.
   */
  lemma AppendedQueue(e: EngineState, name: string, payload: string)
    requires Valid(e)
    ensures var a, q := Appended(e, name, payload), QueueBefore(e, name);
      a.queues[name] == q.(entries := q.entries + [payload], depth := |q.entries| + 1,
                           depthHighWater := Max(q.depthHighWater, |q.entries| + 1))
  {
    var e2 := GetOrCreateQueue(e.(nPuts := e.nPuts + 1), name);
    assert e2.queues[name] == QueueBefore(e, name);
    assert Appended(e, name, payload) == Enqueue(e2, name, payload);
  }

  /**
   * Of the globals, the first part of a put with a payload raises `n_puts`,
   * `n_bytes` and `total_depth` and the high-water mark of the total depth,
   * and changes nothing else but the registry.
   */
  lemma AppendedCounters(e: EngineState, name: string, payload: string)
    requires Valid(e)
    ensures var a := Appended(e, name, payload);
      a == e.(queues := a.queues, order := a.order, nPuts := e.nPuts + 1,
              totalDepth := e.totalDepth + 1, nBytes := e.nBytes + |payload|,
              totalDepthHighWater := Max(e.totalDepthHighWater, e.totalDepth + 1))
  {
    var e2 := GetOrCreateQueue(e.(nPuts := e.nPuts + 1), name);
    assert Appended(e, name, payload) == Enqueue(e2, name, payload);
  }

  /**
   * The capacity loop of a put ends with no limit exceeded or with its queue
   * empty.
   */
  lemma PutEndsWithinLimitsOrEmpty(e: EngineState, queueName: Option<string>, payload: string)
    requires Valid(e)
    ensures var name, r := QueueName(queueName), Put(e, queueName, Some(payload)).0;
      !OverLimits(r) || r.queues[name].entries == []
  {
    var name := QueueName(queueName);
    var a := Appended(e, name, payload);
    OverLimitsAfterEvicting(a, name, EvictionCount(a, name, 0));
  }

  /** A put with a payload registers its queue, last when it is new. */
  lemma PutRegisters(e: EngineState, queueName: Option<string>, payload: string)
    requires Valid(e)
    ensures var name, r := QueueName(queueName), Put(e, queueName, Some(payload)).0;
      && r.order == (if name in e.queues then e.order else e.order + [name])
      && r.queues.Keys == e.queues.Keys + {name}
  {
    AppendedRegisters(e, QueueName(queueName), payload);
  }

  /**
   * A put changes no queue but its own, and of the globals only `n_puts`
   * (by one), the depth, byte, overflow and high-water counts and the log;
   * the bytes counted beyond the resident payloads stay as they were.
   */
  lemma PutKeepsOthers(e: EngineState, queueName: Option<string>, data: Option<string>)
    requires Valid(e)
    ensures var name, r := QueueName(queueName), Put(e, queueName, data).0;
      && (forall n :: n in e.queues && n != name ==> r.queues[n] == e.queues[n])
      && r.nPuts == e.nPuts + 1 && r.nGets == e.nGets
      && r.maxDepth == e.maxDepth && r.maxBytes == e.maxBytes && r.logOpen == e.logOpen
      && PhantomBytes(r) == PhantomBytes(e)
  {
    if data.Some? {
      AppendedRegisters(e, QueueName(queueName), data.value);
      AppendedCounters(e, QueueName(queueName), data.value);
    }
  }

  /**
   * Both high-water marks are raised to the depths reached by the append,
   * before the capacity loop runs, and the queue's request counters are kept.
   */
  lemma PutHighWater(e: EngineState, queueName: Option<string>, payload: string)
    requires Valid(e)
    ensures var name, r := QueueName(queueName), Put(e, queueName, Some(payload)).0;
      var q := QueueBefore(e, name);
      && r.totalDepthHighWater == Max(e.totalDepthHighWater, e.totalDepth + 1)
      && r.queues[name].depthHighWater == Max(q.depthHighWater, |q.entries| + 1)
      && r.queues[name].nPuts == q.nPuts && r.queues[name].nGets == q.nGets
  {
    AppendedQueue(e, QueueName(queueName), payload);
    AppendedCounters(e, QueueName(queueName), payload);
  }

  /** Neither limit is exceeded. */
  ghost predicate WithinLimits(e: EngineState)
  {
    Valid(e) && !OverLimits(e)
  }

  /**
   * A put from a state within the limits ends within the limits, even when
   * its loop stops because the queue ran empty. So from such a state the
   * capacity loop of the source, which has no empty-queue exit, always ends.
   * This holds although `get` lets `n_bytes` exceed the resident payloads.
   */
  lemma PutKeepsLimits(e: EngineState, queueName: Option<string>, data: Option<string>)
    requires WithinLimits(e)
    ensures WithinLimits(Put(e, queueName, data).0)
  {
    if data.Some? {
      var name, payload := QueueName(queueName), data.value;
      var a := Appended(e, name, payload);
      var s := a.queues[name].entries;
      var k := EvictionCount(a, name, 0);
      if k == |s| {
        var held := EntriesOf(e, name);
        assert s == held + [payload];
        BytesAppend(held, payload);
        assert s[..k] == s;
        var r := EvictPrefix(a, name, k);
        assert r.totalDepth + |held| == e.totalDepth;
        assert r.nBytes + Bytes(held) == e.nBytes;
      }
    }
  }

  /** A get leaves `n_bytes` as it is and never raises `total_depth`, so it keeps the limits. */
  lemma GetKeepsLimits(e: EngineState, queueName: Option<string>)
    requires WithinLimits(e)
    ensures WithinLimits(Get(e, queueName).0)
  {
  }

  /** The requests a client can send, with their query arguments as found. */
  datatype Request =
    | PutRequest(queue: Option<string>, data: Option<string>)
    | GetRequest(queue: Option<string>)
    | DumpRequest(queue: Option<string>)
    | StatsRequest(reset: Option<string>, format: Option<string>)

  /** The state after serving one request. */
  function Step(e: EngineState, req: Request): (r: EngineState)
    requires Valid(e)
    ensures Valid(r)
  {
    match req
    case PutRequest(q, d) => Put(e, q, d).0
    case GetRequest(q) => Get(e, q).0
    case DumpRequest(_) => e
    case StatsRequest(reset, format) => Stats(e, reset, format).0
  }

  /** The state after serving the requests in order. */
  function Run(e: EngineState, reqs: seq<Request>): (r: EngineState)
    requires Valid(e)
    ensures Valid(r)
    decreases |reqs|
  {
    if reqs == [] then e else Run(Step(e, reqs[0]), reqs[1..])
  }

  lemma StepKeepsLimits(e: EngineState, req: Request)
    requires WithinLimits(e)
    ensures WithinLimits(Step(e, req))
  {
    match req
    case PutRequest(q, d) => PutKeepsLimits(e, q, d);
    case GetRequest(q) => GetKeepsLimits(e, q);
    case DumpRequest(_) =>
    case StatsRequest(reset, format) =>
  }

  /**
   * Every request keeps the limits, so a server started with no queue never
   * exceeds them between requests.
   */
  lemma {:induction false} RunKeepsLimits(e: EngineState, reqs: seq<Request>)
    requires WithinLimits(e)
    ensures WithinLimits(Run(e, reqs))
    decreases |reqs|
  {
    if reqs != [] {
      StepKeepsLimits(e, reqs[0]);
      RunKeepsLimits(Step(e, reqs[0]), reqs[1..]);
    }
  }

  /** No queue has a put counted against it. */
  predicate QueuePutsZero(e: EngineState)
  {
    forall n :: n in e.queues ==> e.queues[n].nPuts == 0
  }

  lemma StepKeepsQueuePutsZero(e: EngineState, req: Request)
    requires Valid(e) && QueuePutsZero(e)
    ensures QueuePutsZero(Step(e, req))
  {
    match req
    case PutRequest(q, d) =>
      if d.Some? {
        PutRegisters(e, q, d.value);
        PutKeepsOthers(e, q, d);
        PutHighWater(e, q, d.value);
      }
    case GetRequest(q) =>
    case DumpRequest(_) =>
    case StatsRequest(reset, format) =>
  }

  /**
   * A queue's own put count is set to zero when the queue is created and no
   * request raises it, so `stats` reports `puts` 0 for every queue.
   */
  lemma {:induction false} RunKeepsQueuePutsZero(e: EngineState, reqs: seq<Request>)
    requires Valid(e) && QueuePutsZero(e)
    ensures QueuePutsZero(Run(e, reqs))
    decreases |reqs|
  {
    if reqs != [] {
      StepKeepsQueuePutsZero(e, reqs[0]);
      RunKeepsQueuePutsZero(Step(e, reqs[0]), reqs[1..]);
    }
  }

  /** What holds in every state a server reaches from start-up. */
  lemma Reachable(maxDepth: nat, maxBytes: nat, logOpen: bool, reqs: seq<Request>)
    ensures var r := Run(Init(maxDepth, maxBytes, logOpen), reqs);
      WithinLimits(r) && QueuePutsZero(r) && r.maxDepth == maxDepth && r.maxBytes == maxBytes
  {
    RunKeepsLimits(Init(maxDepth, maxBytes, logOpen), reqs);
    RunKeepsQueuePutsZero(Init(maxDepth, maxBytes, logOpen), reqs);
    RunKeepsConfig(Init(maxDepth, maxBytes, logOpen), reqs);
  }

  lemma {:induction false} RunKeepsConfig(e: EngineState, reqs: seq<Request>)
    requires Valid(e)
    ensures Run(e, reqs).maxDepth == e.maxDepth && Run(e, reqs).maxBytes == e.maxBytes
    decreases |reqs|
  {
    if reqs != [] {
      if reqs[0].PutRequest? {
        PutKeepsOthers(e, reqs[0].queue, reqs[0].data);
      }
      RunKeepsConfig(Step(e, reqs[0]), reqs[1..]);
    }
  }

  /** No limit is configured: the capacity loop never evicts. */
  predicate Unlimited(e: EngineState)
  {
    e.maxDepth == 0 && e.maxBytes == 0
  }

  /** Without limits a put with a payload only appends it to its queue; nothing is logged. */
  lemma PutUnlimited(e: EngineState, queueName: Option<string>, payload: string)
    requires Valid(e) && Unlimited(e)
    ensures var name, r := QueueName(queueName), Put(e, queueName, Some(payload)).0;
      && EntriesOf(r, name) == EntriesOf(e, name) + [payload]
      && Unlimited(r) && r.log == e.log && r.nOverflow == e.nOverflow
  {
    var name := QueueName(queueName);
    AppendedCounters(e, name, payload);
    AppendedQueue(e, name, payload);
    EvictNothing(Appended(e, name, payload), name);
  }

  /** The state after a put of each payload of `ps`, in order, to the same queue. */
  function PutAll(e: EngineState, queueName: Option<string>, ps: seq<string>): (r: EngineState)
    requires Valid(e)
    ensures Valid(r)
    decreases |ps|
  {
    if ps == [] then e else PutAll(Put(e, queueName, Some(ps[0])).0, queueName, ps[1..])
  }

  /** Without limits, puts append their payloads at the tail in the order they are made. */
  lemma {:induction false} PutAllAppends(e: EngineState, queueName: Option<string>, ps: seq<string>)
    requires Valid(e) && Unlimited(e)
    ensures var name, r := QueueName(queueName), PutAll(e, queueName, ps);
      EntriesOf(r, name) == EntriesOf(e, name) + ps && Unlimited(r)
    decreases |ps|
  {
    if ps != [] {
      var name := QueueName(queueName);
      PutUnlimited(e, queueName, ps[0]);
      PutAllAppends(Put(e, queueName, Some(ps[0])).0, queueName, ps[1..]);
      AppendFirst(EntriesOf(e, name), ps);
    }
  }

  lemma AppendFirst<T>(a: seq<T>, ps: seq<T>)
    requires ps != []
    ensures (a + [ps[0]]) + ps[1..] == a + ps
  {
    assert ps == [ps[0]] + ps[1..];
  }

  /** The state after n gets on the same queue, and their replies in order. */
  function GetAll(e: EngineState, queueName: Option<string>, n: nat): (r: (EngineState, seq<Option<string>>))
    requires Valid(e)
    ensures Valid(r.0) && |r.1| == n
    decreases n
  {
    if n == 0 then (e, [])
    else
      var (e1, p) := Get(e, queueName);
      var (e2, ps) := GetAll(e1, queueName, n - 1);
      (e2, [p] + ps)
  }

  /** Each payload as a reply that carries it. */
  function Replies(ps: seq<string>): (r: seq<Option<string>>)
    ensures |r| == |ps| && forall i :: 0 <= i < |ps| ==> r[i] == Some(ps[i])
  {
    if ps == [] then [] else [Some(ps[0])] + Replies(ps[1..])
  }

  /** n gets on a queue holding at least n payloads reply with its first n payloads, head first, and remove them. */
  lemma {:induction false} GetAllTakes(e: EngineState, queueName: Option<string>, n: nat)
    requires Valid(e) && n <= |EntriesOf(e, QueueName(queueName))|
    ensures var name, r := QueueName(queueName), GetAll(e, queueName, n);
      && r.1 == Replies(EntriesOf(e, name)[..n])
      && EntriesOf(r.0, name) == EntriesOf(e, name)[n..]
    decreases n
  {
    if n > 0 {
      var name := QueueName(queueName);
      var s := EntriesOf(e, name);
      var e1 := Get(e, queueName).0;
      assert EntriesOf(e1, name) == s[1..];
      GetAllTakes(e1, queueName, n - 1);
      assert s[1..][..n - 1] == s[..n][1..];
      assert s[1..][n - 1..] == s[n..];
    }
  }

  /**
   * FIFO order: without limits, payloads put to an empty queue come back from
   * as many gets in the order they were put, and the queue ends empty.
   */
  lemma Fifo(e: EngineState, queueName: Option<string>, ps: seq<string>)
    requires Valid(e) && Unlimited(e) && EntriesOf(e, QueueName(queueName)) == []
    ensures var r := GetAll(PutAll(e, queueName, ps), queueName, |ps|);
      r.1 == Replies(ps) && EntriesOf(r.0, QueueName(queueName)) == []
  {
    var name, a := QueueName(queueName), PutAll(e, queueName, ps);
    PutAllAppends(e, queueName, ps);
    assert EntriesOf(a, name) == ps;
    GetAllTakes(a, queueName, |ps|);
    assert ps[..|ps|] == ps;
  }

  /**
   * `dump` replies with what successive gets would return, each followed by a
   * newline: the reply of one get, then the dump of the state it leaves.
   */
  lemma DumpThenGet(e: EngineState, queueName: Option<string>)
    requires Valid(e)
    ensures var (r, p) := Get(e, queueName);
      Dump(e, queueName) == (if p.Some? then p.value + "\n" else "") + Dump(r, queueName)
  {
  }

  /** Without limits, a put adds its payload and a newline at the end of the queue's dump. */
  lemma DumpAfterPut(e: EngineState, queueName: Option<string>, payload: string)
    requires Valid(e) && Unlimited(e)
    ensures Dump(Put(e, queueName, Some(payload)).0, queueName) == Dump(e, queueName) + payload + "\n"
  {
    PutUnlimited(e, queueName, payload);
    LinesAppend(EntriesOf(e, QueueName(queueName)), payload);
  }

  /**
   * `stats?reset=1` changes nothing a later `stats` reports but the global
   * put and get counts and the global high-water mark, which read 0.
   */
  lemma ResetOnlyClearsThree(e: EngineState)
    requires Valid(e)
    ensures Snapshot(ResetStats(e)) == Snapshot(e).(puts := 0, gets := 0, depthHighWater := 0)
  {
  }

  /** The numbers of one queue are the same in both formats, only listed in another order. */
  lemma QueueFieldsAgree(q: QueueStats)
    ensures multiset(QueueFields(q, Json)) == multiset(QueueFields(q, Text))
  {
    var j, t := QueueFields(q, Json), QueueFields(q, Text);
    assert j == [j[0], j[1]] + [j[2], j[3]];
    assert t == [j[1], j[0]] + [j[2], j[3]];
  }

  lemma {:induction false} AllQueueFieldsAgree(qs: seq<QueueStats>)
    ensures multiset(AllQueueFields(qs, Json)) == multiset(AllQueueFields(qs, Text))
  {
    if qs != [] {
      QueueFieldsAgree(qs[0]);
      AllQueueFieldsAgree(qs[1..]);
    }
  }

  /**
   * The JSON and text replies of `stats` report the same six globals in the
   * same order, and for every queue, in the same registry order, the same
   * four numbers.
   */
  lemma RenderingsAgree(s: StatsSnapshot)
    ensures Render(s, Json)[..6] == Render(s, Text)[..6] == GlobalFields(s)
    ensures forall i :: 0 <= i < |s.queues| ==>
      multiset(Render(s, Json)[6 + 4 * i..10 + 4 * i]) == multiset(Render(s, Text)[6 + 4 * i..10 + 4 * i])
  {
    var j, t := Render(s, Json), Render(s, Text);
    forall i | 0 <= i < |s.queues|
      ensures multiset(j[6 + 4 * i..10 + 4 * i]) == multiset(t[6 + 4 * i..10 + 4 * i])
    {
      QueueFieldsAgree(s.queues[i]);
    }
  }

  /** Both replies of `stats` hold the same numbers under the same labels. */
  lemma RenderingsSameFields(s: StatsSnapshot)
    ensures multiset(Render(s, Json)) == multiset(Render(s, Text))
  {
    var g := GlobalFields(s);
    assert Render(s, Json) == g + AllQueueFields(s.queues, Json);
    assert Render(s, Text) == g + AllQueueFields(s.queues, Text);
    AllQueueFieldsAgree(s.queues);
  }

  /**
   * The shutdown drain as written: with a log handle open, every queue is
   * emptied and every payload counted as overflow, but only the first
   * queue's payloads reach the log, because the handle is closed after the
   * first queue; without a handle nothing happens.
   */
  lemma ShutdownAsWritten(e: EngineState)
    requires Valid(e)
    ensures var r := Shutdown(e);
      && (!e.logOpen ==> r == e)
      && (e.logOpen ==>
        && r.queues.Keys == e.queues.Keys && r.order == e.order
        && (forall n :: n in r.queues ==> r.queues[n].entries == [])
        && r.totalDepth == 0 && r.nOverflow == e.nOverflow + e.totalDepth
        && r.logOpen == (e.order == [])
        && r.log == e.log + (if e.order != [] then Lines(e.queues[e.order[0]].entries) else ""))
  {
    if e.logOpen {
      OrderRegistered(e, 0);
      assert e.order[0..] == e.order;
      DrainFromQueues(e, e.order, true);
      DrainFromCounts(e, e.order, true);
      DrainFromLogClosing(e, e.order);
    }
  }

  /**
   * The shutdown drain as intended: with a log handle open, every queue is
   * emptied to the log, queue after queue in registry order, and the handle
   * is closed once at the end.
   */
  lemma ShutdownCorrectedLogsAll(e: EngineState)
    requires Valid(e)
    ensures var r := ShutdownCorrected(e);
      && (!e.logOpen ==> r == e)
      && (e.logOpen ==>
        && r.queues.Keys == e.queues.Keys && r.order == e.order
        && (forall n :: n in r.queues ==> r.queues[n].entries == [])
        && r.totalDepth == 0 && r.nOverflow == e.nOverflow + e.totalDepth
        && r.log == e.log + AllLines(e.queues, e.order))
  {
    if e.logOpen {
      OrderRegistered(e, 0);
      assert e.order[0..] == e.order;
      DrainFromQueues(e, e.order, false);
      DrainFromCounts(e, e.order, false);
      DrainFromLogOpen(e, e.order);
    }
  }

  /** A put whose append leaves the limits kept evicts nothing. */
  lemma PutNoEviction(e: EngineState, queueName: Option<string>, payload: string)
    requires Valid(e) && !OverLimits(Appended(e, QueueName(queueName), payload))
    ensures Put(e, queueName, Some(payload)).0 == Appended(e, QueueName(queueName), payload)
  {
    var name := QueueName(queueName);
    var a := Appended(e, name, payload);
    EvictNothing(a, name);
    OverLimitsAfterEvicting(a, name, 0);
  }

  /**
   * With only a depth limit, a put made when the total depth is at the limit
   * evicts exactly one payload, the oldest of its own queue, when that queue
   * is not empty. The high-water marks then record a depth one above the limit.
   */
  lemma PutAtDepthLimit(e: EngineState, queueName: Option<string>, payload: string)
    requires Valid(e) && e.maxDepth > 0 && e.maxBytes == 0 && e.totalDepth == e.maxDepth
    requires EntriesOf(e, QueueName(queueName)) != []
    ensures var name, r := QueueName(queueName), Put(e, queueName, Some(payload)).0;
      var s := EntriesOf(e, name);
      && r.queues[name].entries == s[1..] + [payload]
      && r.nOverflow == e.nOverflow + 1
      && r.log == e.log + (if e.logOpen then s[0] + "\n" else "")
      && r.totalDepth == e.maxDepth
      && r.totalDepthHighWater >= e.maxDepth + 1
      && r.queues[name].depthHighWater >= |s| + 1
  {
    var name := QueueName(queueName);
    var s := EntriesOf(e, name);
    var a := Appended(e, name, payload);
    AppendedQueue(e, name, payload);
    AppendedCounters(e, name, payload);
    var t := s + [payload];
    assert a.queues[name].entries == t;
    assert t[..1] == [s[0]] && t[1..] == s[1..] + [payload];
    Single(s[0]);
    assert OverLimitsAfter(a, name, 0) && !OverLimitsAfter(a, name, 1);
    assert EvictionCount(a, name, 0) == 1;
    var r := EvictPrefix(a, name, 1);
    assert Put(e, queueName, Some(payload)).0 == r;
  }
}
