/**
 * The named-queue engine of simplequeue (simplequeue/simplequeue.c) as values:
 * the process-wide counters, the registry of named FIFO queues and the
 * overflow log form one `EngineState`, and every request handler is a
 * function from the state before to the state after (and its reply).
 * The class in QueueEngine performs the same steps in place and is proved
 * against these functions.
 */
module QueueModel {
  import opened Wrappers

  /** The queue addressed by a request that carries no `queue` argument. */
  const DefaultQueueName: string := "default"

  function QueueName(queueName: Option<string>): string
  {
    queueName.GetOr(DefaultQueueName)
  }

  function Max(a: nat, b: nat): nat
  {
    if a < b then b else a
  }

  /** One `struct NamedQueue`: its counters and its list of payloads, head (oldest) first. */
  datatype NamedQueue = NamedQueue(
    nGets: nat,
    nPuts: nat,
    depth: nat,
    depthHighWater: nat,
    entries: seq<string>)

  /** A queue as `get_or_create_queue` builds it. */
  const EmptyQueue: NamedQueue := NamedQueue(0, 0, 0, 0, [])

  /**
   * The globals of simplequeue.c. `order` lists the registered names in the
   * order they were added, which is the order the registry is iterated in;
   * `logOpen` says whether the overflow-log handle is open and `log` is what
   * has been written to it.
   */
  datatype EngineState = EngineState(
    queues: map<string, NamedQueue>,
    order: seq<string>,
    totalDepth: nat,
    totalDepthHighWater: nat,
    nPuts: nat,
    nGets: nat,
    nOverflow: nat,
    nBytes: nat,
    maxDepth: nat,
    maxBytes: nat,
    logOpen: bool,
    log: string)

  /** Sum of the sizes (`strlen`) of the payloads. */
  function Bytes(entries: seq<string>): nat
  {
    if entries == [] then 0 else |entries[0]| + Bytes(entries[1..])
  }

  /** Each payload followed by a newline, head to tail: what `dump` replies and what eviction logs. */
  function Lines(entries: seq<string>): string
  {
    if entries == [] then "" else entries[0] + "\n" + Lines(entries[1..])
  }

  lemma {:induction false} BytesAppend(s: seq<string>, x: string)
    ensures Bytes(s + [x]) == Bytes(s) + |x|
  {
    if s != [] {
      assert (s + [x])[1..] == s[1..] + [x];
      BytesAppend(s[1..], x);
    }
  }

  lemma {:induction false} LinesAppend(s: seq<string>, x: string)
    ensures Lines(s + [x]) == Lines(s) + x + "\n"
  {
    if s != [] {
      assert (s + [x])[1..] == s[1..] + [x];
      LinesAppend(s[1..], x);
    }
  }

  lemma Single(x: string)
    ensures Bytes([x]) == |x| && Lines([x]) == x + "\n"
  {
    assert [x][1..] == [];
  }

  /** `Lines` spends one byte per payload on top of the payloads themselves. */
  lemma {:induction false} LinesLength(s: seq<string>)
    ensures |Lines(s)| == Bytes(s) + |s|
  {
    if s != [] {
      LinesLength(s[1..]);
    }
  }

  lemma ConcatAssoc(a: string, b: string, c: string)
    ensures (a + b) + c == a + (b + c)
  {
  }

  /** Extending a prefix of `s` by one element, and what that does to its sums. */
  lemma PrefixStep(s: seq<string>, j: nat)
    requires j < |s|
    ensures s[j..][0] == s[j] && s[j..][1..] == s[j + 1..]
    ensures Bytes(s[..j + 1]) == Bytes(s[..j]) + |s[j]|
    ensures Lines(s[..j + 1]) == Lines(s[..j]) + (s[j] + "\n")
  {
    assert s[..j + 1] == s[..j] + [s[j]];
    BytesAppend(s[..j], s[j]);
    LinesAppend(s[..j], s[j]);
    ConcatAssoc(Lines(s[..j]), s[j], "\n");
  }

  lemma UpdateTwice<K, V>(m: map<K, V>, k: K, a: V, b: V)
    ensures m[k := a][k := b] == m[k := b]
  {
  }

  /** The two per-queue quantities whose sums the globals `total_depth` and `n_bytes` keep. */
  datatype Measure = Depth | Size

  function Measured(q: NamedQueue, m: Measure): nat
  {
    match m
    case Depth => q.depth
    case Size => Bytes(q.entries)
  }

  /** Sum of a measure over the queues registered under `names`. */
  function Total(qs: map<string, NamedQueue>, names: seq<string>, m: Measure): nat
  {
    if names == [] then 0
    else (if names[0] in qs then Measured(qs[names[0]], m) else 0) + Total(qs, names[1..], m)
  }

  predicate NoDuplicates(s: seq<string>)
  {
    forall i, j :: 0 <= i < j < |s| ==> s[i] != s[j]
  }

  lemma {:induction false} TotalIgnoresOthers(qs: map<string, NamedQueue>, names: seq<string>, n: string, q: NamedQueue, m: Measure)
    requires n !in names
    ensures Total(qs[n := q], names, m) == Total(qs, names, m)
  {
    if names != [] {
      TotalIgnoresOthers(qs, names[1..], n, q, m);
    }
  }

  lemma {:induction false} TotalUpdate(qs: map<string, NamedQueue>, names: seq<string>, n: string, q: NamedQueue, m: Measure)
    requires NoDuplicates(names) && n in names && n in qs
    ensures Total(qs[n := q], names, m) + Measured(qs[n], m) == Total(qs, names, m) + Measured(q, m)
  {
    if names[0] == n {
      assert n !in names[1..] by {
        forall j | 0 <= j < |names[1..]| ensures names[1..][j] != n {
          assert names[1..][j] == names[j + 1];
        }
      }
      TotalIgnoresOthers(qs, names[1..], n, q, m);
    } else {
      TotalUpdate(qs, names[1..], n, q, m);
    }
  }

  lemma {:induction false} TotalAppend(qs: map<string, NamedQueue>, names: seq<string>, x: string, m: Measure)
    ensures Total(qs, names + [x], m) == Total(qs, names, m) + (if x in qs then Measured(qs[x], m) else 0)
  {
    if names != [] {
      assert (names + [x])[1..] == names[1..] + [x];
      TotalAppend(qs, names[1..], x, m);
    }
  }

  /**
   * The bookkeeping every reachable state keeps: each name registered once,
   * each queue's `depth` is the length of its list and at most its high-water
   * mark, `total_depth` is the sum of the depths, and `n_bytes` is at least
   * the sum of the payload sizes (it can be more, because `get` does not
   * subtract).
   */
  ghost predicate Valid(e: EngineState)
  {
    && NoDuplicates(e.order)
    && e.queues.Keys == (set n | n in e.order)
    && (forall n :: n in e.queues ==> e.queues[n].depth == |e.queues[n].entries| <= e.queues[n].depthHighWater)
    && e.totalDepth == Total(e.queues, e.order, Depth)
    && e.nBytes >= Total(e.queues, e.order, Size)
  }

  /** Bytes counted in `n_bytes` that no resident payload accounts for. */
  function PhantomBytes(e: EngineState): int
  {
    e.nBytes - Total(e.queues, e.order, Size)
  }

  /** The condition of the capacity loop of `put`: a configured limit is exceeded. */
  predicate OverLimits(e: EngineState)
  {
    || (e.maxDepth > 0 && e.totalDepth > e.maxDepth)
    || (e.maxBytes > 0 && e.nBytes > e.maxBytes)
  }

  /** `r` differs from `e` at most in the queue registered as `name`. */
  predicate OthersUnchanged(e: EngineState, r: EngineState, name: string)
  {
    && r.order == e.order
    && name in e.queues && name in r.queues
    && r.queues == e.queues[name := r.queues[name]]
  }

  /** The state at start-up: no queue, all counters zero, the two limits and whether a log is open. */
  function Init(maxDepth: nat, maxBytes: nat, logOpen: bool): (e: EngineState)
    ensures Valid(e) && !OverLimits(e) && PhantomBytes(e) == 0
    ensures e.queues == map[] && e.order == [] && e.log == ""
    ensures e.maxDepth == maxDepth && e.maxBytes == maxBytes && e.logOpen == logOpen
  {
    EngineState(map[], [], 0, 0, 0, 0, 0, 0, maxDepth, maxBytes, logOpen, "")
  }

  /** `get_or_create_queue`: the registered queue, or a new empty one registered last. */
  function GetOrCreateQueue(e: EngineState, name: string): (r: EngineState)
    requires Valid(e)
    ensures Valid(r) && name in r.queues && PhantomBytes(r) == PhantomBytes(e)
    ensures name in e.queues ==> r == e
    ensures name !in e.queues ==>
      && r.queues.Keys == e.queues.Keys + {name}
      && r.queues[name] == EmptyQueue
      && r.order == e.order + [name]
      && (forall n :: n in e.queues ==> r.queues[n] == e.queues[n])
    ensures r == e.(queues := r.queues, order := r.order)
  {
    if name in e.queues then e
    else
      var qs := e.queues[name := EmptyQueue];
      TotalIgnoresOthers(e.queues, e.order, name, EmptyQueue, Depth);
      TotalIgnoresOthers(e.queues, e.order, name, EmptyQueue, Size);
      TotalAppend(qs, e.order, name, Depth);
      TotalAppend(qs, e.order, name, Size);
      e.(queues := qs, order := e.order + [name])
  }

  /**
   * The part of `put` after the queue is found: the payload goes to the tail,
   * `n_bytes`, `total_depth` and the queue's depth grow, and both high-water
   * marks are raised to the new depths.
   */
  function Enqueue(e: EngineState, name: string, payload: string): (r: EngineState)
    requires Valid(e) && name in e.queues
    ensures Valid(r) && OthersUnchanged(e, r, name) && PhantomBytes(r) == PhantomBytes(e)
    ensures var q, q' := e.queues[name], r.queues[name];
      && q'.entries == q.entries + [payload]
      && q'.depth == q.depth + 1
      && q'.depthHighWater == Max(q.depthHighWater, q.depth + 1)
      && q'.nGets == q.nGets && q'.nPuts == q.nPuts
    ensures r.totalDepth == e.totalDepth + 1 && r.nBytes == e.nBytes + |payload|
    ensures r.totalDepthHighWater == Max(e.totalDepthHighWater, e.totalDepth + 1)
    ensures r == e.(queues := r.queues, totalDepth := r.totalDepth, nBytes := r.nBytes,
                    totalDepthHighWater := r.totalDepthHighWater)
  {
    var q := e.queues[name];
    var q' := q.(entries := q.entries + [payload], depth := q.depth + 1,
                 depthHighWater := Max(q.depthHighWater, q.depth + 1));
    BytesAppend(q.entries, payload);
    TotalUpdate(e.queues, e.order, name, q', Depth);
    TotalUpdate(e.queues, e.order, name, q', Size);
    e.(queues := e.queues[name := q'], totalDepth := e.totalDepth + 1, nBytes := e.nBytes + |payload|,
       totalDepthHighWater := Max(e.totalDepthHighWater, e.totalDepth + 1))
  }

  lemma {:induction false} BytesSplit(s: seq<string>, k: nat)
    requires k <= |s|
    ensures Bytes(s) == Bytes(s[..k]) + Bytes(s[k..])
  {
    if k > 0 {
      assert s[..k][1..] == s[1..][..k - 1];
      assert s[k..] == s[1..][k - 1..];
      BytesSplit(s[1..], k - 1);
    }
  }

  /**
   * The state after the first k payloads of queue `name` have been evicted:
   * they are gone from the queue, written to the log in order when the
   * handle is open, and accounted for in the counters.
   */
  function EvictPrefix(e: EngineState, name: string, k: nat): (r: EngineState)
    requires Valid(e) && name in e.queues && k <= |e.queues[name].entries|
    ensures Valid(r) && OthersUnchanged(e, r, name) && PhantomBytes(r) == PhantomBytes(e)
    ensures var q := e.queues[name];
      && r.queues[name] == q.(entries := q.entries[k..], depth := q.depth - k)
      && r.totalDepth + k == e.totalDepth
      && r.nBytes + Bytes(q.entries[..k]) == e.nBytes
      && r.nOverflow == e.nOverflow + k
      && r.log == e.log + (if e.logOpen then Lines(q.entries[..k]) else "")
    ensures r == e.(queues := r.queues, totalDepth := r.totalDepth, nBytes := r.nBytes,
                    nOverflow := r.nOverflow, log := r.log)
  {
    var q := e.queues[name];
    var q' := q.(entries := q.entries[k..], depth := q.depth - k);
    BytesSplit(q.entries, k);
    TotalUpdate(e.queues, e.order, name, q', Depth);
    TotalUpdate(e.queues, e.order, name, q', Size);
    e.(queues := e.queues[name := q'], totalDepth := e.totalDepth - k,
       nBytes := e.nBytes - Bytes(q.entries[..k]), nOverflow := e.nOverflow + k,
       log := if e.logOpen then e.log + Lines(q.entries[..k]) else e.log)
  }

  /** Evicting nothing changes nothing. */
  lemma EvictNothing(e: EngineState, name: string)
    requires Valid(e) && name in e.queues
    ensures EvictPrefix(e, name, 0) == e
  {
    var r := EvictPrefix(e, name, 0);
    assert e.queues[name].entries[0..] == e.queues[name].entries;
    assert r.queues[name] == e.queues[name];
    UpdateTwice(e.queues, name, e.queues[name], e.queues[name]);
  }

  /**
   * `overflow_one`: drop the head of the queue, write it and a newline to the
   * log (lost when no log handle is open), and account for it in `n_bytes`,
   * `total_depth`, the queue's depth and `n_overflow`. An empty queue is left
   * as it is.
   */
  function OverflowOne(e: EngineState, name: string): (r: EngineState)
    requires Valid(e) && name in e.queues
    ensures Valid(r) && OthersUnchanged(e, r, name) && PhantomBytes(r) == PhantomBytes(e)
    ensures e.queues[name].entries == [] ==> r == e
    ensures e.queues[name].entries != [] ==>
      var q, head := e.queues[name], e.queues[name].entries[0];
      && r.queues[name] == q.(entries := q.entries[1..], depth := q.depth - 1)
      && r.totalDepth + 1 == e.totalDepth
      && r.nBytes + |head| == e.nBytes
      && r.nOverflow == e.nOverflow + 1
      && r.log == e.log + (if e.logOpen then head + "\n" else "")
      && r == e.(queues := r.queues, totalDepth := r.totalDepth, nBytes := r.nBytes,
                 nOverflow := r.nOverflow, log := r.log)
  {
    var q := e.queues[name];
    if q.entries == [] then e
    else
      var head := q.entries[0];
      var q' := q.(entries := q.entries[1..], depth := q.depth - 1);
      TotalUpdate(e.queues, e.order, name, q', Depth);
      TotalUpdate(e.queues, e.order, name, q', Size);
      e.(queues := e.queues[name := q'], totalDepth := e.totalDepth - 1, nBytes := e.nBytes - |head|,
         nOverflow := e.nOverflow + 1, log := if e.logOpen then e.log + head + "\n" else e.log)
  }

  /** One more `overflow_one` after j evictions is the state after j + 1 evictions. */
  lemma OverflowOneStep(e: EngineState, name: string, j: nat)
    requires Valid(e) && name in e.queues && j < |e.queues[name].entries|
    ensures OverflowOne(EvictPrefix(e, name, j), name) == EvictPrefix(e, name, j + 1)
  {
    var s := e.queues[name].entries;
    PrefixStep(s, j);
    var e1 := EvictPrefix(e, name, j);
    var r1, r2 := OverflowOne(e1, name), EvictPrefix(e, name, j + 1);
    assert r1.queues[name] == r2.queues[name];
    UpdateTwice(e.queues, name, e1.queues[name], r1.queues[name]);
    if e.logOpen {
      ConcatAssoc(e.log, Lines(s[..j]), s[j] + "\n");
      ConcatAssoc(e.log + Lines(s[..j]), s[j], "\n");
    }
  }

  /**
   * Whether a limit is still exceeded once the first j payloads of queue
   * `name` are evicted: the loop condition of `put` read off the state
   * before the loop.
   */
  predicate OverLimitsAfter(e: EngineState, name: string, j: nat)
    requires name in e.queues && j <= |e.queues[name].entries|
  {
    || (e.maxDepth > 0 && e.totalDepth - j > e.maxDepth)
    || (e.maxBytes > 0 && e.nBytes - Bytes(e.queues[name].entries[..j]) > e.maxBytes)
  }

  lemma OverLimitsAfterEvicting(e: EngineState, name: string, j: nat)
    requires Valid(e) && name in e.queues && j <= |e.queues[name].entries|
    ensures OverLimits(EvictPrefix(e, name, j)) == OverLimitsAfter(e, name, j)
  {
  }

  /**
   * The number of evictions the capacity loop of `put` performs when it starts
   * after j of them: the first count from j on at which no limit is exceeded
   * any more, or the whole queue.
   */
  function EvictionCount(e: EngineState, name: string, j: nat): (k: nat)
    requires name in e.queues && j <= |e.queues[name].entries|
    ensures j <= k <= |e.queues[name].entries|
    ensures k < |e.queues[name].entries| ==> !OverLimitsAfter(e, name, k)
    decreases |e.queues[name].entries| - j
  {
    if j == |e.queues[name].entries| || !OverLimitsAfter(e, name, j) then j
    else EvictionCount(e, name, j + 1)
  }

  /** Every eviction the count includes happens while a limit is exceeded. */
  lemma {:induction false} EvictionCountMinimal(e: EngineState, name: string, j: nat)
    requires name in e.queues && j <= |e.queues[name].entries|
    ensures forall i :: j <= i < EvictionCount(e, name, j) ==> OverLimitsAfter(e, name, i)
    decreases |e.queues[name].entries| - j
  {
    if j < |e.queues[name].entries| && OverLimitsAfter(e, name, j) {
      EvictionCountMinimal(e, name, j + 1);
    }
  }

  /**
   * The capacity loop of `put` (lines 232-235) on queue `name`: evict from
   * the head while a limit is exceeded. The loop stops on an empty queue,
   * where the source would keep calling `overflow_one` to no effect.
   */
  function Evict(e: EngineState, name: string): (r: EngineState)
    requires Valid(e) && name in e.queues
    ensures Valid(r) && OthersUnchanged(e, r, name) && PhantomBytes(r) == PhantomBytes(e)
    ensures r.nOverflow >= e.nOverflow
    ensures var q := e.queues[name]; r.queues[name] == q.(entries := r.queues[name].entries, depth := r.queues[name].depth)
    ensures r == e.(queues := r.queues, totalDepth := r.totalDepth, nBytes := r.nBytes,
                    nOverflow := r.nOverflow, log := r.log)
  {
    EvictPrefix(e, name, EvictionCount(e, name, 0))
  }

  datatype PutStatus = Accepted | MissingData

  /**
   * The first part of a `put` with a payload: the request is counted, the
   * queue found or created, and the payload appended to it.
   */
  function Appended(e: EngineState, name: string, payload: string): (a: EngineState)
    requires Valid(e)
    ensures Valid(a) && name in a.queues && PhantomBytes(a) == PhantomBytes(e)
  {
    Enqueue(GetOrCreateQueue(e.(nPuts := e.nPuts + 1), name), name, payload)
  }

  /**
   * `put`: count the request, refuse it when there is no payload, otherwise
   * enqueue the payload on the named queue (created when missing) and run
   * the capacity loop on that queue.
   */
  function Put(e: EngineState, queueName: Option<string>, data: Option<string>): (r: (EngineState, PutStatus))
    requires Valid(e)
    ensures Valid(r.0)
    ensures r.1 == Accepted <==> data.Some?
    ensures data.None? ==> r.0 == e.(nPuts := e.nPuts + 1)
  {
    match data
    case None => (e.(nPuts := e.nPuts + 1), MissingData)
    case Some(payload) =>
      var name := QueueName(queueName);
      (Evict(Appended(e, name, payload), name), Accepted)
  }

  /**
   * The part of `get` after the queue is found: count the request on the
   * queue and take its head, if any. `n_bytes` is left as it is, so the size
   * of the payload taken stays counted in it.
   */
  function TakeHead(e: EngineState, name: string): (r: (EngineState, Option<string>))
    requires Valid(e) && name in e.queues
    ensures Valid(r.0) && OthersUnchanged(e, r.0, name)
    ensures var q, q' := e.queues[name], r.0.queues[name];
      && q'.nGets == q.nGets + 1
      && q'.nPuts == q.nPuts && q'.depthHighWater == q.depthHighWater
      && (q.entries == [] ==> r.1 == None && q'.entries == [])
      && (q.entries != [] ==> r.1 == Some(q.entries[0]) && q'.entries == q.entries[1..])
    ensures r.0.totalDepth + (if r.1.Some? then 1 else 0) == e.totalDepth
    ensures PhantomBytes(r.0) == PhantomBytes(e) + (if r.1.Some? then |r.1.value| else 0)
    ensures r.0 == e.(queues := r.0.queues, totalDepth := r.0.totalDepth)
  {
    var q := e.queues[name];
    if q.entries == [] then
      var q' := q.(nGets := q.nGets + 1);
      TotalUpdate(e.queues, e.order, name, q', Depth);
      TotalUpdate(e.queues, e.order, name, q', Size);
      (e.(queues := e.queues[name := q']), None)
    else
      var q' := q.(nGets := q.nGets + 1, entries := q.entries[1..], depth := q.depth - 1);
      TotalUpdate(e.queues, e.order, name, q', Depth);
      TotalUpdate(e.queues, e.order, name, q', Size);
      (e.(queues := e.queues[name := q'], totalDepth := e.totalDepth - 1), Some(q.entries[0]))
  }

  /**
   * `get`: count the request, then take the head of the named queue when it
   * is registered; an unknown name is not registered.
   */
  function Get(e: EngineState, queueName: Option<string>): (r: (EngineState, Option<string>))
    requires Valid(e)
    ensures Valid(r.0) && r.0.nGets == e.nGets + 1 && r.0.nBytes == e.nBytes
    ensures QueueName(queueName) !in e.queues ==> r == (e.(nGets := e.nGets + 1), None)
    ensures QueueName(queueName) in e.queues ==>
      r == TakeHead(e.(nGets := e.nGets + 1), QueueName(queueName))
  {
    var e1 := e.(nGets := e.nGets + 1);
    var name := QueueName(queueName);
    if name !in e.queues then (e1, None) else TakeHead(e1, name)
  }

  /** `get` as evidently intended: the same, but the size of the payload taken leaves `n_bytes`. */
  function GetCorrected(e: EngineState, queueName: Option<string>): (r: (EngineState, Option<string>))
    requires Valid(e)
    ensures Valid(r.0) && PhantomBytes(r.0) == PhantomBytes(e)
    ensures r.1 == Get(e, queueName).1
    ensures r.0 == Get(e, queueName).0.(nBytes := r.0.nBytes)
  {
    var (e1, payload) := Get(e, queueName);
    match payload
    case None => (e1, None)
    case Some(p) => (e1.(nBytes := e1.nBytes - |p|), Some(p))
  }

  /** `dump`: each payload of the named queue followed by a newline, head to tail; nothing for an unknown name. */
  function Dump(e: EngineState, queueName: Option<string>): (r: string)
    ensures QueueName(queueName) !in e.queues ==> r == ""
    ensures QueueName(queueName) in e.queues ==>
      |r| == Bytes(e.queues[QueueName(queueName)].entries) + |e.queues[QueueName(queueName)].entries|
  {
    var name := QueueName(queueName);
    if name in e.queues then
      LinesLength(e.queues[name].entries);
      Lines(e.queues[name].entries)
    else ""
  }

  /** One row of the per-queue part of `stats`. */
  datatype QueueStats = QueueStats(name: string, puts: nat, gets: nat, depth: nat, depthHighWater: nat)

  /** What both renderings of `stats` read: the six globals and the registered queues in registry order. */
  datatype StatsSnapshot = StatsSnapshot(
    puts: nat,
    gets: nat,
    depth: nat,
    depthHighWater: nat,
    bytes: nat,
    overflow: nat,
    queues: seq<QueueStats>)

  function QueueStatsOf(name: string, q: NamedQueue): QueueStats
  {
    QueueStats(name, q.nPuts, q.nGets, q.depth, q.depthHighWater)
  }

  /** The values `stats` prints when no reset is asked for. */
  function Snapshot(e: EngineState): (s: StatsSnapshot)
    requires Valid(e)
    ensures |s.queues| == |e.order|
    ensures forall i :: 0 <= i < |e.order| ==> s.queues[i] == QueueStatsOf(e.order[i], e.queues[e.order[i]])
    ensures s.depth == Total(e.queues, e.order, Depth)
    ensures && s.puts == e.nPuts && s.gets == e.nGets && s.depth == e.totalDepth
            && s.depthHighWater == e.totalDepthHighWater && s.bytes == e.nBytes && s.overflow == e.nOverflow
  {
    StatsSnapshot(e.nPuts, e.nGets, e.totalDepth, e.totalDepthHighWater, e.nBytes, e.nOverflow,
      seq(|e.order|, i requires 0 <= i < |e.order| => QueueStatsOf(e.order[i], e.queues[e.order[i]])))
  }

  /** `stats?reset=1`: zero the global high-water mark and the global put and get counts. */
  function ResetStats(e: EngineState): (r: EngineState)
    requires Valid(e)
    ensures Valid(r) && PhantomBytes(r) == PhantomBytes(e) && (OverLimits(r) <==> OverLimits(e))
    ensures r.totalDepthHighWater == 0 && r.nPuts == 0 && r.nGets == 0
    ensures r == e.(totalDepthHighWater := r.totalDepthHighWater, nPuts := r.nPuts, nGets := r.nGets)
  {
    e.(totalDepthHighWater := 0, nPuts := 0, nGets := 0)
  }

  /** The two output formats of `stats`; anything but `format=json` selects the text one. */
  datatype Format = Json | Text

  function FormatOf(format: Option<string>): Format
  {
    if format == Some("json") then Json else Text
  }

  /** One printed number, with the queue it belongs to (None for a global) and its label. */
  datatype Field = Field(queue: Option<string>, key: string, value: nat)

  /** The six globals, in the order both formats print them. */
  function GlobalFields(s: StatsSnapshot): seq<Field>
  {
    [Field(None, "puts", s.puts), Field(None, "gets", s.gets), Field(None, "depth", s.depth),
     Field(None, "depth_high_water", s.depthHighWater), Field(None, "bytes", s.bytes),
     Field(None, "overflow", s.overflow)]
  }

  /** One queue's numbers: the JSON object lists puts before gets, the text line gets before puts. */
  function QueueFields(q: QueueStats, f: Format): seq<Field>
  {
    var n := Some(q.name);
    match f
    case Json =>
      [Field(n, "puts", q.puts), Field(n, "gets", q.gets), Field(n, "depth", q.depth),
       Field(n, "depth_high_water", q.depthHighWater)]
    case Text =>
      [Field(n, "gets", q.gets), Field(n, "puts", q.puts), Field(n, "depth", q.depth),
       Field(n, "depth_high_water", q.depthHighWater)]
  }

  /** The per-queue numbers of every queue in `qs`, one block of four per queue, in the order of `qs`. */
  function AllQueueFields(qs: seq<QueueStats>, f: Format): (r: seq<Field>)
    ensures |r| == 4 * |qs|
    ensures forall i :: 0 <= i < |qs| ==> r[4 * i..4 * i + 4] == QueueFields(qs[i], f)
  {
    if qs == [] then []
    else
      var head, rest := QueueFields(qs[0], f), AllQueueFields(qs[1..], f);
      assert forall i :: 1 <= i < |qs| ==> (head + rest)[4 * i..4 * i + 4] == rest[4 * (i - 1)..4 * (i - 1) + 4];
      head + rest
  }

  /** The numbers of a `stats` reply, in the order the chosen format prints them. */
  function Render(s: StatsSnapshot, f: Format): (r: seq<Field>)
    ensures |r| == 6 + 4 * |s.queues|
    ensures r[..6] == GlobalFields(s)
    ensures forall i :: 0 <= i < |s.queues| ==> r[6 + 4 * i..10 + 4 * i] == QueueFields(s.queues[i], f)
  {
    var g, qs := GlobalFields(s), AllQueueFields(s.queues, f);
    assert forall i :: 0 <= i < |s.queues| ==> (g + qs)[6 + 4 * i..10 + 4 * i] == qs[4 * i..4 * i + 4];
    g + qs
  }

  /**
   * `stats`: with `reset=1` the three counters are zeroed and the reply has no
   * body; otherwise the state is unchanged and the reply renders the snapshot.
   */
  function Stats(e: EngineState, reset: Option<string>, format: Option<string>): (r: (EngineState, Option<seq<Field>>))
    requires Valid(e)
    ensures Valid(r.0)
    ensures r.1.None? <==> reset == Some("1")
    ensures reset != Some("1") ==> r.0 == e
    ensures reset == Some("1") ==> r.0 == ResetStats(e)
    ensures reset != Some("1") ==> r.1 == Some(Render(Snapshot(e), FormatOf(format)))
  {
    if reset == Some("1") then (ResetStats(e), None)
    else (e, Some(Render(Snapshot(e), FormatOf(format))))
  }

  /**
   * The inner loop of the shutdown drain, `overflow_one` while the queue's
   * depth is not zero: every payload of the queue is evicted.
   */
  function DrainQueue(e: EngineState, name: string): (r: EngineState)
    requires Valid(e) && name in e.queues
    ensures Valid(r) && OthersUnchanged(e, r, name) && PhantomBytes(r) == PhantomBytes(e)
    ensures r.queues[name].entries == [] && r.queues[name].depth == 0
    ensures r.queues[name] == e.queues[name].(entries := [], depth := 0)
    ensures r.log == e.log + (if e.logOpen then Lines(e.queues[name].entries) else "")
    ensures r.nOverflow == e.nOverflow + |e.queues[name].entries|
    ensures r.totalDepth + |e.queues[name].entries| == e.totalDepth
    ensures r == e.(queues := r.queues, totalDepth := r.totalDepth, nBytes := r.nBytes,
                    nOverflow := r.nOverflow, log := r.log)
  {
    assert e.queues[name].entries[..|e.queues[name].entries|] == e.queues[name].entries;
    EvictPrefix(e, name, |e.queues[name].entries|)
  }

  /** The payloads of the queues under `names`, each as `Lines`, queue after queue. */
  function AllLines(qs: map<string, NamedQueue>, names: seq<string>): string
  {
    if names == [] then ""
    else (if names[0] in qs then Lines(qs[names[0]].entries) else "") + AllLines(qs, names[1..])
  }

  lemma {:induction false} AllLinesIgnoresOthers(qs: map<string, NamedQueue>, names: seq<string>, n: string, q: NamedQueue)
    requires n !in names
    ensures AllLines(qs[n := q], names) == AllLines(qs, names)
  {
    if names != [] {
      AllLinesIgnoresOthers(qs, names[1..], n, q);
    }
  }

  /** Every name in `names` is registered. */
  predicate AllRegistered(e: EngineState, names: seq<string>)
  {
    forall i :: 0 <= i < |names| ==> names[i] in e.queues
  }

  /**
   * The outer loop of the shutdown drain over `names`: drain each queue; with
   * `closeEach` the log handle is closed after every queue, as the source
   * does, otherwise it is left as it is.
   */
  function DrainFrom(e: EngineState, names: seq<string>, closeEach: bool): (r: EngineState)
    requires Valid(e) && AllRegistered(e, names)
    ensures Valid(r) && r.order == e.order && r.queues.Keys == e.queues.Keys
    decreases |names|
  {
    if names == [] then e
    else
      var e1 := DrainQueue(e, names[0]);
      DrainFrom(if closeEach then e1.(logOpen := false) else e1, names[1..], closeEach)
  }

  /** Every name from position i of the registry order on is registered. */
  lemma OrderRegistered(e: EngineState, i: nat)
    requires Valid(e) && i <= |e.order|
    ensures AllRegistered(e, e.order[i..])
  {
    forall j | 0 <= j < |e.order[i..]| ensures e.order[i..][j] in e.queues {
      assert e.order[i..][j] == e.order[i + j];
    }
  }

  /** Closing the log handle keeps the bookkeeping. */
  lemma CloseKeepsValid(e: EngineState)
    requires Valid(e)
    ensures Valid(e.(logOpen := false))
  {
  }

  /** One step of the drain: the first queue, then the rest. */
  lemma DrainFromStep(e: EngineState, names: seq<string>, closeEach: bool)
    requires Valid(e) && AllRegistered(e, names) && names != []
    ensures var e1 := DrainQueue(e, names[0]);
      && AllRegistered(e1, names[1..])
      && DrainFrom(e, names, closeEach) == DrainFrom(if closeEach then e1.(logOpen := false) else e1, names[1..], closeEach)
  {
  }

  lemma TailHasNoDuplicates(names: seq<string>)
    requires NoDuplicates(names) && names != []
    ensures NoDuplicates(names[1..]) && names[0] !in names[1..]
  {
    forall j | 0 <= j < |names[1..]| ensures names[1..][j] != names[0] {
      assert names[1..][j] == names[j + 1];
    }
  }

  /**
   * Draining the queues under `names` empties each of them, leaves every
   * other queue as it was and touches no counter but `total_depth`,
   * `n_bytes` and `n_overflow`.
   */
  lemma {:induction false} DrainFromQueues(e: EngineState, names: seq<string>, closeEach: bool)
    requires Valid(e) && AllRegistered(e, names) && NoDuplicates(names)
    ensures var r := DrainFrom(e, names, closeEach);
      && (forall n :: n in names ==> r.queues[n].entries == [])
      && (forall n :: n in e.queues && n !in names ==> r.queues[n] == e.queues[n])
      && r.nPuts == e.nPuts && r.nGets == e.nGets && r.totalDepthHighWater == e.totalDepthHighWater
      && r.maxDepth == e.maxDepth && r.maxBytes == e.maxBytes
    decreases |names|
  {
    if names != [] {
      TailHasNoDuplicates(names);
      var e1 := DrainQueue(e, names[0]);
      DrainFromQueues(if closeEach then e1.(logOpen := false) else e1, names[1..], closeEach);
    }
  }

  /** Draining the queues under `names` counts each of their payloads once as overflow. */
  lemma {:induction false} DrainFromCounts(e: EngineState, names: seq<string>, closeEach: bool)
    requires Valid(e) && AllRegistered(e, names) && NoDuplicates(names)
    ensures var r := DrainFrom(e, names, closeEach);
      && PhantomBytes(r) == PhantomBytes(e)
      && r.nOverflow == e.nOverflow + Total(e.queues, names, Depth)
      && r.totalDepth + Total(e.queues, names, Depth) == e.totalDepth
    decreases |names|
  {
    if names != [] {
      var n, rest := names[0], names[1..];
      TailHasNoDuplicates(names);
      var e1 := DrainQueue(e, n);
      DrainFromCounts(if closeEach then e1.(logOpen := false) else e1, rest, closeEach);
      TotalIgnoresOthers(e.queues, rest, n, e1.queues[n], Depth);
    }
  }

  /**
   * What the drain of the source writes to the log: only the first queue's
   * payloads, because the handle is closed after that queue.
   */
  lemma {:induction false} DrainFromLogClosing(e: EngineState, names: seq<string>)
    requires Valid(e) && AllRegistered(e, names)
    ensures var r := DrainFrom(e, names, true);
      && r.logOpen == (e.logOpen && names == [])
      && r.log == e.log + (if e.logOpen && names != [] then Lines(e.queues[names[0]].entries) else "")
    decreases |names|
  {
    if names != [] {
      var e2 := DrainQueue(e, names[0]).(logOpen := false);
      DrainFromLogClosing(e2, names[1..]);
      assert DrainFrom(e, names, true) == DrainFrom(e2, names[1..], true);
    }
  }

  /**
   * With the handle left open, the drain logs every queue's payloads, queue
   * after queue, each in FIFO order.
   */
  lemma {:induction false} DrainFromLogOpen(e: EngineState, names: seq<string>)
    requires Valid(e) && AllRegistered(e, names) && NoDuplicates(names)
    ensures var r := DrainFrom(e, names, false);
      && r.logOpen == e.logOpen
      && r.log == e.log + (if e.logOpen then AllLines(e.queues, names) else "")
    decreases |names|
  {
    if names != [] {
      var n, rest := names[0], names[1..];
      TailHasNoDuplicates(names);
      var e1 := DrainQueue(e, n);
      DrainFromLogOpen(e1, rest);
      assert AllLines(e1.queues, rest) == AllLines(e.queues, rest) by {
        AllLinesIgnoresOthers(e.queues, rest, n, e1.queues[n]);
      }
      if e.logOpen {
        var a, b := Lines(e.queues[n].entries), AllLines(e.queues, rest);
        calc {
          DrainFrom(e, names, false).log;
          DrainFrom(e1, rest, false).log;
          (e.log + a) + b;
          { ConcatAssoc(e.log, a, b); }
          e.log + (a + b);
          e.log + AllLines(e.queues, names);
        }
      }
    }
  }

  /**
   * The shutdown drain of `main`: only when a log handle is open, drain every
   * registered queue in registry order, closing the handle after each queue.
   */
  function Shutdown(e: EngineState): (r: EngineState)
    requires Valid(e)
    ensures Valid(r)
  {
    if e.logOpen then DrainFrom(e, e.order, true) else e
  }

  /** The shutdown drain as evidently intended: the handle is closed once, after all queues are drained. */
  function ShutdownCorrected(e: EngineState): (r: EngineState)
    requires Valid(e)
    ensures Valid(r) && !r.logOpen
  {
    if e.logOpen then DrainFrom(e, e.order, false).(logOpen := false) else e
  }
}
