/**
 * The queue server of `simplequeue.c` as an object. The fields are the
 * globals of the C program; every request handler is a method that updates
 * them in place, step by step as the C code does, and is proved to reach the
 * state the matching function of `QueueModel` computes. The overflow log is a
 * ghost string: the bytes the program writes to the log file.
 */
module QueueEngine {
  import opened Wrappers
  import M = QueueModel

  class Engine {
    /** The registry `named_queues`: each queue by name, and the names in registration order. */
    var queues: map<string, M.NamedQueue>
    var order: seq<string>
    var totalDepth: nat
    var totalDepthHighWater: nat
    var nPuts: nat
    var nGets: nat
    var nOverflow: nat
    var nBytes: nat
    /** The limits, fixed at start-up; 0 means no limit. */
    const maxDepth: nat
    const maxBytes: nat
    /** Whether `overflow_log_fp` is an open handle. */
    var logOpen: bool
    /** Everything written to the overflow log so far. */
    ghost var log: string

    /** The globals as one value of the functional model. */
    ghost function State(): M.EngineState
      reads this
    {
      M.EngineState(queues, order, totalDepth, totalDepthHighWater, nPuts, nGets, nOverflow, nBytes,
                    maxDepth, maxBytes, logOpen, log)
    }

    ghost predicate Valid()
      reads this
    {
      M.Valid(State())
    }

    /** Start-up: no queue, counters zero, the configured limits, and whether a log file was opened. */
    constructor (maxDepth: nat, maxBytes: nat, logOpen: bool)
      ensures Valid() && State() == M.Init(maxDepth, maxBytes, logOpen)
    {
      queues, order := map[], [];
      totalDepth, totalDepthHighWater, nPuts, nGets, nOverflow, nBytes := 0, 0, 0, 0, 0, 0;
      this.maxDepth, this.maxBytes := maxDepth, maxBytes;
      this.logOpen := logOpen;
      log := "";
    }

    /** `get_or_create_queue`: register an empty queue under `name` unless there is one. */
    method GetOrCreateQueue(name: string)
      requires Valid()
      modifies this
      ensures Valid() && State() == M.GetOrCreateQueue(old(State()), name)
    {
      ghost var r := M.GetOrCreateQueue(State(), name);
      if name !in queues {
        queues := queues[name := M.EmptyQueue];
        order := order + [name];
      }
    }

    /** `overflow_one`: evict the head of queue `name`, if any, to the log. */
    method OverflowOne(name: string)
      requires Valid() && name in queues
      modifies this
      ensures Valid() && State() == M.OverflowOne(old(State()), name)
    {
      ghost var r := M.OverflowOne(State(), name);
      var q := queues[name];
      if q.entries != [] {
        var head := q.entries[0];
        q := q.(entries := q.entries[1..], depth := q.depth - 1);
        if logOpen {
          log := log + head + "\n";
        }
        nBytes := nBytes - |head|;
        totalDepth := totalDepth - 1;
        nOverflow := nOverflow + 1;
        assert q == r.queues[name];
        queues := queues[name := q];
      }
    }

    /**
     * `put`: count the request; without a payload reply with an error;
     * otherwise append the payload to the named queue, raise the high-water
     * marks, and evict from the head of that queue while a limit is exceeded.
     */
    method Put(queueName: Option<string>, data: Option<string>) returns (status: M.PutStatus)
      requires Valid()
      modifies this
      ensures Valid() && (State(), status) == M.Put(old(State()), queueName, data)
    {
      ghost var e := State();
      nPuts := nPuts + 1;
      assert State() == e.(nPuts := e.nPuts + 1);
      if data.None? {
        return M.MissingData;
      }
      var name := M.QueueName(queueName);
      GetOrCreateQueue(name);
      Enqueue(name, data.value);
      assert State() == M.Appended(e, name, data.value);
      EvictWhileOverLimits(name);
      status := M.Accepted;
    }

    /** The middle of `put`: append the payload at the tail and raise the counters and high-water marks. */
    method Enqueue(name: string, payload: string)
      requires Valid() && name in queues
      modifies this
      ensures Valid() && State() == M.Enqueue(old(State()), name, payload)
    {
      ghost var r := M.Enqueue(State(), name, payload);
      var q := queues[name];
      q := q.(entries := q.entries + [payload], depth := q.depth + 1);
      nBytes := nBytes + |payload|;
      totalDepth := totalDepth + 1;
      if totalDepth > totalDepthHighWater {
        totalDepthHighWater := totalDepth;
      }
      if q.depth > q.depthHighWater {
        q := q.(depthHighWater := q.depth);
      }
      queues := queues[name := q];
    }

    /**
     * The capacity loop at the end of `put`: `overflow_one` on the queue just
     * written to while a limit is exceeded. The loop also stops when the
     * queue is empty, where the C loop would go on calling `overflow_one` to
     * no effect.
     */
    method EvictWhileOverLimits(name: string)
      requires Valid() && name in queues
      modifies this
      ensures Valid() && State() == M.Evict(old(State()), name)
    {
      ghost var start := State();
      ghost var i: nat := 0;
      while ((maxDepth > 0 && totalDepth > maxDepth) || (maxBytes > 0 && nBytes > maxBytes))
        && queues[name].entries != []
        invariant i <= |start.queues[name].entries|
        invariant State() == M.EvictPrefix(start, name, i)
        invariant M.EvictionCount(start, name, i) == M.EvictionCount(start, name, 0)
        decreases |queues[name].entries|
      {
        M.OverLimitsAfterEvicting(start, name, i);
        M.OverflowOneStep(start, name, i);
        OverflowOne(name);
        i := i + 1;
      }
      M.OverLimitsAfterEvicting(start, name, i);
    }

    /**
     * `get`: count the request, then take the head of the named queue when it
     * is registered.
     */
    method Get(queueName: Option<string>) returns (payload: Option<string>)
      requires Valid()
      modifies this
      ensures Valid() && (State(), payload) == M.Get(old(State()), queueName)
    {
      nGets := nGets + 1;
      var name := M.QueueName(queueName);
      if name !in queues {
        return None;
      }
      payload := TakeHead(name);
    }

    /**
     * The part of `get` after the lookup: count the request on the queue and
     * take its head, if any. `n_bytes` is not decreased.
     */
    method TakeHead(name: string) returns (payload: Option<string>)
      requires Valid() && name in queues
      modifies this
      ensures Valid() && (State(), payload) == M.TakeHead(old(State()), name)
    {
      ghost var r := M.TakeHead(State(), name);
      var q := queues[name];
      q := q.(nGets := q.nGets + 1);
      if q.entries != [] {
        payload := Some(q.entries[0]);
        q := q.(entries := q.entries[1..], depth := q.depth - 1);
        totalDepth := totalDepth - 1;
      } else {
        payload := None;
      }
      assert q == r.0.queues[name];
      queues := queues[name := q];
    }

    /** `dump`: the named queue's payloads, each followed by a newline, without changing anything. */
    method Dump(queueName: Option<string>) returns (out: string)
      ensures out == M.Dump(State(), queueName)
    {
      out := "";
      var name := M.QueueName(queueName);
      if name in queues {
        var entries := queues[name].entries;
        for i := 0 to |entries|
          invariant out == M.Lines(entries[..i])
        {
          assert entries[..i + 1] == entries[..i] + [entries[i]];
          M.LinesAppend(entries[..i], entries[i]);
          out := out + entries[i] + "\n";
        }
        assert entries[..|entries|] == entries;
      }
    }

    /** The reset branch of `stats`. */
    method ResetStats()
      requires Valid()
      modifies this
      ensures Valid() && State() == M.ResetStats(old(State()))
    {
      totalDepthHighWater := 0;
      nPuts := 0;
      nGets := 0;
    }

    /** What the reporting branch of `stats` reads, walking the registry in order. */
    method Snapshot() returns (s: M.StatsSnapshot)
      requires Valid()
      ensures s == M.Snapshot(State())
    {
      var rows: seq<M.QueueStats> := [];
      for i := 0 to |order|
        invariant |rows| == i
        invariant forall j :: 0 <= j < i ==> rows[j] == M.QueueStatsOf(order[j], queues[order[j]])
      {
        rows := rows + [M.QueueStatsOf(order[i], queues[order[i]])];
      }
      s := M.StatsSnapshot(nPuts, nGets, totalDepth, totalDepthHighWater, nBytes, nOverflow, rows);
    }

    /** `stats`: reset the three counters when asked to, otherwise render a snapshot. */
    method Stats(reset: Option<string>, format: Option<string>) returns (body: Option<seq<M.Field>>)
      requires Valid()
      modifies this
      ensures Valid() && (State(), body) == M.Stats(old(State()), reset, format)
    {
      if reset == Some("1") {
        ResetStats();
        body := None;
      } else {
        var s := Snapshot();
        body := Some(M.Render(s, M.FormatOf(format)));
      }
    }

    /**
     * The shutdown drain of `main`: only when a log handle is open, evict
     * every payload of every queue, in registry order, to the log.
     */
    method Shutdown()
      requires Valid()
      modifies this
      ensures Valid() && State() == M.Shutdown(old(State()))
    {
      if logOpen {
        DrainAll();
      }
    }

    /**
     * The loop of the shutdown drain over the registry: drain each queue and
     * close the handle after each one, as the source does.
     */
    method DrainAll()
      requires Valid()
      modifies this
      ensures Valid() && State() == M.DrainFrom(old(State()), old(order), true)
    {
      ghost var start := State();
      var names := order;
      M.OrderRegistered(start, 0);
      for i := 0 to |names|
        invariant Valid() && order == names && M.AllRegistered(State(), names[i..])
        invariant M.DrainFrom(State(), names[i..], true) == M.DrainFrom(start, names, true)
      {
        M.DrainFromStep(State(), names[i..], true);
        DrainAndClose(names[i]);
        assert names[i..][1..] == names[i + 1..];
      }
    }

    /**
     * One round of the drain loop: `overflow_one` while the queue's depth is
     * not zero, then `fclose` on the log handle.
     */
    method DrainAndClose(name: string)
      requires Valid() && name in queues
      modifies this
      ensures Valid() && State() == M.DrainQueue(old(State()), name).(logOpen := false)
    {
      ghost var start := State();
      ghost var j: nat := 0;
      M.EvictNothing(start, name);
      while queues[name].depth != 0
        invariant j <= |start.queues[name].entries|
        invariant State() == M.EvictPrefix(start, name, j)
        decreases queues[name].depth
      {
        M.OverflowOneStep(start, name, j);
        OverflowOne(name);
        j := j + 1;
      }
      ghost var drained := State();
      assert drained == M.DrainQueue(start, name);
      M.CloseKeepsValid(drained);
      logOpen := false;
    }
  }
}
