# simplequeue and the simplehttp option parser in Dafny

This project models two parts of simplehttp.

**simplequeue** is an HTTP server that keeps named FIFO queues of string
payloads. It has four handlers:

- `/put` appends a payload to a queue, creating the queue on first use.
- `/get` takes the oldest payload of a queue.
- `/dump` lists a queue without changing it.
- `/stats` reports or resets the counters, as JSON or as text.

A depth limit (`max_depth`) and a byte limit (`max_bytes`), read from the options `--max_depth` and `--max_bytes`, bound the server (but see Findings, row 3).
When a put exceeds either limit, payloads are evicted from the head of the queue just written to.
Each evicted payload is appended to an overflow log, followed by a newline.
At shutdown, when a log file is open, the queues are drained to it (see Findings, row 2, for what actually reaches it).

**The option parser** holds a table of named options.
Each option is a bool, a string or an int, and may be required.
Its parser accepts arguments of the form `--name=value` only.
After parsing, the program reads an option's value back, or its default if the option was not given.

## How the model is built

Each source file has a pure model and an imperative class that is proved against it.

- `QueueModel` (queue_model.dfy) holds the globals of simplequeue.c as one value, `EngineState`.
  Every handler is a function from the state before to the state after and its reply.
- `QueueEngine.Engine` (queue_engine.dfy) has the same globals as fields.
  Its methods update them step by step, with the loops of the C code.
  Each method is proved to reach the state the matching model function computes.
- `QueueProperties` (queue_properties.dfy) states what holds across operations:
  - a put's effect;
  - the capacity limits, kept in every reachable state;
  - FIFO order;
  - dump against get;
  - agreement of the two stats formats;
  - the shutdown drain.
- `QueueFindings` (queue_findings.dfy) exhibits the two queue defects listed under Findings, and proves the corrected operations.
- `OptionsModel` (options_model.dfy) models argument splitting, bool parsing, the parse loop, the lookups and the define functions on a `map` from names to records.
- `OptionParser.OptionTable` (options_parser.dfy) runs `option_parse_command_line` in place on that table.
  It is proved to compute `OptionsModel.Parse`.

**Environment.**

- The overflow log is modelled as the string written to it.
- Whether its handle is open is a flag.
- `atoi` is passed to the parser as a function parameter.
- The registry is iterated in insertion order, so the registry is a map plus the order of its names.

**Where the code does something other than what its comments, its names or the rest of the code suggest, the model follows the code.**

- `get` leaves the payload's size in `n_bytes`, although `overflow_one` subtracts it (Findings, row 1).
- Each queue's own `puts` count is set to 0 when the queue is created and never raised.
  `QueueProperties.RunKeepsQueuePutsZero` proves that stats reports 0 for every queue.
  So the global put count, which `put` does raise, is not the sum of the per-queue ones.
- The comment above `option_parse_command_line` advertises these argument forms:
  - `-p value` and `-p=value`;
  - `--port value`;
  - a bare `--debug` meaning true.

  The code rejects all of them: every argument must start with `--` and contain `=`.
  The model follows the code.
- The capacity loop of `put` has no exit for an empty queue.
  The model's loop stops there.
  `QueueProperties.Reachable` proves this makes no difference from any state a server reaches.
  Every put then ends within the limits, so the C loop always ends too.

## Model

| member | source | states |
|---|---|---|
| QueueModel.Init | simplequeue/simplequeue.c:28-39 | At start-up, all of the following hold: <ul><li>no queue is registered;</li><li>every counter is 0;</li><li>no limit is exceeded;</li><li>the log is empty;</li><li>the limits and log handle are as configured.</li></ul> |
| QueueModel.GetOrCreateQueue | simplequeue/simplequeue.c:41-55 | A registered name leaves the state unchanged. A new name is registered last with an empty queue whose counters are all 0. No other queue or counter changes. |
| QueueModel.Enqueue | simplequeue/simplequeue.c:218-231 | The payload goes to the tail. The queue's depth, `total_depth` and `n_bytes` grow by 1, 1 and the payload size. Both high-water marks become the maximum of the old mark and the new depth. Other queues are untouched. |
| QueueModel.OverflowOne | simplequeue/simplequeue.c:74-90 | An empty queue is left alone. Otherwise the head leaves the queue and is written with a newline to the log if the handle is open. `n_bytes`, `total_depth` and the depth drop by its size, 1 and 1; `n_overflow` grows by 1. |
| QueueModel.EvictPrefix | simplequeue/simplequeue.c:74-90 | k evictions from one queue: the first k payloads are removed and logged in order, and all counters account for them. Other queues and the bookkeeping are kept. |
| QueueModel.OverflowOneStep | simplequeue/simplequeue.c:232-235 | One more `overflow_one` after j evictions gives the state after j + 1 evictions. |
| QueueModel.OverLimitsAfterEvicting | simplequeue/simplequeue.c:232-233 | The loop condition after j evictions can be read off the state before the loop. |
| QueueModel.EvictionCount | simplequeue/simplequeue.c:232-235 | The loop stops either at the first count where no limit is exceeded or when the queue is exhausted. |
| QueueModel.EvictionCountMinimal | simplequeue/simplequeue.c:232-235 | The loop never evicts while the limits are kept. |
| QueueModel.Evict | simplequeue/simplequeue.c:232-235 | The capacity loop touches only its own queue. It changes only that queue's list and depth, the depth, byte and overflow counters, and the log. It keeps the bookkeeping and the bytes no payload accounts for. |
| QueueModel.Appended | simplequeue/simplequeue.c:200-231 | The part of put before the loop keeps the bookkeeping and registers the queue. |
| QueueModel.Put | simplequeue/simplequeue.c:190-237 | The reply is Accepted exactly when the request has a payload. Without a payload, only `n_puts` changes. The bookkeeping is kept. |
| QueueModel.TakeHead | simplequeue/simplequeue.c:176-184 | The queue's get count grows by 1. A non-empty queue loses its head, which is the reply, and `total_depth` drops by 1. An empty queue replies None. `n_bytes` is unchanged, so the bytes no payload accounts for grow by the payload's size. |
| QueueModel.Get | simplequeue/simplequeue.c:155-188 | `n_gets` always grows by 1 and `n_bytes` never changes. An unknown queue name leaves everything else unchanged and replies None; it is not registered. |
| QueueModel.GetCorrected | simplequeue/simplequeue.c:176-184 | Same reply and state as `get`, except that `n_bytes` loses the size of the payload taken. The bytes no payload accounts for are unchanged. |
| QueueModel.Dump | simplequeue/simplequeue.c:239-261 | An unknown queue gives an empty reply. A known queue gives one line per payload: the reply length is the payload bytes plus one newline each. |
| QueueModel.Snapshot | simplequeue/simplequeue.c:110-147 | The six reported globals are `n_puts`, `n_gets`, `total_depth`, `total_depth_high_water`, `n_bytes` and `n_overflow`. There is one row per registered queue, in registry order, with that queue's counters. The reported depth is the sum of the queue depths. |
| QueueModel.ResetStats | simplequeue/simplequeue.c:103-106 | `total_depth_high_water`, `n_puts` and `n_gets` become 0. Nothing else changes, so the limit check and the bookkeeping are unaffected. |
| QueueModel.AllQueueFields | simplequeue/simplequeue.c:121-132 | Four numbers per queue, block i belonging to queue i. |
| QueueModel.Render | simplequeue/simplequeue.c:110-147 | The six globals come first, in print order, then each queue's block of four numbers in registry order. |
| QueueModel.Stats | simplequeue/simplequeue.c:92-153 | There is no body exactly when `reset=1`, and then the state is the reset one. Otherwise the state is unchanged and the body is the snapshot rendered in the requested format (JSON only for `format=json`). |
| QueueModel.DrainQueue | simplequeue/simplequeue.c:316-318 | The queue ends empty with depth 0, with its request counters and high-water mark kept. All its payloads are logged in order if the handle is open and counted as overflow. `total_depth` drops by their number. |
| QueueModel.DrainFrom | simplequeue/simplequeue.c:315-320 | The registry and its order are kept, and so is the bookkeeping. |
| QueueModel.DrainFromQueues | simplequeue/simplequeue.c:315-320 | Every drained queue ends empty and every other queue is unchanged. The request counters, high-water mark and limits are kept. |
| QueueModel.DrainFromCounts | simplequeue/simplequeue.c:315-320 | Each drained payload is counted once in `n_overflow` and removed once from `total_depth`. |
| QueueModel.DrainFromLogClosing | simplequeue/simplequeue.c:315-320 | Closing after each queue logs only the first queue's payloads and leaves the handle closed. |
| QueueModel.DrainFromLogOpen | simplequeue/simplequeue.c:315-320 | Leaving the handle open logs every queue's payloads, queue after queue. |
| QueueModel.Shutdown | simplequeue/simplequeue.c:314-321 | The shutdown drain keeps the bookkeeping. Its effect is stated by `QueueProperties.ShutdownAsWritten`. |
| QueueModel.ShutdownCorrected | simplequeue/simplequeue.c:314-321 | The corrected drain keeps the bookkeeping and ends with the handle closed. |
| QueueEngine.Engine.constructor | simplequeue/simplequeue.c:28-39 | The globals start as `QueueModel.Init` with the configured limits. |
| QueueEngine.Engine.GetOrCreateQueue | simplequeue/simplequeue.c:41-55 | Updates the registry in place to `QueueModel.GetOrCreateQueue`. |
| QueueEngine.Engine.OverflowOne | simplequeue/simplequeue.c:74-90 | Updates the globals in place to `QueueModel.OverflowOne`. |
| QueueEngine.Engine.Put | simplequeue/simplequeue.c:190-237 | The new state and reply are `QueueModel.Put` of the old state. |
| QueueEngine.Engine.Enqueue | simplequeue/simplequeue.c:218-231 | Updates the globals in place to `QueueModel.Enqueue`. |
| QueueEngine.Engine.EvictWhileOverLimits | simplequeue/simplequeue.c:232-235 | The while loop of `overflow_one` calls reaches `QueueModel.Evict`. |
| QueueEngine.Engine.Get | simplequeue/simplequeue.c:155-188 | The new state and reply are `QueueModel.Get` of the old state. |
| QueueEngine.Engine.TakeHead | simplequeue/simplequeue.c:176-184 | Updates the globals in place to `QueueModel.TakeHead`. |
| QueueEngine.Engine.Dump | simplequeue/simplequeue.c:253-258 | The loop over the queue builds exactly `QueueModel.Dump` and changes nothing. |
| QueueEngine.Engine.ResetStats | simplequeue/simplequeue.c:103-106 | Updates the globals in place to `QueueModel.ResetStats`. |
| QueueEngine.Engine.Snapshot | simplequeue/simplequeue.c:110-147 | The loop over the registry collects exactly `QueueModel.Snapshot`. |
| QueueEngine.Engine.Stats | simplequeue/simplequeue.c:92-153 | The new state and body are `QueueModel.Stats` of the old state. |
| QueueEngine.Engine.Shutdown | simplequeue/simplequeue.c:314-321 | The drain reaches `QueueModel.Shutdown`. |
| QueueEngine.Engine.DrainAll | simplequeue/simplequeue.c:315-320 | The loop over the registry reaches `QueueModel.DrainFrom` with a close after each queue. |
| QueueEngine.Engine.DrainAndClose | simplequeue/simplequeue.c:316-319 | The `while (queue->depth)` loop followed by `fclose` gives `QueueModel.DrainQueue` with the handle closed. |
| QueueProperties.PutEffect | simplequeue/simplequeue.c:218-235 | A put with a payload ends with the queue as its old list plus the payload, minus some k head payloads. Those k are counted as overflow and logged in order. Each was evicted while a limit was exceeded. |
| QueueProperties.AppendedRegisters | simplequeue/simplequeue.c:216 | The queue is registered, last when new; other queues are unchanged. |
| QueueProperties.AppendedQueue | simplequeue/simplequeue.c:218-231 | The queue gains the payload at its tail. Its depth and high-water mark are raised. |
| QueueProperties.AppendedCounters | simplequeue/simplequeue.c:200-228 | Of the globals, only `n_puts`, `n_bytes`, `total_depth` and the high-water mark change before the loop, and by the stated amounts. |
| QueueProperties.PutEndsWithinLimitsOrEmpty | simplequeue/simplequeue.c:232-235 | After a put, no limit is exceeded or its queue is empty. |
| QueueProperties.PutRegisters | simplequeue/simplequeue.c:216 | A put registers its queue, last when it is new. |
| QueueProperties.PutKeepsOthers | simplequeue/simplequeue.c:190-237 | A put changes no other queue. `n_puts` grows by 1. `n_gets`, the limits, the handle and the unaccounted bytes are kept. |
| QueueProperties.PutHighWater | simplequeue/simplequeue.c:226-231 | The high-water marks record the depths reached by the append, even if the loop then evicts. |
| QueueProperties.PutKeepsLimits | simplequeue/simplequeue.c:232-235 | From a state within the limits, a put ends within the limits. |
| QueueProperties.GetKeepsLimits | simplequeue/simplequeue.c:155-188 | From a state within the limits, a get ends within the limits. |
| QueueProperties.Step | simplequeue/simplequeue.c:307-310 | Every handler keeps the bookkeeping. |
| QueueProperties.StepKeepsLimits | simplequeue/simplequeue.c:307-310 | Every handler keeps the limits. |
| QueueProperties.RunKeepsLimits | simplequeue/simplequeue.c:307-311 | Any sequence of requests keeps the limits. |
| QueueProperties.StepKeepsQueuePutsZero | simplequeue/simplequeue.c:190-231 | No handler raises a queue's own put count. |
| QueueProperties.RunKeepsQueuePutsZero | simplequeue/simplequeue.c:41-55 | A queue's own put count stays at the 0 it is created with. |
| QueueProperties.Reachable | simplequeue/simplequeue.c:284-311 | Every state reached from start-up is within the configured limits and reports 0 puts per queue. |
| QueueProperties.RunKeepsConfig | simplequeue/simplequeue.c:291-292 | Requests never change the limits. |
| QueueProperties.PutUnlimited | simplequeue/simplequeue.c:232-235 | Without limits, a put only appends. Nothing is evicted or logged. |
| QueueProperties.PutAllAppends | simplequeue/simplequeue.c:218-222 | Without limits, successive puts append their payloads in order. |
| QueueProperties.GetAll | simplequeue/simplequeue.c:155-188 | n gets give n replies. |
| QueueProperties.GetAllTakes | simplequeue/simplequeue.c:177-184 | n gets reply with the first n payloads, head first, and remove them. |
| QueueProperties.Fifo | simplequeue/simplequeue.c:222 | Payloads put at the tail of an empty queue come back from gets in the order they were put. |
| QueueProperties.DumpThenGet | simplequeue/simplequeue.c:253-258 | A dump is the payload of a get, then a newline, then the dump of the state the get leaves. |
| QueueProperties.DumpAfterPut | simplequeue/simplequeue.c:255-257 | Without limits, a put adds its payload and a newline at the end of the dump. |
| QueueProperties.ResetOnlyClearsThree | simplequeue/simplequeue.c:103-106 | After a reset, stats differ only in the global puts, gets and depth high-water mark, which read 0. |
| QueueProperties.QueueFieldsAgree | simplequeue/simplequeue.c:127-146 | One queue's JSON object and text line carry the same four numbers. |
| QueueProperties.AllQueueFieldsAgree | simplequeue/simplequeue.c:121-147 | All queues' numbers agree between the two formats. |
| QueueProperties.RenderingsAgree | simplequeue/simplequeue.c:110-147 | Both formats print the same six globals in the same order. For each queue, in the same order, they print the same four numbers. |
| QueueProperties.RenderingsSameFields | simplequeue/simplequeue.c:110-147 | Both replies hold the same labelled numbers. |
| QueueProperties.ShutdownAsWritten | simplequeue/simplequeue.c:314-321 | With an open log, the drain empties every queue, counts every payload as overflow and sets `total_depth` to 0. Only the first queue's payloads reach the log. Without a log, nothing happens. |
| QueueProperties.ShutdownCorrectedLogsAll | simplequeue/simplequeue.c:314-321 | The corrected drain empties every queue the same way and logs all payloads, queue after queue. |
| QueueProperties.PutNoEviction | simplequeue/simplequeue.c:232-235 | A put whose append keeps the limits evicts nothing. |
| QueueProperties.PutAtDepthLimit | simplequeue/simplequeue.c:223-235 | With only a depth limit and the total depth at the limit, a put evicts exactly the oldest payload of its own queue. The high-water marks then exceed the limit by one. |
| QueueFindings.PhantomBytesStarve | simplequeue/simplequeue.c:177-184 | Once the bytes left behind by gets reach `max_bytes`, every non-empty put empties its queue. |
| QueueFindings.NonEmptyExceeds | simplequeue/simplequeue.c:232-233 | With `max_bytes` or more bytes counted that no payload accounts for, a queue whose last payload is non-empty exceeds the byte limit. |
| QueueFindings.PutThenGet | simplequeue/simplequeue.c:177-184 | A put then a get of a one-byte payload leaves one byte counted that no payload accounts for. |
| QueueFindings.PhantomBytesExample | simplequeue/simplequeue.c:177-184 | Take `max_bytes` 1 and the requests put a, get, put b. The get returns a; b is then evicted to the log at once, although its queue is empty. |
| QueueFindings.PutOntoPhantomByte | simplequeue/simplequeue.c:232-235 | With one phantom byte and `max_bytes` 1, a one-byte put is evicted immediately. |
| QueueFindings.StepCorrected | simplequeue/simplequeue.c:307-310 | Same as `Step`, except that get is served by `GetCorrected`. |
| QueueFindings.RunCorrectedExact | simplequeue/simplequeue.c:177-184 | With the corrected get, `n_bytes` equals the size of the resident payloads after any sequence of requests. |
| QueueFindings.PhantomBytesExampleCorrected | simplequeue/simplequeue.c:177-184 | With the corrected get, the same three requests keep b queued and log nothing. |
| QueueFindings.ShutdownLosesLaterQueues | simplequeue/simplequeue.c:319 | As written, a later queue's non-empty payloads never reach the log. The corrected drain writes them after the first queue's. |
| OptionsModel.IndexOf | simplehttp/options.c:63-67 | `strchr` finds the first occurrence of the character, or reports none exactly when the character is absent. |
| OptionsModel.SplitArgument | simplehttp/options.c:57-68 | An argument is refused exactly when it does not start with `--` or has no `=`. Otherwise it splits into a name without `=` and a value, which rebuild the argument. |
| OptionsModel.SplitJoin | simplehttp/options.c:63-76 | Splitting `--name=value`, for a name without `=`, gives back the name and the value. |
| OptionsModel.ParseBoolMeans | simplehttp/options.c:91-98 | A bool value is accepted exactly when it reads `true` or `false` ignoring case, and it means that. |
| OptionsModel.ApplyValue | simplehttp/options.c:79-118 | A value is refused only by a bool option that cannot read it. Otherwise `found` grows by 1, the definition is kept, and the record holds the value as its type reads it. Only a string option changes `value_str`; string and float options keep `value_int`. |
| OptionsModel.ApplyArgument | simplehttp/options.c:54-118 | Applying an argument keeps every definition and adds no option. |
| OptionsModel.ParseFrom | simplehttp/options.c:54-128 | Parsing keeps the definitions. Success implies that every required option was found. |
| OptionsModel.Parse | simplehttp/options.c:46-129 | The same, skipping the program name. |
| OptionsModel.ParseVerdict | simplehttp/options.c:54-128 | Parsing returns 1 exactly when every argument is acceptable and every required option ends up found. |
| OptionsModel.LastValue | simplehttp/options.c:79-89 | There is no last value exactly when no argument names the option. |
| OptionsModel.ParseRecords | simplehttp/options.c:79-118 | After a successful parse, `found` has grown by the number of arguments naming the option. The option carries the last value given. Options never named keep their values. Only string options change `value_str`, and string and float options keep `value_int`. |
| OptionsModel.ParseThenGet | simplehttp/options.c:134-154 | After a successful parse, `option_get_int` of an int option gives `atoi` of its last value, and of a bool option 1 or 0 as that value reads. `option_get_str` of a string option gives that value, and of any other named option its unchanged `value_str`. Unnamed options give their defaults. |
| OptionsModel.ParseKeepsUndefined | simplehttp/options.c:134-154 | A name that was never defined stays undefined through a parse: `option_get_int` gives -1 for it and `option_get_str` gives NULL. |
| OptionsModel.NewOption | simplehttp/options.c:156-180 | Nothing is built for a name already in the table. Otherwise the record has the given type, `required` and help, with `found`, `value_int` and `default_int` 0 and `value_str` and `default_str` NULL. |
| OptionsModel.NewOptionReadsDefaults | simplehttp/options.c:156-180 | A new record, once in a table, reads back 0 and NULL. A table holding a new required option fails the required-option check until an argument names it. |
| OptionsModel.DefineInt | simplehttp/options.c:182-190 | Returns -1 for a defined name and 1 otherwise. On 1, it builds an int record whose `required` and help are the arguments, with `found`, `value_int` and `value_str` empty (0 or NULL), `default_int` the default and `default_str` NULL. It reads back its default. |
| OptionsModel.DefineStr | simplehttp/options.c:192-202 | Returns -1 for a defined name and 1 otherwise. On 1, it builds a string record whose `required` and help are the arguments, with `found`, `value_int`, `value_str` and `default_int` empty (0 or NULL) and `default_str` the default, which may be NULL. It reads back its default. |
| OptionsModel.DefineBool | simplehttp/options.c:204-212 | Returns -1 for a defined name and 1 otherwise. On 1, it builds a bool record whose `required` and help are the arguments, with `found`, `value_int` and `value_str` empty (0 or NULL), `default_int` the default and `default_str` NULL. It reads back its default. |
| OptionsModel.EmptyTableRefusesArguments | simplehttp/options.c:70-75 | On the empty table, parsing changes nothing. It succeeds exactly when no argument follows the program name. |
| OptionsModel.DefinedOptionStaysUnknown | simplehttp/options.c:182-190 | As written, a successful define leaves `--name=value` unknown to the parser. |
| OptionsModel.DefineIntCorrected | simplehttp/options.c:182-190 | The corrected define returns the same code and inserts the record exactly when it returns 1. |
| OptionsModel.RequiredOptionMustBeGiven | simplehttp/options.c:121-127 | After the corrected define of a required int option, any command line that does not name it fails to parse. |
| OptionsModel.DefinedOptionParses | simplehttp/options.c:182-190 | After the corrected define, `--name=value` parses and reads back as `atoi(value)`, and a second define is refused. |
| OptionParser.OptionTable.constructor | simplehttp/options.c:34 | The table starts as given. |
| OptionParser.OptionTable.ParseCommandLine | simplehttp/options.c:46-129 | The loop over `argv` and then the required-option check leave the table and the verdict that `OptionsModel.Parse` computes. |
| OptionParser.OptionTable.ApplyArgument | simplehttp/options.c:55-118 | The loop body accepts exactly the arguments `OptionsModel.ApplyArgument` accepts. An accepted argument updates the table to its result; a refused one changes nothing. |
| OptionParser.OptionTable.RequiredFound | simplehttp/options.c:121-128 | The walk over the table answers exactly whether every required option was found. |

## Left out

- libevent request plumbing is not modelled: query parsing, reply codes and the reply buffers. Requests are values carrying their query arguments, and replies are return values.
- `printf` formatting, the text line's `%20s` padding and JSON punctuation are not modelled. A stats reply is modelled as the list of labelled numbers in print order.
- `hup_handler`, signals, `fopen` and `fwrite` are not modelled. The log is the string written to it. A write while no handle is open is dropped in the model; in C it passes a NULL or closed `FILE *`, which is undefined behaviour.
- The counters are modelled as unbounded integers. `uint64_t` and `size_t` wrap-around, the `(size_t)` and `(uint64_t)` casts of the limits, and `%ld` printing of `n_bytes` are not modelled.
- `malloc` failure, `strdup` and the uthash internals are not modelled. The registry and the option table are maps, and hash iteration order is modelled as insertion order.
- A `struct NamedQueue` is shared through its pointer in the source. In the model it is a value in the registry map, which the handlers reassign.
- `QueueModel.Evict`: the loop stops on an empty queue, while the C loop has no such exit. `QueueProperties.Reachable` shows the exit is never taken while a limit is exceeded in a reachable state. From an arbitrary state that exceeds a limit through other queues, the C loop would not end; this is not modelled.
- Option callbacks (`cb_int`, `cb_str`) and destination pointers (`dest_int`, `dest_str`) are not modelled, including the `strdup` into `*dest_str`.
- The `*value = '\0'` write into `argv` on an unknown name is not modelled. It affects only the error message.
- The `fprintf` diagnostics of the parser are not modelled.
- `OPT_FLOAT` has no branch in the switch, so a float option only has its `found` count raised. The model does the same.
- options.h is not part of this model. `required` is a boolean that stands for `required == OPT_REQUIRED`.
- `OptionsModel.NewOption` takes the option type as a parameter, because the source leaves `option_type` unset until the define function assigns it.
- `option_help`, `free_options` and `usage` are not modelled: they only print or free.
- `main`'s set-up is modelled only as the start state `QueueModel.Init` with its limits and log flag. That set-up covers option definitions, `simplehttp_init` and callback registration.
- `OptionsModel.GetInt` and `OptionsModel.GetStr` carry no contract of their own, because one would only repeat the lookup. What they return is stated by `OptionsModel.ParseThenGet` for defined names and by `OptionsModel.ParseKeepsUndefined` for undefined ones.
- Payloads, queue names and arguments are C strings: byte strings with no embedded NUL. The model reads each as a `string` with one `char` per byte, so a payload's size (`strlen`) is its length. Multi-byte encodings and embedded NUL bytes are not modelled.

## Findings

| source | as written | input that shows it | evidently intended | confidence | as-written member | corrected member |
|---|---|---|---|---|---|---|
| simplequeue/simplequeue.c:177-184 | `get` removes the head payload and lowers `total_depth` and the queue depth, but not `n_bytes`. | An engine started with `max_bytes` 1 and no bytes counted, then put `a` (one byte), get, put `b` (one byte). The get returns `a`, but `n_bytes` stays 1, so the put of `b` exceeds the limit and `b` is evicted to the log at once, although its queue is empty. (As written, the command line cannot set `max_bytes`, because of row 3: `option_get_int` gives -1, so `max_bytes` is `(size_t)-1`. The defect shows once row 3 is corrected.) | `n_bytes -= entry->bytes` in `get`, so that `n_bytes` is the size of the resident payloads. | not executed | QueueFindings.PhantomBytesExample | QueueFindings.RunCorrectedExact |
| simplequeue/simplequeue.c:314-321 | `fclose(overflow_log_fp)` is inside the loop over queues. | An open log and two registered queues, the second non-empty. Its payloads are counted as overflow but are written after the handle is closed, so they never reach the log. | Close the handle once, after every queue is drained. | not executed | QueueFindings.ShutdownLosesLaterQueues | QueueProperties.ShutdownCorrectedLogsAll |
| simplehttp/options.c:156-180 | `new_option` builds the record but never adds it to `options` (there is no `HASH_ADD`). | `option_define_int("max_depth", ...)` returns 1, then `argv = {prog, "--max_depth=5"}`. The parser reports the unknown argument and returns 0. | Insert the new record into the table, as uthash's `HASH_ADD_KEYPTR` does for queues. | not executed | OptionsModel.DefinedOptionStaysUnknown | OptionsModel.DefinedOptionParses |
