# wart-servers: a verified model of the worker's core

wart-servers runs user programs compiled to WebAssembly in a sandbox. The
programs query a graph backend and keep per-session key-value state. This
project models, in Dafny, the sequential logic at the centre of the worker
and the C++ headers compiled into the guest:

- **Columnar shaping** (`Columnar`, `Frames`, `Imports`). A backend
  `DataFrame` becomes a row (the first value of each column) or a table (whole
  columns) of the six-kind tagged union shared with the guest.
- **Host storage state** (`HostStorage`). `Storage` is a class. Its
  `selected_nodes` and `selected_edges` frames grow in place. Its request queue
  hands out take-once reply futures.
- **The session keyspace** (`Keys`, `RedisStore`, `OpenSession`,
  `CloseSession`, `IncrementEpoch`, `UpdateStore`, `SessionLifecycle`).
  - The external store is a class `Redis` over `map<string, map<string, KvValue>>`.
  - Each handler is a method that issues the same commands in the same order as
    the source. It is proved equal to a specification function, and the
    properties are lemmas about that function.
  - A transport fault is a parameter `failAt`: the index of the first command
    of the call that fails.
- **The versioned key-value scripts** (`AtomicKv`).
  - A read at epoch E takes the newest epoch shard at or below E that holds the
    field, moves the value into shard E, and returns it.
  - `add` and `mov` write into shard E + 1.
- **Streaming runs** (`StreamingRun`). The handler is a loop over a trace of
  input events. Each event says what the sandbox, the timer and the client
  did.
- **The guest headers**:
  - `Conv`: text and number conversions.
  - `View`: typed views, sorted key lookup, and owning wrappers with move semantics.
  - `ParamUtils`: parameter marshalling.
  - `GuestOption`: a take-once optional.

  `LOG_ABORT` and `log_abort` become an `Err` carrying the logged text.

Shared pieces are `Base` (Option, Result, integer ranges), `Decimal`
(`std::to_string` and `format!` of integers), `KeyOrder` (the key order the
guest sorts and searches by) and `Rpc` (the aborted status).

Inputs the model takes as given:
- whether compilation succeeds (`compiled`);
- the generated uuid (`token`);
- whether the session configuration loads (`load`);
- each sandbox outcome and timer expiry (`Event`);
- whether the client still receives (`received`);
- whether the I/O queue is open (`queueOpen`);
- the reply the dispatcher sends (`reply`).

### Behaviour of the code worth knowing

- **`epoch` field.** `open_session` writes no `epoch` field into the session
  record. The first `increment_epoch` therefore returns 1
  (`SessionLifecycle.FirstIncrementAfterOpenIsOne`). A close right after an
  open fails on the epoch read and deletes nothing
  (`SessionLifecycle.CloseRightAfterOpenFails`).
- **Session fields.** The record holds `space_name`, `token`, `module`,
  `io_timeout` and `ex_timeout`. Every key carries the prefix `wart:`.
- **Close range.** `close_session` unlinks the shards of epochs `0..=epoch+1`
  and then the session record. It never removes the un-suffixed
  `wart:store:<token>` hash that `open_session` creates
  (`CloseSession.CloseKeepsStoreHash`).

## Model

| member | source | states |
|---|---|---|
| Columnar.FirstValue | wart-worker/src/wasm/utils.rs:14-48 | a row entry is Nil exactly when the column has no values or is empty; otherwise it is the column's first element tagged with the column's kind |
| Columnar.ColumnVector | wart-worker/src/wasm/utils.rs:66-96 | a table entry is the Nil vector exactly when the column has no values; otherwise it has the column's kind, length and elements |
| Columnar.ZipRow | wart-worker/src/wasm/utils.rs:10-13 | headers and columns are paired by position up to the shorter list; entry i has header i as key |
| Columnar.ZipTable | wart-worker/src/wasm/utils.rs:62-65 | the same pairing for tables |
| Columnar.DumpToImportsRow | wart-worker/src/wasm/utils.rs:3-53 | one entry per header/column pair in order, key = header, value = first element or Nil; nothing filtered, comment dropped |
| Columnar.DumpToImportsTable | wart-worker/src/wasm/utils.rs:55-101 | one series per pair in order, key = header, Nil vector exactly for a column without values, else the column of the same kind |
| Columnar.ColumnRoundTrip | wart-worker/src/wasm/utils.rs:66-96 | reading the vector back gives the column unchanged, empty columns included |
| Columnar.TableRoundTrip | wart-worker/src/wasm/utils.rs:55-101 | a DataFrame encoded as a table and read back has the same headers and columns up to the shorter list |
| Columnar.RowIsHeadOfTable | wart-worker/src/wasm/utils.rs:3-101 | the row entry of a column is the first element of its table entry, Nil when that vector is empty or nil |
| HostStorage.IdColumn | wart-worker/src/wasm/mod.rs:70-83 | an id list becomes a column holding exactly those ids in order: integer ids an Int64 column, text ids a String column |
| HostStorage.AppendIds | wart-worker/src/wasm/mod.rs:87-107 | ids of the column's kind are appended after the column's old contents, in order, and counted; any other kind leaves the column and counts 0 |
| HostStorage.QueryKvRequest | wart-worker/src/wasm/mod.rs:296-305 | `async_query_kv` asks for the given fields of the hash `wart:store:<token>`, which is no session record and none of the session's epoch shards |
| HostStorage.PushAll | wart-worker/src/wasm/mod.rs:90-92 | the push loop leaves the old values followed by the new ones |
| HostStorage.Storage.Instantiate | wart-worker/src/wasm/mod.rs:41-49 | a new Storage carries the manager's space name and token and has empty node and edge frames |
| HostStorage.Storage.SelectNodes | wart-worker/src/wasm/mod.rs:67-110 | the node frame and the count follow `SelectNodesSpec`; the edge frame and the queue are unchanged; the frame keeps its shape |
| HostStorage.Storage.SelectEdges | wart-worker/src/wasm/mod.rs:112-207 | the edge frame and the count follow `SelectEdgesSpec`; nothing else changes; the two edge columns keep one kind and one length |
| HostStorage.Storage.Extend | wart-worker/src/wasm/mod.rs:162-182 | one column extended in place by the ids when the kinds match |
| HostStorage.Storage.Enqueue | wart-worker/src/wasm/mod.rs:224-231 | an open queue receives the request and yields a waiting future; a closed one yields `ChannelClosed` and no handle |
| HostStorage.Storage.AsyncChoiceNodes | wart-worker/src/wasm/mod.rs:209-232 | queues a choice-nodes request for the space, or fails with `ChannelClosed` |
| HostStorage.Storage.AsyncQueryNode | wart-worker/src/wasm/mod.rs:234-262 | queues a fetch-node request, or fails with `ChannelClosed` |
| HostStorage.Storage.AsyncQueryNeighbors | wart-worker/src/wasm/mod.rs:264-294 | queues a fetch-neighbors request with its direction, or fails with `ChannelClosed` |
| HostStorage.Storage.AsyncQueryKv | wart-worker/src/wasm/mod.rs:296-315 | queues the store-hash query, or fails with `ChannelClosed` |
| HostStorage.Future.Get | wart-worker/src/wasm/mod.rs:317-328 | the first get takes the receiver and yields the reply or `ChannelDropped`; a later get yields `Empty` |
| HostStorage.Storage.GetFutureRow | wart-worker/src/wasm/mod.rs:317-328 | the row of the reply (headers dropped), `ChannelDropped`, or `Empty` on a second get |
| HostStorage.Storage.GetFutureTable | wart-worker/src/wasm/mod.rs:330-341 | the table of the reply, `ChannelDropped`, or `Empty` on a second get |
| HostStorage.GetTwice | wart-worker/src/wasm/mod.rs:321-324 | a future delivers at most once: the second get is `Empty` |
| HostStorage.SelectNodesOnEmpty | wart-worker/src/wasm/mod.rs:68-85 | on an empty frame one column of the ids' kind holding the ids in order is created, and their count returned |
| HostStorage.SelectNodesAppends | wart-worker/src/wasm/mod.rs:87-108 | on a non-empty frame matching ids are appended to column 0 and counted; a mismatch changes nothing and returns 0 |
| HostStorage.SelectNodesKeepsShape | wart-worker/src/wasm/mod.rs:67-110 | the node frame stays empty or one integer or text column |
| HostStorage.SelectEdgesRejects | wart-worker/src/wasm/mod.rs:113-124 | source and destination lists of different kinds or lengths change nothing and return 0 |
| HostStorage.SelectEdgesKeepsShape | wart-worker/src/wasm/mod.rs:126-206 | the columns stay equal in kind and length; the count is the source count when the pair is accepted and 0 otherwise |
| HostStorage.SelectEdgesAppends | wart-worker/src/wasm/mod.rs:126-206 | the first call makes the sources and destinations the two columns; later calls append the sources to the first column and the destinations to the second, in order, and count the sources |
| Keys.ShardInjective | wart-worker/src/wasm/atomic_kv.rs:13 | shards of different epochs under one prefix are different keys |
| Keys.KeysDistinct | wart-worker/src/rpc_server/services/open_session/mod.rs:37-38 | a session key is never a store or shard key, and a token's store hash is none of its shards |
| Rpc.StatusText | wart-worker/src/rpc_server/services/streaming_run/mod.rs:31-32 | a status turned into an error displays its code and message after the head "status: ", so its text is longer than the bare message |
| AtomicKv.MergeName | wart-worker/src/wasm/atomic_kv.rs:101-104 | `Add` is passed as "add" and `Mov` as "mov" |
| AtomicKv.Newest | wart-worker/src/wasm/atomic_kv.rs:12-19 | the scan from `epoch` down to 0 stops at the newest shard holding the field; none of the shards above it holds it, and None means no shard does |
| AtomicKv.QueryBase | wart-worker/src/wasm/atomic_kv.rs:7-25 | the scan loop returns the newest value or the default, deletes it from its shard and writes it into shard `epoch` |
| AtomicKv.QueryScript | wart-worker/src/wasm/atomic_kv.rs:28-37 | the query script returns the relocated value |
| AtomicKv.UpdateScript | wart-worker/src/wasm/atomic_kv.rs:38-59 | the relocation, then `add` writes value + argum and `mov` writes argum into shard `epoch + 1`; any other merge replies 0 |
| AtomicKv.AtomicQueryKv | wart-worker/src/wasm/atomic_kv.rs:62-86 | the script's value, or None with the store unchanged when the store fails |
| AtomicKv.AtomicUpdateKv | wart-worker/src/wasm/atomic_kv.rs:88-120 | the update script's reply as an i32, or None on a store error (corrected to invoke the update script) |
| AtomicKv.AtomicUpdateKvAsWritten | wart-worker/src/wasm/atomic_kv.rs:105-119 | as written, the query script runs: the read is done and nothing is written to shard `epoch + 1` |
| AtomicKv.QueryReturnsNewest | wart-worker/src/wasm/atomic_kv.rs:12-24 | a read returns the value of the newest shard at or below the epoch holding the field |
| AtomicKv.NewestUnique | wart-worker/src/wasm/atomic_kv.rs:12-19 | the shard the scan stops at is the unique newest one holding the field |
| AtomicKv.QueryRelocates | wart-worker/src/wasm/atomic_kv.rs:15-24 | after a read, shard `epoch` holds the value and the older shard it came from no longer holds the field |
| AtomicKv.QueryIdempotent | wart-worker/src/wasm/atomic_kv.rs:23-24 | a second read at the same epoch returns the same value, whatever its default, and changes nothing |
| AtomicKv.UpdateFrame | wart-worker/src/wasm/atomic_kv.rs:12-52 | an update touches only the shard the value came from, shard `epoch` and shard `epoch + 1` |
| AtomicKv.QueryKeepsOtherFields | wart-worker/src/wasm/atomic_kv.rs:12-24 | a read changes no other field of any key |
| AtomicKv.UpdateKeepsOtherFields | wart-worker/src/wasm/atomic_kv.rs:45-55 | an update changes no other field of any key |
| AtomicKv.UpdateInvisibleAtSameEpoch | wart-worker/src/wasm/atomic_kv.rs:46-52 | a read at the epoch of an update still returns the value from before it |
| AtomicKv.AddVisibleAfterCommit | wart-worker/src/wasm/atomic_kv.rs:45-49 | after `add` at epoch E, a read at E + 1 returns the old value plus the argument |
| AtomicKv.MovVisibleAfterCommit | wart-worker/src/wasm/atomic_kv.rs:50-52 | after `mov` at epoch E, a read at E + 1 returns the argument |
| AtomicKv.UnknownMergeWritesNothing | wart-worker/src/wasm/atomic_kv.rs:53-54 | any other merge string replies 0 and writes nothing beyond the read's relocation |
| AtomicKv.QueryBaseAsWritten | wart-worker/src/wasm/atomic_kv.rs:12-22 | as written, the value found is deleted from its shard, and the read of the undeclared global `value` then raises a script error: nothing is written to shard `epoch` and nothing is returned |
| AtomicKv.AtomicQueryKvAsWritten | wart-worker/src/wasm/atomic_kv.rs:62-85 | as written, every read yields None; without a connection failure the store keeps only the deletion of the value found |
| AtomicKv.ScopingLosesStoredValue | wart-worker/src/wasm/atomic_kv.rs:14-22 | shard 0 holds 5; as written, after a read at epoch 0 no shard holds the field, while the intended read returns 5 and keeps it in shard 0 |
| AtomicKv.UpdateAsWrittenLosesMov | wart-worker/src/wasm/atomic_kv.rs:105-111 | as written, a `mov` of 7 at epoch 0 is not seen at epoch 1, while the intended update is |
| UpdateStore.ToStatus | wart-worker/src/rpc_server/services/update_store/mod.rs:29-31 | every error becomes an aborted status; missing keys read "empty keys" and missing values "empty vals" |
| UpdateStore.Stored | wart-worker/src/rpc_server/services/update_store/mod.rs:100-124 | Mov writes integer and text columns only |
| UpdateStore.Delta | wart-worker/src/rpc_server/services/update_store/mod.rs:78-94 | Add uses Int32 and Int64 columns only |
| UpdateStore.Plan | wart-worker/src/rpc_server/services/update_store/mod.rs:66-128 | Del yields one delete per key; Add and Mov pair keys and values by position up to the shorter list; missing values fail with "empty vals"; an unknown merge or unused kind yields no command |
| UpdateStore.AddOps | wart-worker/src/rpc_server/services/update_store/mod.rs:78-94 | one increment per (key, integer) pair, as many as the shorter of keys and values, none for other columns |
| UpdateStore.MovOps | wart-worker/src/rpc_server/services/update_store/mod.rs:97-126 | one overwrite per (key, integer or text) pair, as many as the shorter of keys and values, none for other columns |
| UpdateStore.ApplyOp | wart-worker/src/rpc_server/services/update_store/mod.rs:69-118 | a delete or an overwrite always succeeds; only the increment can fail |
| UpdateStore.ApplyOpFrame | wart-worker/src/rpc_server/services/update_store/mod.rs:69-118 | a command leaves every key but the store hash as it was |
| UpdateStore.Run | wart-worker/src/rpc_server/services/update_store/mod.rs:65-73 | the loop counts at most the commands it was given |
| UpdateStore.RunStops | wart-worker/src/rpc_server/services/update_store/mod.rs:65-73 | a run ends, with nothing more counted, at the command whose transport fails |
| UpdateStore.RunStep | wart-worker/src/rpc_server/services/update_store/mod.rs:65-73 | a refused command ends the run; an applied one is counted and the run goes on from its store |
| UpdateStore.RunAdvances | wart-worker/src/rpc_server/services/update_store/mod.rs:65-73 | the loop's goal is unchanged by one applied command and one more count |
| UpdateStore.WriteToRedis | wart-worker/src/rpc_server/services/update_store/mod.rs:45-131 | the reply and the new store are those of `WriteToRedisSpec` |
| UpdateStore.RunCommands | wart-worker/src/rpc_server/services/update_store/mod.rs:65-73 | the loop ends with the store and the count of `Run` from the first command |
| UpdateStore.ApplyCommand | wart-worker/src/rpc_server/services/update_store/mod.rs:69-118 | the command is accepted exactly when `ApplyOp` succeeds, and the store becomes its result; a refused command changes nothing |
| UpdateStore.RunIsPrefix | wart-worker/src/rpc_server/services/update_store/mod.rs:68-73 | the loop's store is its first `ok_count` commands applied in order, and it stops only at a failing command |
| UpdateStore.ApplyAllFirst | wart-worker/src/rpc_server/services/update_store/mod.rs:68-73 | applying commands in order is the first command, then the rest |
| UpdateStore.RunApplies | wart-worker/src/rpc_server/services/update_store/mod.rs:68-73 | the loop's store is its counted commands applied in order |
| UpdateStore.RunStopsForCause | wart-worker/src/rpc_server/services/update_store/mod.rs:68-73 | the loop stops early only at a transport fault or a refused command |
| UpdateStore.RunFrame | wart-worker/src/rpc_server/services/update_store/mod.rs:65-128 | the loop changes no key but the store hash |
| UpdateStore.RunKeepsUntouchedField | wart-worker/src/rpc_server/services/update_store/mod.rs:68-123 | fields no command names keep their values |
| UpdateStore.RunWritesEachField | wart-worker/src/rpc_server/services/update_store/mod.rs:66-126 | with no faults, deletions and overwrites of distinct fields all take effect and are all counted |
| UpdateStore.NoSessionWritesNothing | wart-worker/src/rpc_server/services/update_store/mod.rs:58-63 | without the store hash the request fails with "no session" and nothing is written |
| UpdateStore.WriteToRedisBounds | wart-worker/src/rpc_server/services/update_store/mod.rs:45-131 | only `wart:store:<token>` changes; `ok_count` is at most the number of keys, and of values for Add and Mov; an error writes nothing |
| UpdateStore.UnusedKindWritesNothing | wart-worker/src/rpc_server/services/update_store/mod.rs:94-127 | an unknown merge type or a value kind the merge does not use leaves the store and reports 0 |
| UpdateStore.WriteToRedisStopsAtFirstFailure | wart-worker/src/rpc_server/services/update_store/mod.rs:65-130 | processing stops at the first failing command; the store holds exactly the commands before it |
| UpdateStore.DelRemovesEachField | wart-worker/src/rpc_server/services/update_store/mod.rs:67-74 | Del removes every listed field and counts every key |
| UpdateStore.MovSetsEachField | wart-worker/src/rpc_server/services/update_store/mod.rs:97-126 | Mov sets every listed field to its paired value and counts the pairs |
| UpdateStore.RunIncrementsUntil | wart-worker/src/rpc_server/services/update_store/mod.rs:68-93 | increments on distinct fields are carried out up to the first one the store refuses; the count is the number carried out, and that field and the later ones are untouched |
| UpdateStore.RunIncrementsEachField | wart-worker/src/rpc_server/services/update_store/mod.rs:68-93 | each field of an increment carried out holds its old integer plus its delta |
| UpdateStore.AddIncrementsEachField | wart-worker/src/rpc_server/services/update_store/mod.rs:78-93 | Add increments each listed field by its paired integer, a missing field counting as 0, up to the shorter list or the first field that is not an integer or would overflow; `ok_count` is the number of fields before it |
| OpenSession.SessionFields | wart-worker/src/rpc_server/services/open_session/mod.rs:42-50 | the session record gets exactly space_name, token, module, io_timeout and ex_timeout, and no epoch |
| OpenSession.OpenSessionImpl | wart-worker/src/rpc_server/services/open_session/mod.rs:17-67 | the reply and the new store are those of `OpenSessionSpec` |
| OpenSession.OpenSession | wart-worker/src/rpc_server/services/open_session/mod.rs:8-15 | the handler's store is that of `OpenSessionSpec`, and its reply wraps that outcome, an error becoming an aborted status with its text |
| OpenSession.OpenSessionReplies | wart-worker/src/rpc_server/services/open_session/mod.rs:8-66 | the client gets the token exactly when compilation and both store commands succeed; a compile failure is an aborted status with the compiler's message, a store failure one with the store error's text |
| OpenSession.OpenedRead | wart-worker/src/rpc_server/services/open_session/mod.rs:40-55 | after the pipeline each session field reads its batch value, `__dummy__` of the store hash reads the space name, and every other field reads as before |
| OpenSession.OpenedWritesBatch | wart-worker/src/rpc_server/services/open_session/mod.rs:40-55 | the pipeline sets every session field and `__dummy__` = space name in `wart:store:<token>` |
| OpenSession.OpenedFrame | wart-worker/src/rpc_server/services/open_session/mod.rs:40-55 | no key other than the session and store hashes changes |
| OpenSession.OpenedKeepsOtherFields | wart-worker/src/rpc_server/services/open_session/mod.rs:40-55 | other fields of those hashes are untouched |
| OpenSession.CompileFailureWritesNothing | wart-worker/src/rpc_server/services/open_session/mod.rs:25-34 | a compile failure is reported and nothing is written |
| OpenSession.OpenAllOrNothing | wart-worker/src/rpc_server/services/open_session/mod.rs:40-55 | the store is either unchanged or holds the whole batch |
| OpenSession.OpenReturnsToken | wart-worker/src/rpc_server/services/open_session/mod.rs:57-66 | the call succeeds exactly when compilation and both commands do, and then returns the token written |
| OpenSession.OpenWritesNoEpoch | wart-worker/src/rpc_server/services/open_session/mod.rs:42-53 | a fresh session record has no epoch field |
| CloseSession.StoredEpoch | wart-worker/src/rpc_server/services/close_session/mod.rs:22-25 | the epoch is read exactly when the record holds a non-negative 64-bit integer `epoch`, and is then that integer; anything else is a response-type error |
| CloseSession.ShardsBelow | wart-worker/src/rpc_server/services/close_session/mod.rs:27-28 | exactly the shard keys of the epochs below a bound |
| CloseSession.CloseSessionImpl | wart-worker/src/rpc_server/services/close_session/mod.rs:15-45 | the reply and the new store are those of `CloseSessionSpec` |
| CloseSession.CloseSession | wart-worker/src/rpc_server/services/close_session/mod.rs:6-13 | the handler's store is that of `CloseSessionSpec`, and its reply wraps that outcome, an error becoming an aborted status with its text |
| CloseSession.CloseSessionReplies | wart-worker/src/rpc_server/services/close_session/mod.rs:6-25 | the client sees success only when the epoch was read; every failure is an aborted status with the error's text, a missing or bad epoch the response-type error |
| CloseSession.UnreadableEpochDeletesNothing | wart-worker/src/rpc_server/services/close_session/mod.rs:22-25 | if the epoch cannot be read the call fails and nothing is deleted |
| CloseSession.CloseRemovesSessionAndShards | wart-worker/src/rpc_server/services/close_session/mod.rs:27-40 | a successful close removes the record and shards 0..=epoch+1, and no other key |
| CloseSession.CloseKeepsStoreHash | wart-worker/src/rpc_server/services/close_session/mod.rs:27-40 | the un-suffixed `wart:store:<token>` hash survives every close |
| CloseSession.FailedUnlinkKeepsTheRest | wart-worker/src/rpc_server/services/close_session/mod.rs:27-40 | a failing unlink stops the call; the later shards and the record remain |
| IncrementEpoch.IncrementEpochImpl | wart-worker/src/rpc_server/services/increment_epoch/mod.rs:15-29 | the reply and the new store are those of `IncrementEpochSpec` |
| IncrementEpoch.IncrementEpoch | wart-worker/src/rpc_server/services/increment_epoch/mod.rs:6-13 | the handler's store is that of `IncrementEpochSpec`, and its reply wraps that outcome, an error becoming an aborted status with its text |
| IncrementEpoch.IncrementEpochReplies | wart-worker/src/rpc_server/services/increment_epoch/mod.rs:6-29 | the client sees the stored epoch plus one, or an aborted status carrying the error's text; a lost connection is reported as such |
| IncrementEpoch.IncrementGrowsByOne | wart-worker/src/rpc_server/services/increment_epoch/mod.rs:23-28 | a successful call stores and returns the old epoch plus one |
| IncrementEpoch.IncrementTouchesOnlyEpoch | wart-worker/src/rpc_server/services/increment_epoch/mod.rs:22-26 | only the epoch field of the session record changes |
| IncrementEpoch.SuccessiveIncrementsIncrease | wart-worker/src/rpc_server/services/increment_epoch/mod.rs:23-28 | two successful calls in a row return strictly increasing epochs |
| SessionLifecycle.FirstIncrementAfterOpenIsOne | wart-worker/src/rpc_server/services/increment_epoch/mod.rs:23-26 | the first increment after an open returns 1 |
| SessionLifecycle.CloseRightAfterOpenFails | wart-worker/src/rpc_server/services/close_session/mod.rs:22-25 | closing a session that was only opened fails and deletes nothing |
| SessionLifecycle.CloseAtEpochOne | wart-worker/src/rpc_server/services/close_session/mod.rs:27-40 | a close at epoch 1 removes the record and shards 0, 1 and 2 and keeps the store hash |
| SessionLifecycle.OpenIncrementClose | wart-worker/src/rpc_server/services/open_session/mod.rs:40-55 | open, increment, close succeeds and leaves only the store hash of the session |
| StreamingRun.ConfigSpec | wart-worker/src/rpc_server/services/streaming_run/mod.rs:40-50 | a first message without data fails with "empty config", one with args with "invalid config"; success needs a config that loads |
| StreamingRun.SandboxSpec | wart-worker/src/rpc_server/services/streaming_run/mod.rs:107-131 | a run succeeds exactly for args whose sandbox is created; a trapping guest gives no tables and logs "streaming_run_sandbox: " with its trap; "empty args" and "invalid args" otherwise |
| StreamingRun.Worker | wart-worker/src/rpc_server/services/streaming_run/mod.rs:67-102 | the loop takes at most the events it is given |
| StreamingRun.Responder.StreamingRunArgs | wart-worker/src/rpc_server/services/streaming_run/mod.rs:52-105 | the messages sent and lines logged are those of `Worker`, and the clock is stopped on exit |
| StreamingRun.StreamingRunImpl | wart-worker/src/rpc_server/services/streaming_run/mod.rs:17-38 | the client's stream is that of `StreamingRunSpec` |
| StreamingRun.WorkerNoStop | wart-worker/src/rpc_server/services/streaming_run/mod.rs:67-102 | with no stopping event every event is handled, in order |
| StreamingRun.WorkerStopsAt | wart-worker/src/rpc_server/services/streaming_run/mod.rs:83-99 | the loop leaves right after the first stopping event and ignores the rest |
| StreamingRun.OnlyLastReplyIsFailure | wart-worker/src/rpc_server/services/streaming_run/mod.rs:76-100 | every message sent but the last is a successful response |
| StreamingRun.RunYieldsOneResponse | wart-worker/src/rpc_server/services/streaming_run/mod.rs:76-89 | a successful run yields exactly one response with its tables and empty logs, after the trap line of a trapped guest; a failed run logs "streaming_run_sandbox: " with its error and yields nothing |
| StreamingRun.FirstStreamErrorIsWrapped | wart-worker/src/rpc_server/services/streaming_run/mod.rs:20-32 | an error in place of the first message fails the call with an aborted status carrying the error's displayed text, not its bare message |
| StreamingRun.TrapLogsAndAnswersEmpty | wart-worker/src/rpc_server/services/streaming_run/mod.rs:117-127 | a trapped guest is answered with an empty response and its trap is logged |
| StreamingRun.TimeoutEndsStream | wart-worker/src/rpc_server/services/streaming_run/mod.rs:91-94 | a timeout sends one cancelled status and ends the stream |
| StreamingRun.LastStepReply | wart-worker/src/rpc_server/services/streaming_run/mod.rs:83-99 | the stopping event's message is the last one sent |
| StreamingRun.FirstMessage | wart-worker/src/rpc_server/services/streaming_run/mod.rs:20-50 | no first message gives an empty stream; "empty config" and "invalid config" abort; a loaded config starts the worker |
| Conv.DigitRun | wasm/include/conv.hpp:43 | the digits at the start of the text, up to the first non-digit |
| Conv.FromChars | wasm/include/conv.hpp:41-53 | a result is within the target range; "invalid argument" exactly when the text does not start with a number |
| Conv.LeadingDigitsOf | wasm/include/conv.hpp:43-53 | a run of digits followed by a non-digit reads as the run's value |
| Conv.NegativeRoundTrip | wasm/include/conv.hpp:41-53 | a minus sign before a digit run reads as the negated value, checked against the range |
| Conv.FromCharsRoundTrip | wasm/include/conv.hpp:41-69 | the decimal form of an integer followed by a non-digit parses back to it in range, else "result out of range" |
| Conv.TrailingTextIgnored | wasm/include/conv.hpp:41-69 | text after the leading number does not matter |
| Conv.TxtToBol | wasm/include/conv.hpp:15-39 | "true"/"True" and "false"/"False" prefixes give true and false; the only error is "invalid argument" |
| Conv.TxtToI32 | wasm/include/conv.hpp:41-54 | errors are those of `from_chars` into 32 bits with their texts; "invalid argument" exactly without a leading number |
| Conv.TxtToI64 | wasm/include/conv.hpp:56-69 | the same for 64 bits |
| Conv.TxtToTxt | wasm/include/conv.hpp:103-105 | the text unchanged |
| Conv.TxtToIntRoundTrip | wasm/include/conv.hpp:41-69 | both parses read back every in-range decimal form and reject the rest as out of range |
| Conv.TxtToBolOfNumber | wasm/include/conv.hpp:15-27 | a leading number is true exactly when non-zero |
| Conv.TxtToBolRejects | wasm/include/conv.hpp:29-38 | text with no number and none of the four words aborts with "invalid argument" |
| Conv.Cast | wasm/include/conv.hpp:122-124 | `static_cast` to the target keeps an in-range value and otherwise wraps modulo 2^32 |
| Conv.IntoNumber | wasm/include/conv.hpp:116-134 | bol gives 1 or 0, integers are cast, text is parsed, nil aborts |
| Conv.IntoBoolean | wasm/include/conv.hpp:136-153 | bol is itself, integers are "not zero", text goes through `txt2bol`, nil aborts |
| Conv.IntoString | wasm/include/conv.hpp:155-172 | as written: "true", "else" for false, integers in decimal, text copied, nil aborts |
| Conv.IntoStringCorrected | wasm/include/conv.hpp:155-172 | false written as "false"; otherwise the same |
| Conv.IntoStringDiffersOnFalseOnly | wasm/include/conv.hpp:158 | the two string conversions differ exactly on false |
| Conv.NumberTextRoundTrip | wasm/include/conv.hpp:116-172 | an in-range integer written as text converts back to the same number |
| Conv.NarrowingCastWrapsButParseRejects | wasm/include/conv.hpp:116-134 | 2^31 as an i64 casts to -2^31, while its text fails with "result out of range" |
| Conv.BooleanIsNonZero | wasm/include/conv.hpp:116-153 | wherever a value converts to a number, its boolean is "not zero" |
| Conv.StringThenBoolean | wasm/include/conv.hpp:136-172 | converting to text and then to a boolean agrees with converting directly |
| Conv.FalseTextIsNoBoolean | wasm/include/conv.hpp:148-158 | as written, false becomes "else", which aborts when read back as a boolean |
| Conv.CollectOk | wasm/include/conv.hpp:191-230 | a loop that finishes has one value per element, element j being the conversion of element j |
| Conv.CollectErr | wasm/include/conv.hpp:191-230 | a loop that aborts does so with the error of the first element that fails to convert |
| Conv.CollectOkIff | wasm/include/conv.hpp:191-230 | the loop finishes exactly when every element converts |
| Conv.CollectAllOk | wasm/include/conv.hpp:191-230 | when every element converts, the loop yields the list of conversions in order |
| Conv.CollectStep | wasm/include/conv.hpp:191-230 | one turn of the loop appends the converted element or aborts with its error |
| Conv.NumberResults | wasm/include/conv.hpp:180-234 | one conversion per element of the vector |
| Conv.NumbersOfOk | wasm/include/conv.hpp:180-234 | a vector converts to numbers exactly when it is not nil and every element converts; element j of the result is the number of element j |
| Conv.NumbersOfErr | wasm/include/conv.hpp:180-234 | otherwise the abort carries the error of the first element that fails |
| Conv.BooleanResults | wasm/include/conv.hpp:236-290 | one conversion per element of the vector |
| Conv.BooleansOfOk | wasm/include/conv.hpp:236-290 | the same for booleans |
| Conv.BooleansOfErr | wasm/include/conv.hpp:236-290 | the same for booleans |
| Conv.IntoNumberVector | wasm/include/conv.hpp:180-234 | the loop's result is `NumbersOf` |
| Conv.IntoBooleanVector | wasm/include/conv.hpp:236-290 | the loop's result is `BooleansOf` |
| Conv.StringsOf | wasm/include/conv.hpp:292-346 | as written: nil aborts with "invalid argument"; otherwise one text per element, element j being `__into_string` of element j, so false is "else" |
| Conv.IntoStringVector | wasm/include/conv.hpp:292-346 | the loop's result is the as-written `StringsOf` |
| Conv.StringsOfCorrected | wasm/include/conv.hpp:292-346 | the same with false written as "false" |
| Conv.StringsOfDiffersOnFalseOnly | wasm/include/conv.hpp:299 | the as-written and corrected vector conversions differ exactly on vectors holding a false |
| Conv.NumberVectorTextRoundTrip | wasm/include/conv.hpp:191-230 | an i32 vector written as text reads back as the same integers |
| Conv.StringsThenBooleans | wasm/include/conv.hpp:236-346 | with false written as "false", a vector converted to text and then to booleans gives its booleans |
| Conv.FalseVectorTextIsNoBoolean | wasm/include/conv.hpp:299 | as written, `[false]` becomes `["else"]`, which aborts when read back as booleans |
| View.AsBol | wasm/include/view.hpp:38-41 | the payload exactly when the tag is bol, else "value_type is not 'bol'" |
| View.AsI32 | wasm/include/view.hpp:42-45 | the same for i32 |
| View.AsI64 | wasm/include/view.hpp:46-49 | the same for i64 |
| View.AsF32 | wasm/include/view.hpp:50-53 | the same for f32 |
| View.AsF64 | wasm/include/view.hpp:54-57 | the same for f64 |
| View.AsTxt | wasm/include/view.hpp:58-62 | the same for txt |
| View.OneAccessorSucceeds | wasm/include/view.hpp:29-62 | exactly one accessor succeeds on a non-nil value and none on nil |
| View.SizeReadsBack | wasm/include/view.hpp:95-114 | the guest's `size` of a vector the host sent is the backend column's length or the span's length, and `empty` holds exactly when that is 0 |
| View.VectorAsBol | wasm/include/view.hpp:116-120 | the list exactly when the tag is bol, of the vector's size, else "vector_type is not 'bol'" |
| View.VectorAsI32 | wasm/include/view.hpp:121-125 | the same for i32 |
| View.VectorAsI64 | wasm/include/view.hpp:126-130 | the same for i64 |
| View.VectorAsF32 | wasm/include/view.hpp:131-135 | the same for f32 |
| View.VectorAsF64 | wasm/include/view.hpp:136-140 | the same for f64 |
| View.VectorAsTxt | wasm/include/view.hpp:141-152 | one view per element, in order, for a text vector; else the error |
| View.ViewString | wasm/include/view.hpp:153-158 | element i of a text vector, else the error |
| View.SeriesSizeReadsBack | wasm/include/view.hpp:186 | a series sent by the host has the size of the column or span it came from |
| View.LowerBound | wasm/include/view.hpp:208 | the first position whose key is not before the searched key |
| View.Lookup | wasm/include/view.hpp:199-214 | a found value is that of the first entry with that key; on sorted entries a value is found exactly when such an entry exists |
| View.LookupMisses | wasm/include/view.hpp:208-213 | a miss at the lower bound means a sorted list has no entry with that key |
| View.InsertSorted | wasm/include/view.hpp:251 | placing an entry into sorted entries keeps them sorted |
| View.KeysOfPermutation | wasm/include/view.hpp:247-252 | reordering the entries keeps the set of keys they hold |
| View.SortByKey | wasm/include/view.hpp:251 | the entries in key order, as a permutation of them |
| View.SortedLookupExact | wasm/include/view.hpp:247-252 | after sorting, the lookup finds exactly the keys the entries hold, with one of their values |
| View.Owner.Adopt | wasm/include/view.hpp:247-252 | the row or table takes the entries sorted by key and leaves the source empty |
| View.Owner.Move | wasm/include/view.hpp:253 | the move constructor takes the entries and empties the source |
| View.Owner.MoveAssign | wasm/include/view.hpp:255 | move assignment takes the entries and empties the source |
| View.Owner.Get | wasm/include/view.hpp:199-214 | lookup on an owned row finds a key exactly when an entry has it |
| View.OwnedVector.Adopt | wasm/include/view.hpp:263-266 | the vector takes the data and leaves nil behind |
| View.OwnedVector.Move | wasm/include/view.hpp:267-270 | the move constructor leaves nil behind |
| View.OwnedVector.MoveAssign | wasm/include/view.hpp:272-276 | move assignment leaves nil behind |
| View.OwnedSeries.Adopt | wasm/include/view.hpp:284-288 | the series takes key and vector and leaves an empty key and nil behind |
| View.OwnedSeries.Move | wasm/include/view.hpp:289-293 | the move constructor does the same |
| View.OwnedSeries.MoveAssign | wasm/include/view.hpp:295-300 | move assignment does the same |
| View.MoveLeavesOneOwner | wasm/include/view.hpp:247-255 | after a move only the destination holds the entries, and it finds every key the source held |
| ParamUtils.SetValueParam | wasm/include/utils.hpp:72-94 | the tag of the alternative and its payload, read back by `ParamOf` |
| ParamUtils.ValueParamRoundTrip | wasm/include/utils.hpp:72-94 | parameters and non-nil values correspond one to one |
| ParamUtils.VectorOf | wasm/include/utils.hpp:96-147 | the span's length and tag; text exactly for both kinds of text span |
| ParamUtils.StringRefs | wasm/include/utils.hpp:121-129 | the allocated list refers to the strings in order |
| ParamUtils.SetVectorParam | wasm/include/utils.hpp:96-147 | the vector of the span, and an owner allocated exactly for text spans |
| ParamUtils.VectorOfKeepsElements | wasm/include/utils.hpp:96-147 | element i of the vector is element i of the span; both text spans give the same vector |
| ParamUtils.SetSpanStringParam | wasm/include/utils.hpp:35-45 | one reference per parameter, in order |
| ParamUtils.SetItemParam | wasm/include/utils.hpp:149-152 | the key, then the value of the parameter |
| ParamUtils.SetSpanItemParam | wasm/include/utils.hpp:154-165 | item i has parameter i's key and value |
| ParamUtils.SetSeriesParam | wasm/include/utils.hpp:180-183 | the key, then the vector and owner of `__set_vector_param` |
| GuestOption.Option.Some | wasm/include/option.hpp:25-27 | `some` is some and not none |
| GuestOption.Option.None | wasm/include/option.hpp:29-31 | `none` is none and not some |
| GuestOption.Option.IsNone | wasm/include/option.hpp:33-34 | always the opposite of `is_some` |
| GuestOption.Option.Take | wasm/include/option.hpp:18-22 | hands out the contents and leaves the option empty |
| GuestOption.Option.Expect | wasm/include/option.hpp:36-41 | an empty option aborts with the message; a full one yields its value and becomes empty |
| GuestOption.Option.Unwrap | wasm/include/option.hpp:43 | `expect("unwrapping none")` |
| GuestOption.ExpectTwice | wasm/include/option.hpp:36-41 | on a full option the first `expect` yields the value and a second one aborts with its message |

## Left out

- Floating point: `txt2f32` and `txt2f64` (fast_float), the F32 and F64 branches of `__into_number`, `__into_boolean` and `__into_string`, and `std::to_string` of floats. The scalar and vector conversions require a value that is not a float. The `as_f32`, `as_f64` and `__set_*` paths carry float bits uninterpreted.
- Conv.IntoNumber, Conv.IntoBoolean, Conv.IntoString: defined only for non-float values, because of the point above.
- View.ViewString: requires the index to be in range for a text vector. The source does not check it, and an out-of-range read is undefined behaviour.
- Memory: `malloc` and `free`, the `unique_ptr` owners (modelled only as whether one is allocated), and the destructors. The move assignments overwrite the destination without freeing its old contents, as the source does. That leak is not modelled.
- View.Owner.Adopt: `std::sort` is modelled as a function on sequences that returns a sorted permutation, not as in-place sorting of the buffer.
- `__lt_imports_item`, `__eq_imports_item`, `__lt_imports_series` and `__eq_imports_series` are not part of this model. Entries are assumed to compare by key, byte by byte, with a proper prefix first (module KeyOrder).
- The value and vector `is_*` and `type()` predicates are covered by `ValueTag` and `VectorTag`. The views' `to_*` members delegate to Conv, and the item, series, row and table views only re-expose fields. These have no members of their own.
- The `log_abort("invalid value_param")` and `log_abort("invalid vector_param")` branches cannot be reached for a well-formed variant. The datatypes rule them out.
- Concurrency: the `update_store` stream loop and its task, the epoch ticker task, `time::timeout`, channel capacities, task spawning and the mutex around a future's receiver. The streaming-run loop is modelled over an event trace that records what these did.
- I/O and the network: the gRPC transport, the store's connection pool, and the text of backend errors. A failing command is the `failAt` parameter, and a backend error is a small enumeration.
- Compilation and serialisation of the module (`SandboxManager::from_bytes`), uuid generation, `StorageManager::new(&token)`, `get_engine`, `get_sandbox` and `ttl`: opaque inputs. wart-worker/src/wasm/sandbox.rs and wart-worker/src/wasm/query.rs are not part of this model.
- Logging: `log::info!` and `log::error!`. Streaming runs record the text of each `log::error!` line; the log level and `log::info!` are not modelled.
- AtomicKv.QueryScript, AtomicKv.UpdateScript: the scripts call `redis.hget`, `redis.hdel` and `redis.hset`, which the store's Lua API does not provide (it offers the commands only through `redis.call` and `redis.pcall`). As written, each script raises on its first such call, so `atomic_query_kv` and `atomic_update_kv` return None and leave the store unchanged. The model gives these calls the meaning of the HGET, HDEL and HSET commands.
- StreamingRun.StreamingRunImpl: the displayed text of a stream error (`Rpc.StatusText`) carries its code and quoted message; the details and metadata that follow them, and the escaping of the message, are not modelled.
- The text of store errors (`RedisStore.ErrorText`) is a fixed text per error kind, not the store client's own wording.
- GuestOption.ExpectTwice: requires a full option; on an empty one the first `expect` already aborts the guest.
- Store values: integers are unbounded. Text is never treated as a number (the store would parse numeric text for HINCRBY). The Lua number formatting of `value + argum` is modelled as the integer sum.
- AtomicKv.AtomicUpdateKvAsWritten: models only the wrong script at line 105, with the query scan corrected; with the scan as written that script also raises, as `AtomicKv.QueryBaseAsWritten` shows.
- AtomicKv.AtomicUpdateKvAsWritten: the value read is converted to `i32` only when it is an integer in range. The store would also parse numeric text here, which the model treats as a failed conversion (None).

## Findings

| source | as written | input that shows it | evidently intended | confidence | as-written member | corrected member |
|---|---|---|---|---|---|---|
| wart-worker/src/wasm/atomic_kv.rs:14 | `local value` is declared inside the loop, so the test at line 20 reads the global `value`, which was never declared. Scripts run with global variables protected, so that read raises a script error after the loop has deleted the value found: the value is lost, nothing is written to shard `epoch`, and `atomic_query_kv` yields None. | shard 0 holds field f = 5; read at epoch 0 with default 0 (AtomicKv.ScopingLosesStoredValue) | the value found is moved into shard `epoch` and returned (AtomicKv.QueryReturnsNewest, AtomicKv.QueryIdempotent) | high (not executed) | AtomicKv.QueryBaseAsWritten | AtomicKv.QueryBase |
| wart-worker/src/wasm/atomic_kv.rs:105 | `atomic_update_kv` invokes `REDIS_QUERY_KV`, so no `add` or `mov` is ever written to shard `epoch + 1` | empty store; `mov` of 7 at epoch 0, then a read at epoch 1 with default 0 (AtomicKv.UpdateAsWrittenLosesMov) | invoke `REDIS_UPDATE_KV`, so the write is seen at epoch 1 (AtomicKv.MovVisibleAfterCommit) | high (not executed) | AtomicKv.AtomicUpdateKvAsWritten | AtomicKv.AtomicUpdateKv |
| wasm/include/conv.hpp:158 | `__into_string(false)` is "else", and "else" is not a boolean for `txt2bol` | the bol value false, converted to text and back (Conv.FalseTextIsNoBoolean) | "false", so a boolean survives the round trip through text (Conv.StringThenBoolean) | high (not executed) | Conv.IntoString | Conv.IntoStringCorrected |
| wasm/include/conv.hpp:299 | the vector `__into_string` also writes false as "else", so a boolean vector holding false does not survive the round trip through text | the vector `[false]`, converted to text and back to booleans (Conv.FalseVectorTextIsNoBoolean) | "false", so the booleans survive (Conv.StringsThenBooleans) | high (not executed) | Conv.StringsOf | Conv.StringsOfCorrected |
