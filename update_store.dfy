/** `write_to_redis` of the update-store service
    (wart-worker/src/rpc_server/services/update_store/mod.rs): one request
    deletes, increments or overwrites fields of the hash `wart:store:<token>`,
    field by field, and reports how many commands succeeded before the first
    failure. */
module UpdateStore {
  import opened Base
  import opened RedisStore
  import Frames
  import Keys
  import Rpc

  /** The request's merge type: one of the three the service knows, or any
      other number. */
  datatype StoreMerge = Del | Add | Mov | Unknown

  datatype UpdateStoreRequest = UpdateStoreRequest(
    token: string,
    keys: Option<seq<string>>,
    vals: Option<Frames.Series>,
    merge: StoreMerge)

  datatype WriteError = EmptyKeys | NoSession(token: string) | EmptyVals | Backend(cause: RedisError)

  /** The text the service puts into the aborted status. */
  function Message(e: WriteError): string {
    match e
    case EmptyKeys => "empty keys"
    case NoSession(t) => "no session: " + t
    case EmptyVals => "empty vals"
    case Backend(c) => ErrorText(c)
  }

  /** `update_store` turns every error of `write_to_redis` into an aborted status. */
  function ToStatus(e: WriteError): (s: Rpc.Status)
    ensures s.code == Rpc.Aborted
    ensures e.EmptyKeys? ==> s.message == "empty keys"
    ensures e.EmptyVals? ==> s.message == "empty vals"
  {
    Rpc.AbortedWith(Message(e))
  }

  /** The store value Mov writes for element i of a column: integers and text
      are stored, other kinds are not. */
  function Stored(v: Frames.Values, i: nat): (r: Option<KvValue>)
    requires i < Frames.Len(v)
    ensures r.Some? <==> v.Int32Values? || v.Int64Values? || v.StringValues?
  {
    match v
    case Int32Values(xs) => Some(Int(xs[i]))
    case Int64Values(xs) => Some(Int(xs[i]))
    case StringValues(xs) => Some(Str(xs[i]))
    case _ => None
  }

  /** The increment Add applies for element i of a column: only integer
      columns are added. */
  function Delta(v: Frames.Values, i: nat): (r: Option<int>)
    requires i < Frames.Len(v)
    ensures r.Some? <==> v.Int32Values? || v.Int64Values?
  {
    match v
    case Int32Values(xs) => Some(xs[i])
    case Int64Values(xs) => Some(xs[i])
    case _ => None
  }

  predicate Delta?(v: Frames.Values) {
    v.Int32Values? || v.Int64Values?
  }

  predicate Stored?(v: Frames.Values) {
    v.Int32Values? || v.Int64Values? || v.StringValues?
  }

  /** One command on the store hash. */
  datatype FieldOp = DelField(field: string) | IncrField(field: string, delta: int) | SetField(field: string, v: KvValue)

  /** The commands a request issues, in order: one per key for Del; one per
      (key, value) pair, up to the shorter list, for Add over integers and for
      Mov over integers or text; none for other value kinds or merge types. */
  function Plan(merge: StoreMerge, keys: seq<string>, vals: Option<Frames.Values>): (r: Result<seq<FieldOp>, WriteError>)
    ensures r.Err? <==> (merge.Add? || merge.Mov?) && vals.None?
    ensures r.Err? ==> r.error == EmptyVals
    ensures r.Ok? && merge.Del? ==>
              |r.value| == |keys| && forall i :: 0 <= i < |keys| ==> r.value[i] == DelField(keys[i])
    ensures r.Ok? && !merge.Del? ==>
              |r.value| <= |keys| && (vals.Some? ==> |r.value| <= Frames.Len(vals.value))
    ensures r.Ok? && !merge.Del? ==> forall i :: 0 <= i < |r.value| ==> r.value[i].field == keys[i]
    ensures r.Ok? && merge.Add? ==>
              |r.value| == (if Delta?(vals.value) then Min(|keys|, Frames.Len(vals.value)) else 0)
              && forall i :: 0 <= i < |r.value| ==> r.value[i] == IncrField(keys[i], Delta(vals.value, i).value)
    ensures r.Ok? && merge.Mov? ==>
              |r.value| == (if Stored?(vals.value) then Min(|keys|, Frames.Len(vals.value)) else 0)
              && forall i :: 0 <= i < |r.value| ==> r.value[i] == SetField(keys[i], Stored(vals.value, i).value)
    ensures merge.Unknown? ==> r == Ok([])
  {
    match merge
    case Del => Ok(seq(|keys|, i requires 0 <= i < |keys| => DelField(keys[i])))
    case Add => if vals.None? then Err(EmptyVals) else Ok(AddOps(keys, vals.value))
    case Mov => if vals.None? then Err(EmptyVals) else Ok(MovOps(keys, vals.value))
    case Unknown => Ok([])
  }

  /** Add's commands: an increment per (key, integer) pair. */
  function AddOps(keys: seq<string>, v: Frames.Values): (r: seq<FieldOp>)
    ensures |r| == if Delta?(v) then Min(|keys|, Frames.Len(v)) else 0
    ensures forall i :: 0 <= i < |r| ==> r[i] == IncrField(keys[i], Delta(v, i).value)
  {
    match v
    case Int32Values(xs) =>
      seq(Min(|keys|, |xs|), i requires 0 <= i < Min(|keys|, |xs|) => IncrField(keys[i], xs[i]))
    case Int64Values(xs) =>
      seq(Min(|keys|, |xs|), i requires 0 <= i < Min(|keys|, |xs|) => IncrField(keys[i], xs[i]))
    case _ => []
  }

  /** Mov's commands: an overwrite per (key, integer or text) pair. */
  function MovOps(keys: seq<string>, v: Frames.Values): (r: seq<FieldOp>)
    ensures |r| == if Stored?(v) then Min(|keys|, Frames.Len(v)) else 0
    ensures forall i :: 0 <= i < |r| ==> r[i] == SetField(keys[i], Stored(v, i).value)
  {
    match v
    case Int32Values(xs) =>
      seq(Min(|keys|, |xs|), i requires 0 <= i < Min(|keys|, |xs|) => SetField(keys[i], Int(xs[i])))
    case Int64Values(xs) =>
      seq(Min(|keys|, |xs|), i requires 0 <= i < Min(|keys|, |xs|) => SetField(keys[i], Int(xs[i])))
    case StringValues(xs) =>
      seq(Min(|keys|, |xs|), i requires 0 <= i < Min(|keys|, |xs|) => SetField(keys[i], Str(xs[i])))
    case _ => []
  }

  /** The effect of one command on the store, or the error the store replies with. */
  function ApplyOp(db: Db, key: string, op: FieldOp): (r: Result<Db, RedisError>)
    ensures !op.IncrField? ==> r.Ok?
  {
    match op
    case DelField(f) => Ok(WithoutField(db, key, f))
    case SetField(f, v) => Ok(WithField(db, key, f, v))
    case IncrField(f, d) =>
      match Incremented(db, key, f, d)
      case Ok(n) => Ok(WithField(db, key, f, Int(n)))
      case Err(e) => Err(e)
  }

  /** A command changes no key but the one it names. */
  lemma ApplyOpFrame(db: Db, key: string, op: FieldOp, k: string)
    requires k != key && ApplyOp(db, key, op).Ok?
    ensures k in ApplyOp(db, key, op).value <==> k in db
    ensures k in db ==> ApplyOp(db, key, op).value[k] == db[k]
  {
  }

  /** Commands `ops[i..]` run from `db`: the final store and the number of
      commands that succeeded before the first failure. Command `ops[i]` is the
      backend's command number `1 + i`; `failAt` names the first command whose
      transport fails. */
  function Run(db: Db, key: string, ops: seq<FieldOp>, failAt: Option<nat>, i: nat): (r: (Db, nat))
    requires i <= |ops|
    ensures r.1 <= |ops| - i
    decreases |ops| - i
  {
    if i == |ops| || failAt == Some(1 + i) then (db, 0)
    else
      match ApplyOp(db, key, ops[i])
      case Err(_) => (db, 0)
      case Ok(next) =>
        var (final, n) := Run(next, key, ops, failAt, i + 1);
        (final, n + 1)
  }

  /** The reply and the final store of `write_to_redis`. Command 0 is the
      existence check of the store hash. */
  function WriteToRedisSpec(db: Db, req: UpdateStoreRequest, failAt: Option<nat>): (Result<nat, WriteError>, Db) {
    if req.keys.None? then (Err(EmptyKeys), db)
    else if failAt == Some(0) then (Err(Backend(ConnectionLost)), db)
    else if Keys.StoreKey(req.token) !in db then (Err(NoSession(req.token)), db)
    else
      var vals := if req.vals.Some? then req.vals.value.values else None;
      match Plan(req.merge, req.keys.value, vals)
      case Err(e) => (Err(e), db)
      case Ok(ops) =>
        var (final, n) := Run(db, Keys.StoreKey(req.token), ops, failAt, 0);
        (Ok(n), final)
  }

  /** `write_to_redis`. */
  method WriteToRedis(db: Redis, req: UpdateStoreRequest, failAt: Option<nat>)
    returns (r: Result<nat, WriteError>)
    modifies db
    ensures (r, db.data) == WriteToRedisSpec(old(db.data), req, failAt)
  {
    if req.keys.None? {
      return Err(EmptyKeys);
    }
    var keys := req.keys.value;
    var vals := if req.vals.Some? then req.vals.value.values else None;
    var storeKey := Keys.StoreKey(req.token);
    if failAt == Some(0) {
      return Err(Backend(ConnectionLost));
    }
    if !db.Exists(storeKey) {
      return Err(NoSession(req.token));
    }
    var plan := Plan(req.merge, keys, vals);
    if plan.Err? {
      return Err(plan.error);
    }
    r := RunCommands(db, storeKey, plan.value, failAt);
  }

  /** The command loop of `write_to_redis`: it counts the commands that
      succeed and stops at the first failure. */
  method RunCommands(db: Redis, storeKey: string, ops: seq<FieldOp>, failAt: Option<nat>)
    returns (r: Result<nat, WriteError>)
    modifies db
    ensures r.Ok? && (db.data, r.value) == Run(old(db.data), storeKey, ops, failAt, 0)
  {
    ghost var goal := Run(db.data, storeKey, ops, failAt, 0);
    var okCount: nat := 0;
    var i := 0;
    while i < |ops|
      invariant 0 <= i <= |ops|
      invariant okCount == i
      invariant goal == (Run(db.data, storeKey, ops, failAt, i).0, okCount + Run(db.data, storeKey, ops, failAt, i).1)
    {
      if failAt == Some(1 + i) {
        RunStops(db.data, storeKey, ops, failAt, i);
        break;
      }
      ghost var before := db.data;
      var ok := ApplyCommand(db, storeKey, ops[i]);
      if !ok {
        RunStep(before, storeKey, ops, failAt, i);
        break;
      }
      RunAdvances(goal, before, db.data, storeKey, ops, failAt, i, okCount);
      okCount := okCount + 1;
      i := i + 1;
    }
    r := Ok(okCount);
  }

  /** One command on the store: whether the store accepted it, and its effect. */
  method ApplyCommand(db: Redis, key: string, op: FieldOp) returns (ok: bool)
    modifies db
    ensures ok <==> ApplyOp(old(db.data), key, op).Ok?
    ensures db.data == if ok then ApplyOp(old(db.data), key, op).value else old(db.data)
  {
    match op {
      case DelField(f) =>
        var _ := db.HDel(key, f);
        ok := true;
      case SetField(f, v) =>
        var _ := db.HSet(key, f, v);
        ok := true;
      case IncrField(f, d) =>
        var res := db.HIncrBy(key, f, d);
        ok := res.Ok?;
    }
  }

  /** A run stops where the transport fails. */
  lemma RunStops(db: Db, key: string, ops: seq<FieldOp>, failAt: Option<nat>, i: nat)
    requires i < |ops| && failAt == Some(1 + i)
    ensures Run(db, key, ops, failAt, i) == (db, 0)
  {
  }

  /** One command of a run: a refused command stops the run, an applied one
      is counted and the run goes on from its store. */
  lemma RunStep(db: Db, key: string, ops: seq<FieldOp>, failAt: Option<nat>, i: nat)
    requires i < |ops| && failAt != Some(1 + i)
    ensures ApplyOp(db, key, ops[i]).Err? ==> Run(db, key, ops, failAt, i) == (db, 0)
    ensures ApplyOp(db, key, ops[i]).Ok? ==>
              var next := Run(ApplyOp(db, key, ops[i]).value, key, ops, failAt, i + 1);
              Run(db, key, ops, failAt, i) == (next.0, next.1 + 1)
  {
  }

  /** The loop's invariant carried over one applied command. */
  lemma RunAdvances(goal: (Db, nat), db: Db, next: Db, key: string, ops: seq<FieldOp>, failAt: Option<nat>, i: nat, count: nat)
    requires i < |ops| && failAt != Some(1 + i) && ApplyOp(db, key, ops[i]) == Ok(next)
    requires goal == (Run(db, key, ops, failAt, i).0, count + Run(db, key, ops, failAt, i).1)
    ensures goal == (Run(next, key, ops, failAt, i + 1).0, count + 1 + Run(next, key, ops, failAt, i + 1).1)
  {
    RunStep(db, key, ops, failAt, i);
  }

  /** The commands applied in order with no transport fault, stopping at the
      first error the store replies with. */
  function ApplyAll(db: Db, key: string, ops: seq<FieldOp>): Result<Db, RedisError>
    decreases |ops|
  {
    if ops == [] then Ok(db)
    else
      match ApplyOp(db, key, ops[0])
      case Err(e) => Err(e)
      case Ok(next) => ApplyAll(next, key, ops[1..])
  }

  lemma ApplyAllFirst(db: Db, key: string, ops: seq<FieldOp>, next: Db)
    requires ops != [] && ApplyOp(db, key, ops[0]) == Ok(next)
    ensures ApplyAll(db, key, ops) == ApplyAll(next, key, ops[1..])
  {
  }

  /** A run is a prefix of the commands applied in order, and it stops only at
      the end, at the command whose transport fails, or at a command the store
      refuses. */
  lemma RunIsPrefix(db: Db, key: string, ops: seq<FieldOp>, failAt: Option<nat>, i: nat)
    requires i <= |ops|
    ensures var (d, n) := Run(db, key, ops, failAt, i);
            i + n <= |ops|
            && ApplyAll(db, key, ops[i..i + n]) == Ok(d)
            && (i + n < |ops| ==> failAt == Some(1 + i + n) || ApplyOp(d, key, ops[i + n]).Err?)
  {
    RunApplies(db, key, ops, failAt, i);
    RunStopsForCause(db, key, ops, failAt, i);
  }

  lemma {:induction false} RunApplies(db: Db, key: string, ops: seq<FieldOp>, failAt: Option<nat>, i: nat)
    requires i <= |ops|
    ensures ApplyAll(db, key, ops[i..i + Run(db, key, ops, failAt, i).1]) == Ok(Run(db, key, ops, failAt, i).0)
    decreases |ops| - i
  {
    if i == |ops| || failAt == Some(1 + i) || ApplyOp(db, key, ops[i]).Err? {
      assert Run(db, key, ops, failAt, i) == (db, 0);
      assert ops[i..i] == [];
    } else {
      var next := ApplyOp(db, key, ops[i]).value;
      RunApplies(next, key, ops, failAt, i + 1);
      RunStep(db, key, ops, failAt, i);
      var r := Run(next, key, ops, failAt, i + 1);
      assert Run(db, key, ops, failAt, i) == (r.0, r.1 + 1);
      SliceSplit(ops, i, i + r.1 + 1);
      ApplyAllFirst(db, key, ops[i..i + r.1 + 1], next);
      assert ApplyAll(db, key, ops[i..i + r.1 + 1]) == ApplyAll(next, key, ops[i + 1..i + 1 + r.1]);
    }
  }

  lemma {:induction false} RunStopsForCause(db: Db, key: string, ops: seq<FieldOp>, failAt: Option<nat>, i: nat)
    requires i <= |ops|
    ensures var (d, n) := Run(db, key, ops, failAt, i);
            i + n < |ops| ==> failAt == Some(1 + i + n) || ApplyOp(d, key, ops[i + n]).Err?
    decreases |ops| - i
  {
    if i < |ops| && failAt != Some(1 + i) && ApplyOp(db, key, ops[i]).Ok? {
      RunStopsForCause(ApplyOp(db, key, ops[i]).value, key, ops, failAt, i + 1);
      RunStep(db, key, ops, failAt, i);
    }
  }

  /** A run changes no key but the one it writes to. */
  lemma {:induction false} RunFrame(db: Db, key: string, ops: seq<FieldOp>, failAt: Option<nat>, i: nat, k: string)
    requires i <= |ops| && k != key
    ensures var d := Run(db, key, ops, failAt, i).0;
            (k in d <==> k in db) && (k in db ==> d[k] == db[k])
    decreases |ops| - i
  {
    if i < |ops| && failAt != Some(1 + i) && ApplyOp(db, key, ops[i]).Ok? {
      ApplyOpFrame(db, key, ops[i], k);
      RunFrame(ApplyOp(db, key, ops[i]).value, key, ops, failAt, i + 1, k);
    }
  }

  /** A run leaves alone every field no remaining command names. */
  lemma {:induction false} RunKeepsUntouchedField(db: Db, key: string, ops: seq<FieldOp>, failAt: Option<nat>, i: nat, f: string)
    requires i <= |ops|
    requires forall j :: i <= j < |ops| ==> ops[j].field != f
    ensures FieldOf(Run(db, key, ops, failAt, i).0, key, f) == FieldOf(db, key, f)
    decreases |ops| - i
  {
    if i < |ops| && failAt != Some(1 + i) && ApplyOp(db, key, ops[i]).Ok? {
      var next := ApplyOp(db, key, ops[i]).value;
      match ops[i] {
        case DelField(g) => WithoutFieldFrame(db, key, g, key, f);
        case SetField(g, v) => WithFieldFrame(db, key, g, v, key, f);
        case IncrField(g, d) => WithFieldFrame(db, key, g, Int(Incremented(db, key, g, d).value), key, f);
      }
      RunKeepsUntouchedField(next, key, ops, failAt, i + 1, f);
    }
  }

  /** Without transport faults, a run of deletions and overwrites carries out
      every command, and each named field ends up as its last command left it
      (here: commands on distinct fields). */
  lemma {:induction false} RunWritesEachField(db: Db, key: string, ops: seq<FieldOp>, i: nat)
    requires i <= |ops|
    requires forall j :: i <= j < |ops| ==> !ops[j].IncrField?
    requires forall j, j' :: i <= j < j' < |ops| ==> ops[j].field != ops[j'].field
    ensures var (d, n) := Run(db, key, ops, None, i);
            n == |ops| - i
            && forall j :: i <= j < |ops| ==>
                 FieldOf(d, key, ops[j].field) == (if ops[j].SetField? then Some(ops[j].v) else None)
    decreases |ops| - i
  {
    if i < |ops| {
      var next := ApplyOp(db, key, ops[i]).value;
      RunWritesEachField(next, key, ops, i + 1);
      RunKeepsUntouchedField(next, key, ops, None, i + 1, ops[i].field);
    }
  }

  /** One increment the store accepts, taken as the first step of a run. */
  lemma IncrementStep(db: Db, key: string, ops: seq<FieldOp>, i: nat)
    requires i < |ops| && ops[i].IncrField?
    requires Incremented(db, key, ops[i].field, ops[i].delta).Ok?
    ensures var next := WithField(db, key, ops[i].field, Int(Incremented(db, key, ops[i].field, ops[i].delta).value));
            var r := Run(next, key, ops, None, i + 1);
            Run(db, key, ops, None, i) == (r.0, r.1 + 1)
  {
    RunStep(db, key, ops, None, i);
  }

  /** One increment leaves the fields of the later commands, and what
      incrementing them would give, as they were. */
  lemma IncrementStepFrame(db: Db, key: string, ops: seq<FieldOp>, i: nat)
    requires i < |ops| && ops[i].IncrField?
    requires Incremented(db, key, ops[i].field, ops[i].delta).Ok?
    requires forall m :: i < m < |ops| ==> ops[m].IncrField? && ops[m].field != ops[i].field
    ensures var next := WithField(db, key, ops[i].field, Int(Incremented(db, key, ops[i].field, ops[i].delta).value));
            forall m :: i < m < |ops| ==>
              FieldOf(next, key, ops[m].field) == FieldOf(db, key, ops[m].field)
              && Incremented(next, key, ops[m].field, ops[m].delta) == Incremented(db, key, ops[m].field, ops[m].delta)
  {
    var f := ops[i].field;
    var v := Int(Incremented(db, key, f, ops[i].delta).value);
    forall m | i < m < |ops|
      ensures FieldOf(WithField(db, key, f, v), key, ops[m].field) == FieldOf(db, key, ops[m].field)
      ensures Incremented(WithField(db, key, f, v), key, ops[m].field, ops[m].delta) == Incremented(db, key, ops[m].field, ops[m].delta)
    {
      WithFieldFrame(db, key, f, v, key, ops[m].field);
      IncrementedFrame(db, key, f, v, ops[m].field, ops[m].delta);
    }
  }

  /** Without transport faults, a run of increments on distinct fields carries
      out the commands before the first one the store refuses (index `j`, or
      the end), and the fields of the refused command and after it keep their
      values. */
  lemma {:induction false} RunIncrementsUntil(db: Db, key: string, ops: seq<FieldOp>, i: nat, j: nat)
    requires i <= j <= |ops|
    requires forall m :: i <= m < |ops| ==> ops[m].IncrField?
    requires forall m, m' :: i <= m < m' < |ops| ==> ops[m].field != ops[m'].field
    requires forall m :: i <= m < j ==> Incremented(db, key, ops[m].field, ops[m].delta).Ok?
    requires j < |ops| ==> Incremented(db, key, ops[j].field, ops[j].delta).Err?
    ensures Run(db, key, ops, None, i).1 == j - i
    ensures forall m :: j <= m < |ops| ==>
              FieldOf(Run(db, key, ops, None, i).0, key, ops[m].field) == FieldOf(db, key, ops[m].field)
    decreases |ops| - i
  {
    if i < j {
      var f := ops[i].field;
      var next := WithField(db, key, f, Int(Incremented(db, key, f, ops[i].delta).value));
      IncrementStep(db, key, ops, i);
      IncrementStepFrame(db, key, ops, i);
      RunIncrementsUntil(next, key, ops, i + 1, j);
    } else if i < |ops| {
      RunStep(db, key, ops, None, i);
    }
  }

  /** In such a run, each field of a command carried out ends up as its old
      integer plus the delta. */
  lemma {:induction false} RunIncrementsEachField(db: Db, key: string, ops: seq<FieldOp>, i: nat, j: nat)
    requires i <= j <= |ops|
    requires forall m :: i <= m < |ops| ==> ops[m].IncrField?
    requires forall m, m' :: i <= m < m' < |ops| ==> ops[m].field != ops[m'].field
    requires forall m :: i <= m < j ==> Incremented(db, key, ops[m].field, ops[m].delta).Ok?
    ensures forall m :: i <= m < j ==>
              FieldOf(Run(db, key, ops, None, i).0, key, ops[m].field)
              == Some(Int(Incremented(db, key, ops[m].field, ops[m].delta).value))
    decreases |ops| - i
  {
    if i < j {
      var f := ops[i].field;
      var next := WithField(db, key, f, Int(Incremented(db, key, f, ops[i].delta).value));
      IncrementStep(db, key, ops, i);
      IncrementStepFrame(db, key, ops, i);
      RunIncrementsEachField(next, key, ops, i + 1, j);
      RunKeepsUntouchedField(next, key, ops, None, i + 1, f);
      var d := Run(next, key, ops, None, i + 1).0;
      forall m | i <= m < j
        ensures FieldOf(Run(db, key, ops, None, i).0, key, ops[m].field)
                == Some(Int(Incremented(db, key, ops[m].field, ops[m].delta).value))
      {
        if m == i {
          assert FieldOf(d, key, f) == FieldOf(next, key, f);
        } else {
          assert FieldOf(d, key, ops[m].field) == Some(Int(Incremented(next, key, ops[m].field, ops[m].delta).value));
        }
      }
    }
  }

  /** Without transport faults, Add increments each listed field (keys given
      once each) by its paired integer, up to the shorter list: a missing field
      counts as 0. The run stops at the first field the store refuses (not an
      integer, or the sum leaves the 64-bit range); `ok_count` is the number of
      fields before it, and that field and the later ones keep their values. */
  lemma AddIncrementsEachField(db: Db, req: UpdateStoreRequest, column: Frames.Values, stop: nat)
    requires req.keys.Some? && req.merge.Add? && Keys.StoreKey(req.token) in db
    requires req.vals == Some(Frames.Series(Some(column))) && Delta?(column)
    requires forall j, j' :: 0 <= j < j' < |req.keys.value| ==> req.keys.value[j] != req.keys.value[j']
    requires stop <= Min(|req.keys.value|, Frames.Len(column))
    requires forall m :: 0 <= m < stop ==>
               Incremented(db, Keys.StoreKey(req.token), req.keys.value[m], Delta(column, m).value).Ok?
    requires stop < Min(|req.keys.value|, Frames.Len(column)) ==>
               Incremented(db, Keys.StoreKey(req.token), req.keys.value[stop], Delta(column, stop).value).Err?
    ensures WriteToRedisSpec(db, req, None).0 == Ok(stop)
    ensures forall m :: 0 <= m < stop ==>
              FieldOf(WriteToRedisSpec(db, req, None).1, Keys.StoreKey(req.token), req.keys.value[m])
              == Some(Int(Incremented(db, Keys.StoreKey(req.token), req.keys.value[m], Delta(column, m).value).value))
    ensures forall m :: 0 <= m < stop ==>
              IntegerField(db, Keys.StoreKey(req.token), req.keys.value[m]).Ok?
              && Incremented(db, Keys.StoreKey(req.token), req.keys.value[m], Delta(column, m).value).value
                 == IntegerField(db, Keys.StoreKey(req.token), req.keys.value[m]).value + Delta(column, m).value
    ensures forall m :: stop <= m < Min(|req.keys.value|, Frames.Len(column)) ==>
              FieldOf(WriteToRedisSpec(db, req, None).1, Keys.StoreKey(req.token), req.keys.value[m])
              == FieldOf(db, Keys.StoreKey(req.token), req.keys.value[m])
  {
    var keys := req.keys.value;
    var ops := Plan(Add, keys, Some(column)).value;
    RunIncrementsEachField(db, Keys.StoreKey(req.token), ops, 0, stop);
    RunIncrementsUntil(db, Keys.StoreKey(req.token), ops, 0, stop);
  }

  /** The store hash must exist: without it a request fails with "no session"
      and nothing is written. */
  lemma NoSessionWritesNothing(db: Db, req: UpdateStoreRequest, failAt: Option<nat>)
    requires req.keys.Some? && failAt != Some(0)
    requires Keys.StoreKey(req.token) !in db
    ensures WriteToRedisSpec(db, req, failAt) == (Err(NoSession(req.token)), db)
  {
  }

  /** Every request changes only the hash `wart:store:<token>`, and `ok_count`
      is at most the number of keys, and for Add and Mov at most the number of
      values too. */
  lemma WriteToRedisBounds(db: Db, req: UpdateStoreRequest, failAt: Option<nat>, k: string)
    requires k != Keys.StoreKey(req.token)
    ensures var (r, d) := WriteToRedisSpec(db, req, failAt);
            (k in d <==> k in db) && (k in db ==> d[k] == db[k])
    ensures var (r, d) := WriteToRedisSpec(db, req, failAt);
            r.Ok? ==> req.keys.Some? && r.value <= |req.keys.value|
                      && (!req.merge.Del? && req.vals.Some? && req.vals.value.values.Some? ==>
                            r.value <= Frames.Len(req.vals.value.values.value))
    ensures var (r, d) := WriteToRedisSpec(db, req, failAt);
            r.Err? ==> d == db
  {
    if req.keys.Some? && failAt != Some(0) && Keys.StoreKey(req.token) in db {
      var vals := if req.vals.Some? then req.vals.value.values else None;
      var plan := Plan(req.merge, req.keys.value, vals);
      if plan.Ok? {
        RunFrame(db, Keys.StoreKey(req.token), plan.value, failAt, 0, k);
      }
    }
  }

  /** With an unknown merge type, or values of a kind the merge does not use,
      the store is unchanged and `ok_count` is 0. */
  lemma UnusedKindWritesNothing(db: Db, req: UpdateStoreRequest, failAt: Option<nat>)
    requires req.keys.Some? && failAt != Some(0) && Keys.StoreKey(req.token) in db
    requires req.merge.Unknown?
             || (req.merge.Add? && req.vals.Some? && req.vals.value.values.Some? && !Delta?(req.vals.value.values.value))
             || (req.merge.Mov? && req.vals.Some? && req.vals.value.values.Some? && !Stored?(req.vals.value.values.value))
    ensures WriteToRedisSpec(db, req, failAt) == (Ok(0), db)
  {
  }

  /** A request stops at its first failing command: its store is the first
      `ok_count` commands applied in order, and the command after them failed. */
  lemma WriteToRedisStopsAtFirstFailure(db: Db, req: UpdateStoreRequest, failAt: Option<nat>)
    requires req.keys.Some? && failAt != Some(0) && Keys.StoreKey(req.token) in db
    requires var vals := if req.vals.Some? then req.vals.value.values else None;
             Plan(req.merge, req.keys.value, vals).Ok?
    ensures var vals := if req.vals.Some? then req.vals.value.values else None;
            var ops := Plan(req.merge, req.keys.value, vals).value;
            var key := Keys.StoreKey(req.token);
            var (r, d) := WriteToRedisSpec(db, req, failAt);
            r.Ok? && r.value <= |ops| && ApplyAll(db, key, ops[..r.value]) == Ok(d)
            && (r.value < |ops| ==> failAt == Some(1 + r.value) || ApplyOp(d, key, ops[r.value]).Err?)
  {
    var vals := if req.vals.Some? then req.vals.value.values else None;
    var ops := Plan(req.merge, req.keys.value, vals).value;
    RunIsPrefix(db, Keys.StoreKey(req.token), ops, failAt, 0);
    assert ops[0..Run(db, Keys.StoreKey(req.token), ops, failAt, 0).1] == ops[..Run(db, Keys.StoreKey(req.token), ops, failAt, 0).1];
  }

  /** Without transport faults, Del removes every listed field (keys given
      once each) and counts every key. */
  lemma DelRemovesEachField(db: Db, req: UpdateStoreRequest)
    requires req.keys.Some? && req.merge.Del? && Keys.StoreKey(req.token) in db
    requires forall j, j' :: 0 <= j < j' < |req.keys.value| ==> req.keys.value[j] != req.keys.value[j']
    ensures var (r, d) := WriteToRedisSpec(db, req, None);
            r == Ok(|req.keys.value|)
            && forall j :: 0 <= j < |req.keys.value| ==> !HasField(d, Keys.StoreKey(req.token), req.keys.value[j])
  {
    var keys := req.keys.value;
    var ops := Plan(Del, keys, if req.vals.Some? then req.vals.value.values else None).value;
    RunWritesEachField(db, Keys.StoreKey(req.token), ops, 0);
  }

  /** Without transport faults, Mov sets each listed field (keys given once
      each) to its paired value, up to the shorter list. */
  lemma MovSetsEachField(db: Db, req: UpdateStoreRequest, column: Frames.Values)
    requires req.keys.Some? && req.merge.Mov? && Keys.StoreKey(req.token) in db
    requires req.vals == Some(Frames.Series(Some(column))) && Stored?(column)
    requires forall j, j' :: 0 <= j < j' < |req.keys.value| ==> req.keys.value[j] != req.keys.value[j']
    ensures var (r, d) := WriteToRedisSpec(db, req, None);
            var n := Min(|req.keys.value|, Frames.Len(column));
            r == Ok(n)
            && forall j :: 0 <= j < n ==> FieldOf(d, Keys.StoreKey(req.token), req.keys.value[j]) == Stored(column, j)
  {
    var keys := req.keys.value;
    var ops := Plan(Mov, keys, Some(column)).value;
    RunWritesEachField(db, Keys.StoreKey(req.token), ops, 0);
  }
}
