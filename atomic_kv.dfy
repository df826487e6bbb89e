/** The versioned key-value protocol (wart-worker/src/wasm/atomic_kv.rs): a
    field of a session's store lives in epoch shards `prefk .. ep`. A read at
    epoch E takes the newest shard at or below E holding the field, moves the
    value into shard E and returns it (the default when no shard holds it). A
    write (`add` or `mov`) goes into shard E + 1, so it stays invisible to reads
    at E and becomes visible once the session's epoch has advanced. */
module AtomicKv {
  import opened Base
  import opened RedisStore
  import opened Keys
  import Decimal

  /** The wit `MergeType` of `update_kv`. */
  datatype MergeType = Add | Mov

  /** The merge argument the host passes to the script. */
  function MergeName(m: MergeType): (s: string)
    ensures m == Add <==> s == "add"
    ensures m == Mov <==> s == "mov"
  {
    match m
    case Add => "add"
    case Mov => "mov"
  }

  /** The newest shard from `ep` down to 0 whose hash holds `field`. */
  function Newest(db: Db, prefk: string, field: string, ep: int): (r: Option<nat>)
    ensures r.Some? ==> r.value <= ep && HasField(db, Shard(prefk, r.value), field)
    ensures r.Some? ==> forall e: nat :: r.value < e <= ep ==> !HasField(db, Shard(prefk, e), field)
    ensures r.None? ==> forall e: nat :: e <= ep ==> !HasField(db, Shard(prefk, e), field)
    decreases ep + 1
  {
    if ep < 0 then None
    else if HasField(db, Shard(prefk, ep), field) then Some(ep)
    else Newest(db, prefk, field, ep - 1)
  }

  /** The value a read at `epoch` returns. */
  function QueryValue(db: Db, prefk: string, epoch: nat, field: string, defva: KvValue): KvValue {
    match Newest(db, prefk, field, epoch)
    case Some(e) => db[Shard(prefk, e)][field]
    case None => defva
  }

  /** The store after a read at `epoch`: the value found is removed from its
      shard and written into shard `epoch`. */
  function QueryState(db: Db, prefk: string, epoch: nat, field: string, defva: KvValue): Db {
    var cleared := match Newest(db, prefk, field, epoch)
      case Some(e) => WithoutField(db, Shard(prefk, e), field)
      case None => db;
    WithField(cleared, Shard(prefk, epoch), field, QueryValue(db, prefk, epoch, field, defva))
  }

  /** The shared body of both scripts: the backward scan and the relocation. */
  method QueryBase(db: Redis, prefk: string, epoch: nat, field: string, defva: KvValue)
    returns (value: KvValue)
    modifies db
    ensures value == QueryValue(old(db.data), prefk, epoch, field, defva)
    ensures db.data == QueryState(old(db.data), prefk, epoch, field, defva)
  {
    var ep: int := epoch;
    var found: Option<KvValue> := None;
    while ep >= 0
      invariant -1 <= ep <= epoch
      invariant db.data == old(db.data)
      invariant Newest(db.data, prefk, field, ep) == Newest(db.data, prefk, field, epoch)
    {
      var key := Shard(prefk, ep);
      var v := db.HGet(key, field);
      if v.Some? {
        var _ := db.HDel(key, field);
        found := v;
        break;
      }
      ep := ep - 1;
    }
    value := if found.Some? then found.value else defva;
    var _ := db.HSet(Shard(prefk, epoch), field, value);
  }

  /** What the query script returns. */
  method QueryScript(db: Redis, prefk: string, epoch: nat, field: string, defva: KvValue)
    returns (value: KvValue)
    modifies db
    ensures value == QueryValue(old(db.data), prefk, epoch, field, defva)
    ensures db.data == QueryState(old(db.data), prefk, epoch, field, defva)
  {
    value := QueryBase(db, prefk, epoch, field, defva);
  }

  /** The reply of the update script: the number of fields the write into shard
      `epoch + 1` added, 0 for an unknown merge, a script error when `add` meets a
      non-numeric operand. */
  function UpdateReply(db: Db, prefk: string, epoch: nat, field: string, defva: KvValue,
                       argum: KvValue, merge: string): Result<int, RedisError>
  {
    var value := QueryValue(db, prefk, epoch, field, defva);
    var mid := QueryState(db, prefk, epoch, field, defva);
    var added := if HasField(mid, Shard(prefk, epoch + 1), field) then 0 else 1;
    if merge == "add" then
      if value.Int? && argum.Int? then Ok(added) else Err(ScriptError)
    else if merge == "mov" then Ok(added)
    else Ok(0)
  }

  /** The store after the update script. A script stopped by an error keeps the
      writes it made before the error. */
  function UpdateState(db: Db, prefk: string, epoch: nat, field: string, defva: KvValue,
                       argum: KvValue, merge: string): Db
  {
    var value := QueryValue(db, prefk, epoch, field, defva);
    var mid := QueryState(db, prefk, epoch, field, defva);
    if merge == "add" then
      if value.Int? && argum.Int? then WithField(mid, Shard(prefk, epoch + 1), field, Int(value.n + argum.n))
      else mid
    else if merge == "mov" then WithField(mid, Shard(prefk, epoch + 1), field, argum)
    else mid
  }

  method UpdateScript(db: Redis, prefk: string, epoch: nat, field: string, defva: KvValue,
                      argum: KvValue, merge: string)
    returns (r: Result<int, RedisError>)
    modifies db
    ensures r == UpdateReply(old(db.data), prefk, epoch, field, defva, argum, merge)
    ensures db.data == UpdateState(old(db.data), prefk, epoch, field, defva, argum, merge)
  {
    var value := QueryBase(db, prefk, epoch, field, defva);
    if merge == "add" {
      var key := Shard(prefk, epoch + 1);
      if value.Int? && argum.Int? {
        var added := db.HSet(key, field, Int(value.n + argum.n));
        r := Ok(added);
      } else {
        r := Err(ScriptError);
      }
    } else if merge == "mov" {
      var key := Shard(prefk, epoch + 1);
      var added := db.HSet(key, field, argum);
      r := Ok(added);
    } else {
      r := Ok(0);
    }
  }

  /** `atomic_query_kv`: any store error becomes None. */
  method AtomicQueryKv(db: Redis, prefk: string, epoch: nat, field: string, defva: KvValue,
                       connectionFails: bool)
    returns (r: Option<KvValue>)
    modifies db
    ensures connectionFails ==> r == None && db.data == old(db.data)
    ensures !connectionFails ==>
              r == Some(QueryValue(old(db.data), prefk, epoch, field, defva))
              && db.data == QueryState(old(db.data), prefk, epoch, field, defva)
  {
    if connectionFails {
      return None;
    }
    var value := QueryScript(db, prefk, epoch, field, defva);
    r := Some(value);
  }

  /** `atomic_update_kv` as intended: the update script, with any store error
      turned into None. */
  method AtomicUpdateKv(db: Redis, prefk: string, epoch: nat, field: string, defva: KvValue,
                        argum: KvValue, merge: MergeType, connectionFails: bool)
    returns (r: Option<Int32>)
    modifies db
    ensures connectionFails ==> r == None && db.data == old(db.data)
    ensures !connectionFails ==>
              db.data == UpdateState(old(db.data), prefk, epoch, field, defva, argum, MergeName(merge))
              && r == match UpdateReply(old(db.data), prefk, epoch, field, defva, argum, MergeName(merge))
                      case Ok(n) => Some(n)
                      case Err(_) => None
  {
    if connectionFails {
      return None;
    }
    var reply := UpdateScript(db, prefk, epoch, field, defva, argum, MergeName(merge));
    r := match reply
      case Ok(n) => (assert n == 0 || n == 1; Some(n))
      case Err(_) => None;
  }

  /** `atomic_update_kv` as written: it invokes the query script (here with its
      scan corrected), so it only relocates the value and returns it converted
      to a 32-bit integer. */
  method AtomicUpdateKvAsWritten(db: Redis, prefk: string, epoch: nat, field: string, defva: KvValue,
                                 argum: KvValue, merge: MergeType, connectionFails: bool)
    returns (r: Option<Int32>)
    modifies db
    ensures connectionFails ==> r == None && db.data == old(db.data)
    ensures !connectionFails ==>
              db.data == QueryState(old(db.data), prefk, epoch, field, defva)
              && r == AsInt32(QueryValue(old(db.data), prefk, epoch, field, defva))
  {
    if connectionFails {
      return None;
    }
    var value := QueryScript(db, prefk, epoch, field, defva);
    r := AsInt32(value);
  }

  /** The reply converted to the host's `i32`. */
  function AsInt32(v: KvValue): Option<Int32> {
    if v.Int? && MinI32 <= v.n <= MaxI32 then Some(v.n) else None
  }

  /** The read returns the value of the newest shard at or below the epoch that
      holds the field, and the default when none does. */
  lemma QueryReturnsNewest(db: Db, prefk: string, epoch: nat, field: string, defva: KvValue, e: nat)
    requires e <= epoch && HasField(db, Shard(prefk, e), field)
    requires forall e': nat :: e < e' <= epoch ==> !HasField(db, Shard(prefk, e'), field)
    ensures QueryValue(db, prefk, epoch, field, defva) == db[Shard(prefk, e)][field]
  {
    NewestUnique(db, prefk, field, epoch, e);
  }

  lemma {:induction false} NewestUnique(db: Db, prefk: string, field: string, ep: int, e: nat)
    requires e <= ep && HasField(db, Shard(prefk, e), field)
    requires forall e': nat :: e < e' <= ep ==> !HasField(db, Shard(prefk, e'), field)
    ensures Newest(db, prefk, field, ep) == Some(e)
    decreases ep
  {
    if ep > e {
      NewestUnique(db, prefk, field, ep - 1, e);
    }
  }

  /** After a read the value sits in shard `epoch` and is gone from the older
      shard it was found in. */
  lemma QueryRelocates(db: Db, prefk: string, epoch: nat, field: string, defva: KvValue)
    ensures var s := QueryState(db, prefk, epoch, field, defva);
            HasField(s, Shard(prefk, epoch), field)
            && s[Shard(prefk, epoch)][field] == QueryValue(db, prefk, epoch, field, defva)
    ensures var s := QueryState(db, prefk, epoch, field, defva);
            match Newest(db, prefk, field, epoch)
            case Some(e) => e < epoch ==> !HasField(s, Shard(prefk, e), field)
            case None => true
  {
    match Newest(db, prefk, field, epoch)
    case Some(e) =>
      if e < epoch && Shard(prefk, e) == Shard(prefk, epoch) {
        ShardInjective(prefk, e, epoch);
      }
    case None =>
  }

  /** A second read at the same epoch returns the same value and changes nothing. */
  lemma QueryIdempotent(db: Db, prefk: string, epoch: nat, field: string, defva: KvValue, defva2: KvValue)
    ensures var s := QueryState(db, prefk, epoch, field, defva);
            QueryValue(s, prefk, epoch, field, defva2) == QueryValue(db, prefk, epoch, field, defva)
            && QueryState(s, prefk, epoch, field, defva2) == s
  {
    var s := QueryState(db, prefk, epoch, field, defva);
    var key := Shard(prefk, epoch);
    assert HasField(s, key, field);
    assert Newest(s, prefk, field, epoch) == Some(epoch);
    var s2 := QueryState(s, prefk, epoch, field, defva2);
    assert s2 == WithField(WithoutField(s, key, field), key, field, s[key][field]);
    assert s2[key] == s[key];
    assert s2 == s;
  }

  /** Outside the found shard, shard `epoch` and shard `epoch + 1`, an update
      changes no key; inside them it changes no field but `field`. */
  lemma UpdateFrame(db: Db, prefk: string, epoch: nat, field: string, defva: KvValue,
                    argum: KvValue, merge: string, key: string)
    requires key != Shard(prefk, epoch) && key != Shard(prefk, epoch + 1)
    requires forall e: nat :: Newest(db, prefk, field, epoch) == Some(e) ==> key != Shard(prefk, e)
    ensures var s := UpdateState(db, prefk, epoch, field, defva, argum, merge);
            (key in s <==> key in db) && (key in db ==> s[key] == db[key])
  {
    var cleared := db;
    if Newest(db, prefk, field, epoch).Some? {
      var e := Newest(db, prefk, field, epoch).value;
      cleared := WithoutField(db, Shard(prefk, e), field);
      WithoutFieldOtherKey(db, Shard(prefk, e), field, key);
    }
    var value := QueryValue(db, prefk, epoch, field, defva);
    var mid := WithField(cleared, Shard(prefk, epoch), field, value);
    WithFieldOtherKey(cleared, Shard(prefk, epoch), field, value, key);
    assert mid == QueryState(db, prefk, epoch, field, defva);
    if value.Int? && argum.Int? {
      WithFieldOtherKey(mid, Shard(prefk, epoch + 1), field, Int(value.n + argum.n), key);
    }
    WithFieldOtherKey(mid, Shard(prefk, epoch + 1), field, argum, key);
  }

  /** A read changes no field but `field`. */
  lemma QueryKeepsOtherFields(db: Db, prefk: string, epoch: nat, field: string, defva: KvValue,
                              key: string, f: string)
    requires f != field
    ensures FieldOf(QueryState(db, prefk, epoch, field, defva), key, f) == FieldOf(db, key, f)
  {
    var cleared := db;
    if Newest(db, prefk, field, epoch).Some? {
      var e := Newest(db, prefk, field, epoch).value;
      cleared := WithoutField(db, Shard(prefk, e), field);
      WithoutFieldFrame(db, Shard(prefk, e), field, key, f);
    }
    WithFieldFrame(cleared, Shard(prefk, epoch), field, QueryValue(db, prefk, epoch, field, defva), key, f);
  }

  /** Inside any key, fields other than `field` are untouched by an update. */
  lemma UpdateKeepsOtherFields(db: Db, prefk: string, epoch: nat, field: string, defva: KvValue,
                               argum: KvValue, merge: string, key: string, f: string)
    requires f != field
    ensures var s := UpdateState(db, prefk, epoch, field, defva, argum, merge);
            FieldOf(s, key, f) == FieldOf(db, key, f)
  {
    var value := QueryValue(db, prefk, epoch, field, defva);
    var mid := QueryState(db, prefk, epoch, field, defva);
    QueryKeepsOtherFields(db, prefk, epoch, field, defva, key, f);
    if merge == "add" && value.Int? && argum.Int? {
      WithFieldFrame(mid, Shard(prefk, epoch + 1), field, Int(value.n + argum.n), key, f);
    } else if merge == "mov" {
      WithFieldFrame(mid, Shard(prefk, epoch + 1), field, argum, key, f);
    }
  }

  /** A write is invisible at the epoch it was made in: a read at that epoch
      still returns what it returned before the write. */
  lemma UpdateInvisibleAtSameEpoch(db: Db, prefk: string, epoch: nat, field: string, defva: KvValue,
                                   argum: KvValue, merge: string, defva2: KvValue)
    ensures QueryValue(UpdateState(db, prefk, epoch, field, defva, argum, merge), prefk, epoch, field, defva2)
            == QueryValue(db, prefk, epoch, field, defva)
  {
    var mid := QueryState(db, prefk, epoch, field, defva);
    var s := UpdateState(db, prefk, epoch, field, defva, argum, merge);
    var here := Shard(prefk, epoch);
    if Shard(prefk, epoch + 1) == here {
      ShardInjective(prefk, epoch + 1, epoch);
    }
    assert HasField(mid, here, field);
    assert FieldOf(s, here, field) == FieldOf(mid, here, field);
    assert Newest(s, prefk, field, epoch) == Some(epoch);
  }

  /** `add` at epoch E is visible once the epoch is E + 1: the read there returns
      the value read at E plus the argument. */
  lemma AddVisibleAfterCommit(db: Db, prefk: string, epoch: nat, field: string, defva: KvValue,
                              argum: KvValue, defva2: KvValue)
    requires UpdateReply(db, prefk, epoch, field, defva, argum, "add").Ok?
    ensures QueryValue(db, prefk, epoch, field, defva).Int? && argum.Int?
    ensures QueryValue(UpdateState(db, prefk, epoch, field, defva, argum, "add"), prefk, epoch + 1, field, defva2)
            == Int(QueryValue(db, prefk, epoch, field, defva).n + argum.n)
  {
    var s := UpdateState(db, prefk, epoch, field, defva, argum, "add");
    assert HasField(s, Shard(prefk, epoch + 1), field);
    assert Newest(s, prefk, field, epoch + 1) == Some(epoch + 1);
  }

  /** `mov` at epoch E is visible once the epoch is E + 1. */
  lemma MovVisibleAfterCommit(db: Db, prefk: string, epoch: nat, field: string, defva: KvValue,
                              argum: KvValue, defva2: KvValue)
    ensures QueryValue(UpdateState(db, prefk, epoch, field, defva, argum, "mov"), prefk, epoch + 1, field, defva2)
            == argum
  {
    var s := UpdateState(db, prefk, epoch, field, defva, argum, "mov");
    assert HasField(s, Shard(prefk, epoch + 1), field);
    assert Newest(s, prefk, field, epoch + 1) == Some(epoch + 1);
  }

  /** Any other merge string replies 0 and leaves shard `epoch + 1` as the read left it. */
  lemma UnknownMergeWritesNothing(db: Db, prefk: string, epoch: nat, field: string, defva: KvValue,
                                  argum: KvValue, merge: string)
    requires merge != "add" && merge != "mov"
    ensures UpdateReply(db, prefk, epoch, field, defva, argum, merge) == Ok(0)
    ensures UpdateState(db, prefk, epoch, field, defva, argum, merge) == QueryState(db, prefk, epoch, field, defva)
  {
  }

  // ---- The script as written -------------------------------------------------

  /** The scan as the script text has it. `value` is declared `local` inside
      the loop body, so the test after the loop reads the global `value`. The
      store runs scripts with global variables protected, and reading an
      undeclared global raises a script error there. The deletion the loop made
      stays; nothing is written to shard `epoch` and no value is returned. */
  method QueryBaseAsWritten(db: Redis, prefk: string, epoch: nat, field: string, defva: KvValue)
    returns (r: Result<KvValue, RedisError>)
    modifies db
    ensures r == Err(ScriptError)
    ensures db.data == QueryStateAsWritten(old(db.data), prefk, epoch, field)
  {
    var ep: int := epoch;
    while ep >= 0
      invariant -1 <= ep <= epoch
      invariant db.data == old(db.data)
      invariant Newest(db.data, prefk, field, ep) == Newest(db.data, prefk, field, epoch)
    {
      var key := Shard(prefk, ep);
      var local := db.HGet(key, field);
      if local.Some? {
        var _ := db.HDel(key, field);
        break;
      }
      ep := ep - 1;
    }
    r := Err(ScriptError);
  }

  /** The store after the script as written: only the deletion of the value
      found. */
  function QueryStateAsWritten(db: Db, prefk: string, epoch: nat, field: string): Db {
    match Newest(db, prefk, field, epoch)
    case Some(e) => WithoutField(db, Shard(prefk, e), field)
    case None => db
  }

  /** `atomic_query_kv` as written: the script error is logged and turned into
      None, so every read yields None, after deleting the value it found. */
  method AtomicQueryKvAsWritten(db: Redis, prefk: string, epoch: nat, field: string, defva: KvValue,
                                connectionFails: bool)
    returns (r: Option<KvValue>)
    modifies db
    ensures r == None
    ensures connectionFails ==> db.data == old(db.data)
    ensures !connectionFails ==> db.data == QueryStateAsWritten(old(db.data), prefk, epoch, field)
  {
    if connectionFails {
      return None;
    }
    var reply := QueryBaseAsWritten(db, prefk, epoch, field, defva);
    r := match reply
      case Ok(v) => Some(v)
      case Err(_) => None;
  }

  /** A stored value is lost by the script as written: shard 0 holds 5, and
      after a read at epoch 0 no shard holds the field any more, where the
      intended read returns 5 and keeps it in shard 0. */
  lemma ScopingLosesStoredValue(prefk: string, field: string)
    ensures var db: Db := map[Shard(prefk, 0) := map[field := Int(5)]];
            QueryValue(db, prefk, 0, field, Int(0)) == Int(5)
            && QueryState(db, prefk, 0, field, Int(0))[Shard(prefk, 0)][field] == Int(5)
            && forall e: nat :: !HasField(QueryStateAsWritten(db, prefk, 0, field), Shard(prefk, e), field)
  {
    var db: Db := map[Shard(prefk, 0) := map[field := Int(5)]];
    assert Newest(db, prefk, field, 0) == Some(0);
    var after := QueryStateAsWritten(db, prefk, 0, field);
    forall e: nat
      ensures !HasField(after, Shard(prefk, e), field)
    {
      if Shard(prefk, e) == Shard(prefk, 0) {
        ShardInjective(prefk, e, 0);
      }
    }
  }

  /** As written, `atomic_update_kv` never writes shard `epoch + 1`: a `mov` at
      epoch 0 is not visible at epoch 1, where the corrected call makes it so. */
  lemma UpdateAsWrittenLosesMov(prefk: string, field: string)
    ensures var db: Db := map[];
            QueryValue(QueryState(db, prefk, 0, field, Int(0)), prefk, 1, field, Int(0)) == Int(0)
            && QueryValue(UpdateState(db, prefk, 0, field, Int(0), Int(7), MergeName(Mov)), prefk, 1, field, Int(0)) == Int(7)
  {
    var db: Db := map[];
    var q := QueryState(db, prefk, 0, field, Int(0));
    assert Newest(q, prefk, field, 1) == Some(0) by {
      if Shard(prefk, 1) == Shard(prefk, 0) {
        ShardInjective(prefk, 1, 0);
      }
      assert !HasField(q, Shard(prefk, 1), field);
      assert HasField(q, Shard(prefk, 0), field);
    }
    MovVisibleAfterCommit(db, prefk, 0, field, Int(0), Int(7), Int(0));
  }
}
