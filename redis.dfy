/** The external key-value store the session services and scripts talk to:
    every key holds a hash of fields. Deleting the last field of a hash removes
    the key, as the store does. Values are integers, text or raw bytes; text is
    treated as non-numeric. */
module RedisStore {
  import opened Base

  datatype KvValue = Int(n: int) | Str(s: string) | Bytes(b: seq<Byte>)

  type Hash = map<string, KvValue>
  type Db = map<string, Hash>

  /** Failures a command can report. */
  datatype RedisError =
    | ConnectionLost        // the connection or the pool failed
    | NotAnInteger          // HINCRBY on a field that does not hold a 64-bit integer
    | IncrementOverflow     // HINCRBY past the 64-bit range
    | ResponseType          // a reply that does not convert to the type the caller asked for
    | ScriptError           // a script raised a runtime error

  /** The text an error displays as. The store client's own wording is not
      modelled; each error gets a text of its own. */
  function ErrorText(e: RedisError): string {
    match e
    case ConnectionLost => "connection lost"
    case NotAnInteger => "hash value is not an integer"
    case IncrementOverflow => "increment or decrement would overflow"
    case ResponseType => "response was of incompatible type"
    case ScriptError => "script error"
  }

  /** `err.to_string()` of a store error; a success is kept. */
  function WithText<T>(r: Result<T, RedisError>): (s: Result<T, string>)
    ensures s.Ok? <==> r.Ok?
    ensures r.Ok? ==> s.value == r.value
    ensures r.Err? ==> s.error == ErrorText(r.error)
  {
    match r
    case Ok(v) => Ok(v)
    case Err(e) => Err(ErrorText(e))
  }

  predicate HasField(db: Db, key: string, field: string) {
    key in db && field in db[key]
  }

  function FieldOf(db: Db, key: string, field: string): Option<KvValue> {
    if HasField(db, key, field) then Some(db[key][field]) else None
  }

  /** HSET: the hash is created when absent. */
  function WithField(db: Db, key: string, field: string, v: KvValue): (r: Db)
    ensures HasField(r, key, field) && r[key][field] == v
  {
    db[key := (if key in db then db[key] else map[])[field := v]]
  }

  /** HDEL: an emptied hash disappears. */
  function WithoutField(db: Db, key: string, field: string): (r: Db)
    ensures !HasField(r, key, field)
    ensures r.Keys <= db.Keys
  {
    if HasField(db, key, field) then
      var h := db[key] - {field};
      if h == map[] then db - {key} else db[key := h]
    else db
  }

  /** The integer a field holds for HINCRBY: a missing field counts as 0. */
  function IntegerField(db: Db, key: string, field: string): Result<int, RedisError> {
    match FieldOf(db, key, field)
    case None => Ok(0)
    case Some(v) =>
      if v.Int? && MinI64 <= v.n <= MaxI64 then Ok(v.n) else Err(NotAnInteger)
  }

  /** HINCRBY: the new value, or the error the store replies with. */
  function Incremented(db: Db, key: string, field: string, delta: int): Result<int, RedisError> {
    match IntegerField(db, key, field)
    case Err(e) => Err(e)
    case Ok(n) => if MinI64 <= n + delta <= MaxI64 then Ok(n + delta) else Err(IncrementOverflow)
  }

  /** HSET changes no other field of any key. */
  lemma WithFieldFrame(db: Db, key: string, field: string, v: KvValue, k: string, f: string)
    requires k != key || f != field
    ensures FieldOf(WithField(db, key, field, v), k, f) == FieldOf(db, k, f)
  {
  }

  /** After HSET a field reads the value written when it is the one written,
      and what it read before otherwise. */
  lemma WithFieldRead(db: Db, key: string, field: string, v: KvValue, k: string, f: string)
    ensures FieldOf(WithField(db, key, field, v), k, f)
            == if k == key && f == field then Some(v) else FieldOf(db, k, f)
  {
    if k != key || f != field {
      WithFieldFrame(db, key, field, v, k, f);
    }
  }

  /** HSET of one field does not change what HINCRBY makes of another. */
  lemma IncrementedFrame(db: Db, key: string, field: string, v: KvValue, f: string, delta: int)
    requires f != field
    ensures Incremented(WithField(db, key, field, v), key, f, delta) == Incremented(db, key, f, delta)
  {
    WithFieldFrame(db, key, field, v, key, f);
  }

  /** HSET leaves every other key as it was. */
  lemma WithFieldOtherKey(db: Db, key: string, field: string, v: KvValue, k: string)
    requires k != key
    ensures k in WithField(db, key, field, v) <==> k in db
    ensures k in db ==> WithField(db, key, field, v)[k] == db[k]
  {
  }

  /** HDEL leaves every other key as it was. */
  lemma WithoutFieldOtherKey(db: Db, key: string, field: string, k: string)
    requires k != key
    ensures k in WithoutField(db, key, field) <==> k in db
    ensures k in db ==> WithoutField(db, key, field)[k] == db[k]
  {
  }

  /** HDEL changes no other field of any key. */
  lemma WithoutFieldFrame(db: Db, key: string, field: string, k: string, f: string)
    requires k != key || f != field
    ensures FieldOf(WithoutField(db, key, field), k, f) == FieldOf(db, k, f)
  {
    if HasField(db, key, field) && k == key {
      var h := db[key] - {field};
      assert f in db[key] <==> f in h;
    }
  }

  class Redis {
    var data: Db

    constructor (init: Db)
      ensures data == init
    {
      data := init;
    }

    function HGet(key: string, field: string): Option<KvValue>
      reads this
    {
      FieldOf(data, key, field)
    }

    function Exists(key: string): bool
      reads this
    {
      key in data
    }

    /** Returns the number of fields added (0 when an existing field is overwritten). */
    method HSet(key: string, field: string, v: KvValue) returns (added: nat)
      modifies this
      ensures data == WithField(old(data), key, field, v)
      ensures added == if HasField(old(data), key, field) then 0 else 1
    {
      added := if HasField(data, key, field) then 0 else 1;
      data := WithField(data, key, field, v);
    }

    /** Returns the number of fields removed. */
    method HDel(key: string, field: string) returns (removed: nat)
      modifies this
      ensures data == WithoutField(old(data), key, field)
      ensures removed == if HasField(old(data), key, field) then 1 else 0
    {
      removed := if HasField(data, key, field) then 1 else 0;
      data := WithoutField(data, key, field);
    }

    method HIncrBy(key: string, field: string, delta: int) returns (r: Result<int, RedisError>)
      modifies this
      ensures r == Incremented(old(data), key, field, delta)
      ensures data == if r.Ok? then WithField(old(data), key, field, Int(r.value)) else old(data)
    {
      r := Incremented(data, key, field, delta);
      if r.Ok? {
        data := WithField(data, key, field, Int(r.value));
      }
    }

    /** Returns the number of keys removed. */
    method Unlink(key: string) returns (removed: nat)
      modifies this
      ensures data == old(data) - {key}
      ensures removed == if key in old(data) then 1 else 0
    {
      removed := if key in data then 1 else 0;
      data := data - {key};
    }
  }
}
