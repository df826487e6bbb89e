/** `increment_epoch_impl` (wart-worker/src/rpc_server/services/increment_epoch/mod.rs):
    one HINCRBY of the `epoch` field of `wart:session:<token>` by 1, whose new
    value is returned as a `u64`. */
module IncrementEpoch {
  import opened Base
  import opened RedisStore
  import Keys
  import Rpc

  /** The reply and the final store. Command 0 is the increment. A negative
      new value is written by the store but does not convert to `u64`. */
  function IncrementEpochSpec(db: Db, token: string, failAt: Option<nat>): (Result<nat, RedisError>, Db) {
    if failAt == Some(0) then (Err(ConnectionLost), db)
    else
      match Incremented(db, Keys.SessionKey(token), "epoch", 1)
      case Err(e) => (Err(e), db)
      case Ok(n) =>
        var d := WithField(db, Keys.SessionKey(token), "epoch", Int(n));
        if n >= 0 then (Ok(n), d) else (Err(ResponseType), d)
  }

  method IncrementEpochImpl(db: Redis, token: string, failAt: Option<nat>) returns (r: Result<nat, RedisError>)
    modifies db
    ensures (r, db.data) == IncrementEpochSpec(old(db.data), token, failAt)
  {
    if failAt == Some(0) {
      return Err(ConnectionLost);
    }
    var key := Keys.SessionKey(token);
    var reply := db.HIncrBy(key, "epoch", 1);
    r := match reply
      case Err(e) => Err(e)
      case Ok(n) => if n >= 0 then Ok(n) else Err(ResponseType);
  }

  /** `increment_epoch`: the handler's reply around `increment_epoch_impl`. */
  method IncrementEpoch(db: Redis, token: string, failAt: Option<nat>) returns (r: Result<nat, Rpc.Status>)
    modifies db
    ensures db.data == IncrementEpochSpec(old(db.data), token, failAt).1
    ensures r == Rpc.Respond(WithText(IncrementEpochSpec(old(db.data), token, failAt).0))
  {
    var out := IncrementEpochImpl(db, token, failAt);
    r := Rpc.Respond(WithText(out));
  }

  /** The epoch read by the increment: a missing field counts as 0. */
  function EpochBefore(db: Db, token: string): Result<int, RedisError> {
    IntegerField(db, Keys.SessionKey(token), "epoch")
  }

  /** A successful call stores and returns exactly the old epoch plus one. */
  lemma IncrementGrowsByOne(db: Db, token: string, failAt: Option<nat>)
    requires IncrementEpochSpec(db, token, failAt).0.Ok?
    ensures EpochBefore(db, token).Ok?
    ensures var (r, d) := IncrementEpochSpec(db, token, failAt);
            r.value == EpochBefore(db, token).value + 1
            && FieldOf(d, Keys.SessionKey(token), "epoch") == Some(Int(r.value))
  {
  }

  /** Only the `epoch` field of the session record is touched. */
  lemma IncrementTouchesOnlyEpoch(db: Db, token: string, failAt: Option<nat>, k: string, f: string)
    requires k != Keys.SessionKey(token) || f != "epoch"
    ensures FieldOf(IncrementEpochSpec(db, token, failAt).1, k, f) == FieldOf(db, k, f)
    ensures var d := IncrementEpochSpec(db, token, failAt).1;
            k != Keys.SessionKey(token) ==> (k in d <==> k in db) && (k in db ==> d[k] == db[k])
  {
    match Incremented(db, Keys.SessionKey(token), "epoch", 1)
    case Err(_) =>
    case Ok(n) => WithFieldFrame(db, Keys.SessionKey(token), "epoch", Int(n), k, f);
  }

  /** Two successful calls in a row return strictly increasing epochs, the
      second exactly one above the first. */
  lemma {:induction false} SuccessiveIncrementsIncrease(db: Db, token: string, fail1: Option<nat>, fail2: Option<nat>)
    requires IncrementEpochSpec(db, token, fail1).0.Ok?
    requires IncrementEpochSpec(IncrementEpochSpec(db, token, fail1).1, token, fail2).0.Ok?
    ensures var (r1, d1) := IncrementEpochSpec(db, token, fail1);
            var r2 := IncrementEpochSpec(d1, token, fail2).0;
            r2.value == r1.value + 1 && r1.value < r2.value
  {
    var (r1, d1) := IncrementEpochSpec(db, token, fail1);
    IncrementGrowsByOne(db, token, fail1);
    IncrementGrowsByOne(d1, token, fail2);
  }

  /** The client sees the new epoch, one more than the stored one, or an
      aborted status carrying the error's text; a lost connection is reported
      as such. */
  lemma IncrementEpochReplies(db: Db, token: string, failAt: Option<nat>)
    ensures var s := Rpc.Respond(WithText(IncrementEpochSpec(db, token, failAt).0));
            s.Ok? ==> EpochBefore(db, token).Ok? && s.value == EpochBefore(db, token).value + 1
    ensures var s := Rpc.Respond(WithText(IncrementEpochSpec(db, token, failAt).0));
            s.Err? ==> s.error.code == Rpc.Aborted
                       && exists e :: IncrementEpochSpec(db, token, failAt).0 == Err(e) && s.error.message == ErrorText(e)
    ensures failAt == Some(0) ==>
              Rpc.Respond(WithText(IncrementEpochSpec(db, token, failAt).0)) == Err(Rpc.AbortedWith(ErrorText(ConnectionLost)))
  {
    if IncrementEpochSpec(db, token, failAt).0.Ok? {
      IncrementGrowsByOne(db, token, failAt);
    }
  }
}
