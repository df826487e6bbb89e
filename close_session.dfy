/** `close_session_impl` (wart-worker/src/rpc_server/services/close_session/mod.rs):
    read the session's epoch, unlink the shards `wart:store:<token>:<ep>` for
    ep = 0 .. epoch + 1 in increasing order, then unlink the session record.
    Any failing command ends the call with that error. */
module CloseSession {
  import opened Base
  import opened RedisStore
  import Keys
  import Rpc

  /** The session's epoch as the `u64` the handler reads: a missing field or
      record, or a value that is not a non-negative integer, does not convert. */
  function StoredEpoch(db: Db, token: string): (r: Result<nat, RedisError>)
    ensures r.Ok? <==> exists n: int :: 0 <= n <= MaxI64 && FieldOf(db, Keys.SessionKey(token), "epoch") == Some(Int(n))
    ensures r.Ok? ==> FieldOf(db, Keys.SessionKey(token), "epoch") == Some(Int(r.value))
    ensures r.Err? ==> r.error == ResponseType
  {
    match FieldOf(db, Keys.SessionKey(token), "epoch")
    case Some(Int(n)) => if 0 <= n <= MaxI64 then Ok(n) else Err(ResponseType)
    case _ => Err(ResponseType)
  }

  /** The shard keys of epochs below `n`. */
  function ShardsBelow(token: string, n: nat): (ks: set<string>)
    ensures forall ep: nat :: ep < n ==> Keys.ShardKey(token, ep) in ks
    ensures forall k :: k in ks ==> exists ep: nat :: ep < n && k == Keys.ShardKey(token, ep)
  {
    set ep: nat | ep < n :: Keys.ShardKey(token, ep)
  }

  /** The reply and the final store. Command 0 reads the epoch, command 1 + ep
      unlinks shard ep, and command epoch + 3 unlinks the session record. */
  function CloseSessionSpec(db: Db, token: string, failAt: Option<nat>): (Result<(), RedisError>, Db) {
    if failAt == Some(0) then (Err(ConnectionLost), db)
    else
      match StoredEpoch(db, token)
      case Err(e) => (Err(e), db)
      case Ok(epoch) =>
        if failAt.Some? && 1 <= failAt.value <= epoch + 2 then
          (Err(ConnectionLost), db - ShardsBelow(token, failAt.value - 1))
        else if failAt == Some(epoch + 3) then
          (Err(ConnectionLost), db - ShardsBelow(token, epoch + 2))
        else
          (Ok(()), db - ShardsBelow(token, epoch + 2) - {Keys.SessionKey(token)})
  }

  method CloseSessionImpl(db: Redis, token: string, failAt: Option<nat>) returns (r: Result<(), RedisError>)
    modifies db
    ensures (r, db.data) == CloseSessionSpec(old(db.data), token, failAt)
  {
    if failAt == Some(0) {
      return Err(ConnectionLost);
    }
    var key := Keys.SessionKey(token);
    var read := StoredEpoch(db.data, token);
    if read.Err? {
      return Err(read.error);
    }
    var epoch := read.value;
    var ep := 0;
    while ep <= epoch + 1
      invariant 0 <= ep <= epoch + 2
      invariant db.data == old(db.data) - ShardsBelow(token, ep)
      invariant failAt.Some? && 1 <= failAt.value ==> ep < failAt.value
    {
      if failAt == Some(1 + ep) {
        return Err(ConnectionLost);
      }
      var removed := db.Unlink(Keys.ShardKey(token, ep));
      assert ShardsBelow(token, ep + 1) == ShardsBelow(token, ep) + {Keys.ShardKey(token, ep)};
      ep := ep + 1;
    }
    if failAt == Some(epoch + 3) {
      return Err(ConnectionLost);
    }
    var removed := db.Unlink(key);
    r := Ok(());
  }

  /** `close_session`: the handler's reply around `close_session_impl`. */
  method CloseSession(db: Redis, token: string, failAt: Option<nat>) returns (r: Result<(), Rpc.Status>)
    modifies db
    ensures db.data == CloseSessionSpec(old(db.data), token, failAt).1
    ensures r == Rpc.Respond(WithText(CloseSessionSpec(old(db.data), token, failAt).0))
  {
    var out := CloseSessionImpl(db, token, failAt);
    r := Rpc.Respond(WithText(out));
  }

  /** If the epoch cannot be read, nothing is deleted. */
  lemma UnreadableEpochDeletesNothing(db: Db, token: string, failAt: Option<nat>)
    requires StoredEpoch(db, token).Err? || failAt == Some(0)
    ensures CloseSessionSpec(db, token, failAt).1 == db
    ensures CloseSessionSpec(db, token, failAt).0.Err?
  {
  }

  /** A successful close removes the session record and the shards of epochs
      0 .. epoch + 1, and nothing else: the store hash `wart:store:<token>` and
      the shards above epoch + 1 remain. */
  lemma CloseRemovesSessionAndShards(db: Db, token: string, failAt: Option<nat>, k: string)
    requires CloseSessionSpec(db, token, failAt).0.Ok?
    ensures StoredEpoch(db, token).Ok?
    ensures var d := CloseSessionSpec(db, token, failAt).1;
            var epoch := StoredEpoch(db, token).value;
            Keys.SessionKey(token) !in d
            && (forall ep: nat :: ep <= epoch + 1 ==> Keys.ShardKey(token, ep) !in d)
            && (k != Keys.SessionKey(token) && (forall ep: nat :: ep <= epoch + 1 ==> k != Keys.ShardKey(token, ep))
                ==> (k in d <==> k in db) && (k in db ==> d[k] == db[k]))
  {
  }

  /** The un-suffixed store hash survives every close. */
  lemma CloseKeepsStoreHash(db: Db, token: string, failAt: Option<nat>)
    ensures var d := CloseSessionSpec(db, token, failAt).1;
            (Keys.StoreKey(token) in d <==> Keys.StoreKey(token) in db)
            && (Keys.StoreKey(token) in db ==> d[Keys.StoreKey(token)] == db[Keys.StoreKey(token)])
  {
    forall ep: nat
      ensures Keys.StoreKey(token) != Keys.ShardKey(token, ep)
    {
      Keys.KeysDistinct(token, token, ep);
    }
    Keys.KeysDistinct(token, token, 0);
  }

  /** A failing unlink stops the call: the shards from the failing one on and
      the session record remain. */
  lemma FailedUnlinkKeepsTheRest(db: Db, token: string, failAt: Option<nat>, ep: nat)
    requires StoredEpoch(db, token).Ok? && failAt.Some?
    requires 1 <= failAt.value <= StoredEpoch(db, token).value + 3
    requires failAt.value - 1 <= ep
    ensures var d := CloseSessionSpec(db, token, failAt).1;
            (Keys.ShardKey(token, ep) in d <==> Keys.ShardKey(token, ep) in db)
            && (Keys.SessionKey(token) in d <==> Keys.SessionKey(token) in db)
  {
    forall e: nat | e < failAt.value - 1
      ensures Keys.ShardKey(token, ep) != Keys.ShardKey(token, e)
    {
      if Keys.ShardKey(token, ep) == Keys.ShardKey(token, e) {
        Keys.ShardInjective(Keys.StoreKey(token) + ":", ep, e);
      }
    }
    forall e: nat
      ensures Keys.SessionKey(token) != Keys.ShardKey(token, e)
    {
      Keys.KeysDistinct(token, token, e);
    }
  }

  /** The client sees success only when the epoch was read, and otherwise an
      aborted status with the error's text; an unreadable epoch is reported as
      a reply of the wrong type. */
  lemma CloseSessionReplies(db: Db, token: string, failAt: Option<nat>)
    ensures var s := Rpc.Respond(WithText(CloseSessionSpec(db, token, failAt).0));
            s.Ok? ==> StoredEpoch(db, token).Ok?
    ensures var s := Rpc.Respond(WithText(CloseSessionSpec(db, token, failAt).0));
            s.Err? ==> s.error.code == Rpc.Aborted
                       && exists e :: CloseSessionSpec(db, token, failAt).0 == Err(e) && s.error.message == ErrorText(e)
    ensures failAt != Some(0) && StoredEpoch(db, token).Err? ==>
              Rpc.Respond(WithText(CloseSessionSpec(db, token, failAt).0)) == Err(Rpc.AbortedWith(ErrorText(ResponseType)))
  {
  }
}
