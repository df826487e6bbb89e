/** How the session services compose over one token: what an increment or a
    close sees right after `open_session`, and how the versioned scripts see
    the epochs that `increment_epoch` hands out. */
module SessionLifecycle {
  import opened Base
  import opened RedisStore
  import Keys
  import OpenSession
  import CloseSession
  import IncrementEpoch

  /** `open_session` writes no epoch, so the first increment on a fresh token
      returns 1 and leaves 1 as the epoch `close_session` reads. */
  lemma FirstIncrementAfterOpenIsOne(db: Db, req: OpenSession.OpenSessionRequest, code: seq<Byte>, token: string)
    requires Keys.SessionKey(token) !in db
    ensures var (r, d) := IncrementEpoch.IncrementEpochSpec(OpenSession.Opened(db, req, token, code), token, None);
            r == Ok(1) && CloseSession.StoredEpoch(d, token) == Ok(1)
  {
    var d1 := OpenSession.Opened(db, req, token, code);
    OpenSession.OpenWritesNoEpoch(db, req, token, code);
    IncrementEpoch.IncrementGrowsByOne(d1, token, None);
  }

  /** Closing a session that was only opened fails on the epoch read and
      deletes nothing: `open_session` never writes the field `close_session`
      needs. */
  lemma CloseRightAfterOpenFails(db: Db, req: OpenSession.OpenSessionRequest, code: seq<Byte>, token: string, failAt: Option<nat>)
    requires Keys.SessionKey(token) !in db
    ensures var d := OpenSession.Opened(db, req, token, code);
            CloseSession.CloseSessionSpec(d, token, failAt).0.Err?
            && CloseSession.CloseSessionSpec(d, token, failAt).1 == d
  {
    OpenSession.OpenWritesNoEpoch(db, req, token, code);
  }

  /** A close at epoch 1 succeeds, removes the session record and the shards
      0 .. 2, and keeps the store hash. */
  lemma CloseAtEpochOne(db: Db, token: string)
    requires CloseSession.StoredEpoch(db, token) == Ok(1)
    requires Keys.StoreKey(token) in db
    ensures var (r, d) := CloseSession.CloseSessionSpec(db, token, None);
            r.Ok? && Keys.SessionKey(token) !in d && Keys.StoreKey(token) in d
            && forall ep: nat :: ep <= 2 ==> Keys.ShardKey(token, ep) !in d
  {
    CloseSession.CloseKeepsStoreHash(db, token, None);
    CloseSession.CloseRemovesSessionAndShards(db, token, None, Keys.StoreKey(token));
  }

  /** Open, one increment, close: the close succeeds, removes the session
      record and the shards 0 .. 2, and leaves the store hash behind. */
  lemma OpenIncrementClose(db: Db, req: OpenSession.OpenSessionRequest, code: seq<Byte>, token: string)
    requires Keys.SessionKey(token) !in db
    ensures var d1 := OpenSession.Opened(db, req, token, code);
            var d2 := IncrementEpoch.IncrementEpochSpec(d1, token, None).1;
            var (r, d3) := CloseSession.CloseSessionSpec(d2, token, None);
            r.Ok? && Keys.SessionKey(token) !in d3 && Keys.StoreKey(token) in d3
            && forall ep: nat :: ep <= 2 ==> Keys.ShardKey(token, ep) !in d3
  {
    var d1 := OpenSession.Opened(db, req, token, code);
    Keys.KeysDistinct(token, token, 0);
    assert Keys.StoreKey(token) in d1 by {
      OpenSession.OpenedWritesBatch(db, req, token, code);
    }
    FirstIncrementAfterOpenIsOne(db, req, code, token);
    var d2 := IncrementEpoch.IncrementEpochSpec(d1, token, None).1;
    IncrementEpoch.IncrementTouchesOnlyEpoch(d1, token, None, Keys.StoreKey(token), "__dummy__");
    CloseAtEpochOne(d2, token);
  }
}
