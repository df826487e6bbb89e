/** `open_session_impl` (wart-worker/src/rpc_server/services/open_session/mod.rs):
    compile the program, make a fresh token, write the session record and the
    store hash in one atomic pipeline, then read the token back. The compiler's
    outcome and the generated token are inputs of the model. */
module OpenSession {
  import opened Base
  import opened RedisStore
  import Keys
  import Rpc

  datatype OpenSessionRequest = OpenSessionRequest(
    spaceName: string,
    program: seq<Byte>,
    ioTimeout: int,
    exTimeout: int)

  datatype OpenError = CompileFailed(message: string) | Backend(cause: RedisError)

  /** The fields the pipeline writes into `wart:session:<token>`; no `epoch`. */
  function SessionFields(req: OpenSessionRequest, token: string, code: seq<Byte>): (h: Hash)
    ensures h.Keys == {"space_name", "token", "module", "io_timeout", "ex_timeout"}
    ensures "epoch" !in h
  {
    map["space_name" := Str(req.spaceName), "token" := Str(token), "module" := Bytes(code),
        "io_timeout" := Int(req.ioTimeout), "ex_timeout" := Int(req.exTimeout)]
  }

  /** The store after the atomic pipeline: every field of the batch is set, the
      fields the hashes already had are kept. */
  function Opened(db: Db, req: OpenSessionRequest, token: string, code: seq<Byte>): Db {
    var s := Keys.SessionKey(token);
    var d1 := WithField(db, s, "space_name", Str(req.spaceName));
    var d2 := WithField(d1, s, "token", Str(token));
    var d3 := WithField(d2, s, "module", Bytes(code));
    var d4 := WithField(d3, s, "io_timeout", Int(req.ioTimeout));
    var d5 := WithField(d4, s, "ex_timeout", Int(req.exTimeout));
    WithField(d5, Keys.StoreKey(token), "__dummy__", Str(req.spaceName))
  }

  /** The reply and the final store. Command 0 is the atomic pipeline, command 1
      the read-back of the token. */
  function OpenSessionSpec(db: Db, req: OpenSessionRequest, compiled: Result<seq<Byte>, string>,
                           token: string, failAt: Option<nat>): (Result<string, OpenError>, Db)
  {
    if compiled.Err? then (Err(CompileFailed(compiled.error)), db)
    else if failAt == Some(0) then (Err(Backend(ConnectionLost)), db)
    else
      var d := Opened(db, req, token, compiled.value);
      if failAt == Some(1) then (Err(Backend(ConnectionLost)), d)
      else
        match FieldOf(d, Keys.SessionKey(token), "token")
        case Some(Str(t)) => (Ok(t), d)
        case _ => (Err(Backend(ResponseType)), d)
  }

  method OpenSessionImpl(db: Redis, req: OpenSessionRequest, compiled: Result<seq<Byte>, string>,
                         token: string, failAt: Option<nat>)
    returns (r: Result<string, OpenError>)
    modifies db
    ensures (r, db.data) == OpenSessionSpec(old(db.data), req, compiled, token, failAt)
  {
    if compiled.Err? {
      return Err(CompileFailed(compiled.error));
    }
    var code := compiled.value;
    var sessionKey := Keys.SessionKey(token);
    var storeKey := Keys.StoreKey(token);
    if failAt == Some(0) {
      return Err(Backend(ConnectionLost));
    }
    var added := db.HSet(sessionKey, "space_name", Str(req.spaceName));
    added := db.HSet(sessionKey, "token", Str(token));
    added := db.HSet(sessionKey, "module", Bytes(code));
    added := db.HSet(sessionKey, "io_timeout", Int(req.ioTimeout));
    added := db.HSet(sessionKey, "ex_timeout", Int(req.exTimeout));
    added := db.HSet(storeKey, "__dummy__", Str(req.spaceName));
    if failAt == Some(1) {
      return Err(Backend(ConnectionLost));
    }
    var back := db.HGet(sessionKey, "token");
    r := match back
      case Some(Str(t)) => Ok(t)
      case _ => Err(Backend(ResponseType));
  }

  /** What any field reads after the pipeline: the batch value for a field of
      the batch, what it read before otherwise. */
  lemma {:induction false} OpenedRead(db: Db, req: OpenSessionRequest, token: string, code: seq<Byte>, k: string, f: string)
    ensures FieldOf(Opened(db, req, token, code), k, f)
            == if k == Keys.SessionKey(token) && f in SessionFields(req, token, code) then Some(SessionFields(req, token, code)[f])
               else if k == Keys.StoreKey(token) && f == "__dummy__" then Some(Str(req.spaceName))
               else FieldOf(db, k, f)
  {
    var s := Keys.SessionKey(token);
    var st := Keys.StoreKey(token);
    Keys.KeysDistinct(token, token, 0);
    var d1 := WithField(db, s, "space_name", Str(req.spaceName));
    var d2 := WithField(d1, s, "token", Str(token));
    var d3 := WithField(d2, s, "module", Bytes(code));
    var d4 := WithField(d3, s, "io_timeout", Int(req.ioTimeout));
    var d5 := WithField(d4, s, "ex_timeout", Int(req.exTimeout));
    WithFieldRead(db, s, "space_name", Str(req.spaceName), k, f);
    WithFieldRead(d1, s, "token", Str(token), k, f);
    WithFieldRead(d2, s, "module", Bytes(code), k, f);
    WithFieldRead(d3, s, "io_timeout", Int(req.ioTimeout), k, f);
    WithFieldRead(d4, s, "ex_timeout", Int(req.exTimeout), k, f);
    WithFieldRead(d5, st, "__dummy__", Str(req.spaceName), k, f);
  }

  /** The pipeline sets every field of the batch. */
  lemma {:induction false} OpenedWritesBatch(db: Db, req: OpenSessionRequest, token: string, code: seq<Byte>)
    ensures var d := Opened(db, req, token, code);
            forall f :: f in SessionFields(req, token, code) ==>
              FieldOf(d, Keys.SessionKey(token), f) == Some(SessionFields(req, token, code)[f])
    ensures FieldOf(Opened(db, req, token, code), Keys.StoreKey(token), "__dummy__") == Some(Str(req.spaceName))
  {
    forall f | f in SessionFields(req, token, code)
      ensures FieldOf(Opened(db, req, token, code), Keys.SessionKey(token), f) == Some(SessionFields(req, token, code)[f])
    {
      OpenedRead(db, req, token, code, Keys.SessionKey(token), f);
    }
    Keys.KeysDistinct(token, token, 0);
    OpenedRead(db, req, token, code, Keys.StoreKey(token), "__dummy__");
  }

  /** The pipeline changes no key but the two it writes. */
  lemma OpenedFrame(db: Db, req: OpenSessionRequest, token: string, code: seq<Byte>, k: string)
    requires k != Keys.SessionKey(token) && k != Keys.StoreKey(token)
    ensures var d := Opened(db, req, token, code);
            (k in d <==> k in db) && (k in db ==> d[k] == db[k])
  {
  }

  /** Other fields of the two hashes are untouched. */
  lemma OpenedKeepsOtherFields(db: Db, req: OpenSessionRequest, token: string, code: seq<Byte>, k: string, f: string)
    requires f !in SessionFields(req, token, code) && f != "__dummy__"
    ensures FieldOf(Opened(db, req, token, code), k, f) == FieldOf(db, k, f)
  {
  }

  /** The text an open error displays as: the compiler's message, or the
      store error's. */
  function OpenErrorText(e: OpenError): string {
    match e
    case CompileFailed(m) => m
    case Backend(c) => ErrorText(c)
  }

  /** `open_session`: the handler's reply around `open_session_impl`. */
  method OpenSession(db: Redis, req: OpenSessionRequest, compiled: Result<seq<Byte>, string>,
                     token: string, failAt: Option<nat>)
    returns (r: Result<string, Rpc.Status>)
    modifies db
    ensures db.data == OpenSessionSpec(old(db.data), req, compiled, token, failAt).1
    ensures r == Rpc.Respond(Texted(OpenSessionSpec(old(db.data), req, compiled, token, failAt).0))
  {
    var out := OpenSessionImpl(db, req, compiled, token, failAt);
    r := Rpc.Respond(Texted(out));
  }

  /** `err.to_string()` of an open error; a success is kept. */
  function Texted(r: Result<string, OpenError>): (s: Result<string, string>)
    ensures s.Ok? <==> r.Ok?
    ensures r.Ok? ==> s.value == r.value
    ensures r.Err? ==> s.error == OpenErrorText(r.error)
  {
    match r
    case Ok(v) => Ok(v)
    case Err(e) => Err(OpenErrorText(e))
  }

  /** A compile failure is reported before any token is used or any write. */
  lemma CompileFailureWritesNothing(db: Db, req: OpenSessionRequest, message: string, token: string, failAt: Option<nat>)
    ensures OpenSessionSpec(db, req, Err(message), token, failAt) == (Err(CompileFailed(message)), db)
  {
  }

  /** The batch is atomic: the store is either unchanged or holds the whole
      batch. */
  lemma OpenAllOrNothing(db: Db, req: OpenSessionRequest, compiled: Result<seq<Byte>, string>,
                         token: string, failAt: Option<nat>)
    ensures var d := OpenSessionSpec(db, req, compiled, token, failAt).1;
            d == db || (compiled.Ok? && d == Opened(db, req, token, compiled.value))
  {
  }

  /** A call succeeds exactly when compilation and both commands do, and then
      returns the token it wrote. */
  lemma OpenReturnsToken(db: Db, req: OpenSessionRequest, compiled: Result<seq<Byte>, string>,
                         token: string, failAt: Option<nat>)
    ensures var r := OpenSessionSpec(db, req, compiled, token, failAt).0;
            r.Ok? <==> compiled.Ok? && failAt != Some(0) && failAt != Some(1)
    ensures var r := OpenSessionSpec(db, req, compiled, token, failAt).0;
            r.Ok? ==> r.value == token
  {
    if compiled.Ok? && failAt != Some(0) && failAt != Some(1) {
      var d := Opened(db, req, token, compiled.value);
      OpenedWritesBatch(db, req, token, compiled.value);
      assert "token" in SessionFields(req, token, compiled.value);
      assert FieldOf(d, Keys.SessionKey(token), "token") == Some(Str(token));
    }
  }

  /** On a fresh token the session record holds no `epoch` field. */
  lemma OpenWritesNoEpoch(db: Db, req: OpenSessionRequest, token: string, code: seq<Byte>)
    requires Keys.SessionKey(token) !in db
    ensures !HasField(Opened(db, req, token, code), Keys.SessionKey(token), "epoch")
  {
    OpenedKeepsOtherFields(db, req, token, code, Keys.SessionKey(token), "epoch");
  }

  /** The client sees the token when the session is opened, an aborted status
      carrying the compiler's message when compilation fails, and an aborted
      status with the store error's text otherwise. */
  lemma OpenSessionReplies(db: Db, req: OpenSessionRequest, compiled: Result<seq<Byte>, string>,
                           token: string, failAt: Option<nat>)
    ensures var s := Rpc.Respond(Texted(OpenSessionSpec(db, req, compiled, token, failAt).0));
            s.Ok? <==> compiled.Ok? && failAt != Some(0) && failAt != Some(1)
    ensures var s := Rpc.Respond(Texted(OpenSessionSpec(db, req, compiled, token, failAt).0));
            s.Ok? ==> s.value == token
    ensures compiled.Err? ==>
              Rpc.Respond(Texted(OpenSessionSpec(db, req, compiled, token, failAt).0)) == Err(Rpc.AbortedWith(compiled.error))
    ensures compiled.Ok? && (failAt == Some(0) || failAt == Some(1)) ==>
              Rpc.Respond(Texted(OpenSessionSpec(db, req, compiled, token, failAt).0)) == Err(Rpc.AbortedWith(ErrorText(ConnectionLost)))
  {
    OpenReturnsToken(db, req, compiled, token, failAt);
  }
}
