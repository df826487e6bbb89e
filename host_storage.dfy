/** The per-request host state of the sandbox (wart-worker/src/wasm/mod.rs):
    `Storage` accumulates the node and edge ids the guest selects into two
    DataFrames, and turns the guest's asynchronous queries into requests on an
    I/O queue, each answered through a take-once future. */
module HostStorage {
  import opened Base
  import Frames
  import Imports
  import Keys

  /** `imports::SeriesId`: a list of node ids, all integers or all text. */
  datatype SeriesId = IdsI64(i64s: seq<Int64>) | IdsTxt(txts: seq<string>)

  /** `imports::NodeId`. */
  datatype NodeId = NodeI64(i64: Int64) | NodeTxt(txt: string)

  /** The backend requests the sandbox queues (the reply channel is the future
      handed back to the guest). */
  datatype QueryRequest =
    | ChoiceNodes(spaceName: string, tag: string, number: Int32)
    | FetchNode(spaceName: string, id: NodeId, tag: string, keys: seq<string>)
    | FetchNeighbors(spaceName: string, id: NodeId, tag: string, keys: seq<string>, reversely: bool)
    | QueryKV(key: string, fields: seq<string>)

  datatype FutureError = ChannelClosed | Empty | ChannelDropped

  /** What the dispatcher sends back: the headers and the row or table. */
  type RowReply = (seq<string>, Imports.Row)
  type TableReply = (seq<string>, Imports.Table)

  datatype StorageManager = StorageManager(spaceName: string, token: string, ioTimeout: nat, exTimeout: nat)

  function IdCount(ids: SeriesId): nat {
    match ids
    case IdsI64(xs) => |xs|
    case IdsTxt(xs) => |xs|
  }

  /** The backend column that holds a list of ids. */
  function IdColumn(ids: SeriesId): (v: Frames.Values)
    ensures Frames.Len(v) == IdCount(ids)
    ensures v.Int64Values? <==> ids.IdsI64?
    ensures v.StringValues? <==> ids.IdsTxt?
    ensures ids.IdsI64? ==> v.i64s == ids.i64s
    ensures ids.IdsTxt? ==> v.strs == ids.txts
  {
    match ids
    case IdsI64(xs) => Frames.Int64Values(xs)
    case IdsTxt(xs) => Frames.StringValues(xs)
  }

  /** A column the id lists can extend: integers or text. */
  predicate IdSeries(s: Frames.Series) {
    s.values.Some? && (s.values.value.Int64Values? || s.values.value.StringValues?)
  }

  /** Whether ids of this kind can be appended to the column. */
  predicate Matches(s: Frames.Series, ids: SeriesId) {
    s.values.Some?
    && ((s.values.value.Int64Values? && ids.IdsI64?) || (s.values.value.StringValues? && ids.IdsTxt?))
  }

  /** Push the ids onto a column when the kinds match; the count pushed. */
  function AppendIds(s: Frames.Series, ids: SeriesId): (r: (Frames.Series, nat))
    ensures Matches(s, ids) ==>
              r.1 == IdCount(ids) && IdSeries(r.0)
              && Frames.Len(r.0.values.value) == Frames.Len(s.values.value) + IdCount(ids)
              && Frames.SameKind(r.0.values.value, s.values.value)
    ensures Matches(s, ids) && ids.IdsI64? ==> r.0.values.value.i64s == s.values.value.i64s + ids.i64s
    ensures Matches(s, ids) && ids.IdsTxt? ==> r.0.values.value.strs == s.values.value.strs + ids.txts
    ensures !Matches(s, ids) ==> r == (s, 0)
  {
    if !Matches(s, ids) then (s, 0)
    else
      match ids
      case IdsI64(xs) => (Frames.Series(Some(Frames.Int64Values(s.values.value.i64s + xs))), |xs|)
      case IdsTxt(xs) => (Frames.Series(Some(Frames.StringValues(s.values.value.strs + xs))), |xs|)
  }

  /** The node frame: empty, or one integer or text column. */
  predicate NodesShape(df: Frames.DataFrame) {
    |df.columns| == 0 || (|df.columns| == 1 && IdSeries(df.columns[0]))
  }

  /** The edge frame: empty, or a source and a destination column of the same
      kind and the same length. */
  predicate EdgesShape(df: Frames.DataFrame) {
    |df.columns| == 0
    || (|df.columns| == 2 && IdSeries(df.columns[0]) && IdSeries(df.columns[1])
        && Frames.SameKind(df.columns[0].values.value, df.columns[1].values.value)
        && Frames.Len(df.columns[0].values.value) == Frames.Len(df.columns[1].values.value))
  }

  /** `select_nodes`: the new node frame and the count returned. */
  function SelectNodesSpec(df: Frames.DataFrame, ids: SeriesId): (Frames.DataFrame, nat)
    requires NodesShape(df)
  {
    if |df.columns| == 0 then (df.(columns := [Frames.Series(Some(IdColumn(ids)))]), IdCount(ids))
    else
      var (c, n) := AppendIds(df.columns[0], ids);
      (df.(columns := [c]), n)
  }

  /** Source and destination lists of the same kind and length. */
  predicate SameShape(src: SeriesId, dst: SeriesId) {
    (src.IdsI64? && dst.IdsI64? && |src.i64s| == |dst.i64s|)
    || (src.IdsTxt? && dst.IdsTxt? && |src.txts| == |dst.txts|)
  }

  /** `select_edges`: the new edge frame and the count returned. */
  function SelectEdgesSpec(df: Frames.DataFrame, src: SeriesId, dst: SeriesId): (Frames.DataFrame, nat)
    requires EdgesShape(df)
  {
    if !SameShape(src, dst) then (df, 0)
    else if |df.columns| == 0 then
      (df.(columns := [Frames.Series(Some(IdColumn(src))), Frames.Series(Some(IdColumn(dst)))]), IdCount(src))
    else
      var (c0, n) := AppendIds(df.columns[0], src);
      var (c1, _) := AppendIds(df.columns[1], dst);
      (df.(columns := [c0, c1]), n)
  }

  /** The request `async_query_kv` queues: the given fields of the session's
      store hash, which is neither a session record nor an epoch shard. */
  function QueryKvRequest(token: string, fields: seq<string>): (q: QueryRequest)
    ensures q.QueryKV? && q.fields == fields
    ensures q.key == Keys.StoreKey(token)
    ensures forall t :: q.key != Keys.SessionKey(t)
    ensures forall ep: nat :: q.key != Keys.ShardKey(token, ep)
  {
    forall t ensures Keys.StoreKey(token) != Keys.SessionKey(t) {
      Keys.KeysDistinct(t, token, 0);
    }
    forall ep: nat ensures Keys.StoreKey(token) != Keys.ShardKey(token, ep) {
      Keys.KeysDistinct(token, token, ep);
    }

    QueryKV(Keys.StoreKey(token), fields)
  }

  /** `for_each(|s| values.data.push(..))`. */
  method PushAll<T>(xs: seq<T>, more: seq<T>) returns (ys: seq<T>)
    ensures ys == xs + more
  {
    ys := xs;
    var i := 0;
    while i < |more|
      invariant 0 <= i <= |more|
      invariant ys == xs + more[..i]
    {
      ys := ys + [more[i]];
      i := i + 1;
    }
    assert more[..|more|] == more;
  }

  /** A take-once reply handle: the receiver is there until the first get. */
  class Future<T> {
    var waiting: bool

    constructor ()
      ensures waiting
    {
      waiting := true;
    }

    /** Take the receiver and wait on it. `reply` is what the dispatcher
        delivers: None when the sender was dropped. */
    method Get(reply: Option<T>) returns (r: Result<T, FutureError>)
      modifies this
      ensures !waiting
      ensures !old(waiting) ==> r == Err(Empty)
      ensures old(waiting) ==> r == (if reply.Some? then Ok(reply.value) else Err(ChannelDropped))
    {
      if !waiting {
        return Err(Empty);
      }
      waiting := false;
      r := if reply.Some? then Ok(reply.value) else Err(ChannelDropped);
    }
  }

  class Storage {
    const spaceName: string
    const token: string
    /** Whether the I/O dispatcher still receives on the queue. */
    var queueOpen: bool
    /** The requests sent on the queue, oldest first. */
    var io: seq<QueryRequest>
    var selectedNodes: Frames.DataFrame
    var selectedEdges: Frames.DataFrame

    ghost predicate Valid()
      reads this
    {
      NodesShape(selectedNodes) && EdgesShape(selectedEdges)
    }

    /** `StorageManager::instantiate`. */
    constructor Instantiate(manager: StorageManager, queueOpen: bool)
      ensures Valid()
      ensures spaceName == manager.spaceName && token == manager.token
      ensures selectedNodes == Frames.EmptyFrame && selectedEdges == Frames.EmptyFrame
      ensures this.queueOpen == queueOpen && io == []
    {
      spaceName := manager.spaceName;
      token := manager.token;
      this.queueOpen := queueOpen;
      io := [];
      selectedNodes := Frames.EmptyFrame;
      selectedEdges := Frames.EmptyFrame;
    }

    method SelectNodes(ids: SeriesId) returns (n: nat)
      requires Valid()
      modifies this
      ensures Valid()
      ensures (selectedNodes, n) == SelectNodesSpec(old(selectedNodes), ids)
      ensures selectedEdges == old(selectedEdges) && io == old(io) && queueOpen == old(queueOpen)
    {
      if |selectedNodes.columns| == 0 {
        assert selectedNodes.columns == [];
        var column := IdColumn(ids);
        selectedNodes := selectedNodes.(columns := selectedNodes.columns + [Frames.Series(Some(column))]);
        assert selectedNodes == old(selectedNodes).(columns := [Frames.Series(Some(IdColumn(ids)))]);
        return IdCount(ids);
      }
      n := if Matches(selectedNodes.columns[0], ids) then IdCount(ids) else 0;
      var c := Extend(selectedNodes.columns[0], ids);
      selectedNodes := selectedNodes.(columns := [c]);
    }

    method SelectEdges(src: SeriesId, dst: SeriesId) returns (n: nat)
      requires Valid()
      modifies this
      ensures Valid()
      ensures (selectedEdges, n) == SelectEdgesSpec(old(selectedEdges), src, dst)
      ensures selectedNodes == old(selectedNodes) && io == old(io) && queueOpen == old(queueOpen)
    {
      if !SameShape(src, dst) {
        return 0;
      }
      if |selectedEdges.columns| == 0 {
        assert selectedEdges.columns == [];
        selectedEdges := selectedEdges.(columns := selectedEdges.columns + [Frames.Series(Some(IdColumn(src)))]);
        selectedEdges := selectedEdges.(columns := selectedEdges.columns + [Frames.Series(Some(IdColumn(dst)))]);
        assert selectedEdges == old(selectedEdges).(columns := [Frames.Series(Some(IdColumn(src))), Frames.Series(Some(IdColumn(dst)))]);
        SelectEdgesKeepsShape(old(selectedEdges), src, dst);
        return IdCount(src);
      }
      n := if Matches(selectedEdges.columns[0], src) then IdCount(src) else 0;
      var c0 := Extend(selectedEdges.columns[0], src);
      var c1 := Extend(selectedEdges.columns[1], dst);
      selectedEdges := selectedEdges.(columns := [c0, c1]);
      SelectEdgesKeepsShape(old(selectedEdges), src, dst);
    }

    /** The column with the ids pushed when the kinds match, else unchanged. */
    static method Extend(s: Frames.Series, ids: SeriesId) returns (r: Frames.Series)
      ensures r == AppendIds(s, ids).0
    {
      if !Matches(s, ids) {
        return s;
      }
      match ids {
        case IdsI64(xs) =>
          var data := PushAll(s.values.value.i64s, xs);
          r := Frames.Series(Some(Frames.Int64Values(data)));
        case IdsTxt(xs) =>
          var data := PushAll(s.values.value.strs, xs);
          r := Frames.Series(Some(Frames.StringValues(data)));
      }
    }

    /** Queue a request; a closed queue reports `ChannelClosed` and hands out
        no future. */
    method Enqueue<T>(q: QueryRequest) returns (r: Result<Future<T>, FutureError>)
      modifies this
      ensures queueOpen == old(queueOpen)
      ensures old(queueOpen) ==> r.Ok? && fresh(r.value) && r.value.waiting && io == old(io) + [q]
      ensures !old(queueOpen) ==> r == Err(ChannelClosed) && io == old(io)
      ensures selectedNodes == old(selectedNodes) && selectedEdges == old(selectedEdges)
    {
      if !queueOpen {
        return Err(ChannelClosed);
      }
      io := io + [q];
      var f := new Future<T>();
      r := Ok(f);
    }

    method AsyncChoiceNodes(tag: string, number: Int32) returns (r: Result<Future<TableReply>, FutureError>)
      modifies this
      ensures queueOpen == old(queueOpen)
      ensures old(queueOpen) ==> r.Ok? && fresh(r.value) && r.value.waiting
                                 && io == old(io) + [ChoiceNodes(spaceName, tag, number)]
      ensures !old(queueOpen) ==> r == Err(ChannelClosed) && io == old(io)
      ensures selectedNodes == old(selectedNodes) && selectedEdges == old(selectedEdges)
    {
      r := Enqueue(ChoiceNodes(spaceName, tag, number));
    }

    method AsyncQueryNode(id: NodeId, tag: string, keys: seq<string>) returns (r: Result<Future<RowReply>, FutureError>)
      modifies this
      ensures queueOpen == old(queueOpen)
      ensures old(queueOpen) ==> r.Ok? && fresh(r.value) && r.value.waiting
                                 && io == old(io) + [FetchNode(spaceName, id, tag, keys)]
      ensures !old(queueOpen) ==> r == Err(ChannelClosed) && io == old(io)
      ensures selectedNodes == old(selectedNodes) && selectedEdges == old(selectedEdges)
    {
      r := Enqueue(FetchNode(spaceName, id, tag, keys));
    }

    method AsyncQueryNeighbors(id: NodeId, tag: string, keys: seq<string>, reversely: bool)
      returns (r: Result<Future<TableReply>, FutureError>)
      modifies this
      ensures queueOpen == old(queueOpen)
      ensures old(queueOpen) ==> r.Ok? && fresh(r.value) && r.value.waiting
                                 && io == old(io) + [FetchNeighbors(spaceName, id, tag, keys, reversely)]
      ensures !old(queueOpen) ==> r == Err(ChannelClosed) && io == old(io)
      ensures selectedNodes == old(selectedNodes) && selectedEdges == old(selectedEdges)
    {
      r := Enqueue(FetchNeighbors(spaceName, id, tag, keys, reversely));
    }

    method AsyncQueryKv(keys: seq<string>) returns (r: Result<Future<RowReply>, FutureError>)
      modifies this
      ensures queueOpen == old(queueOpen)
      ensures old(queueOpen) ==> r.Ok? && fresh(r.value) && r.value.waiting
                                 && io == old(io) + [QueryKvRequest(token, keys)]
      ensures !old(queueOpen) ==> r == Err(ChannelClosed) && io == old(io)
      ensures selectedNodes == old(selectedNodes) && selectedEdges == old(selectedEdges)
    {
      r := Enqueue(QueryKvRequest(token, keys));
    }

    /** `get_future_row`: the headers of the reply are dropped. */
    method GetFutureRow(f: Future<RowReply>, reply: Option<RowReply>)
      returns (r: Result<Imports.Row, FutureError>)
      modifies f
      ensures !f.waiting
      ensures !old(f.waiting) ==> r == Err(Empty)
      ensures old(f.waiting) ==> r == (if reply.Some? then Ok(reply.value.1) else Err(ChannelDropped))
    {
      var got := f.Get(reply);
      r := match got
        case Ok(hr) => Ok(hr.1)
        case Err(e) => Err(e);
    }

    /** `get_future_table`: the headers of the reply are dropped. */
    method GetFutureTable(f: Future<TableReply>, reply: Option<TableReply>)
      returns (r: Result<Imports.Table, FutureError>)
      modifies f
      ensures !f.waiting
      ensures !old(f.waiting) ==> r == Err(Empty)
      ensures old(f.waiting) ==> r == (if reply.Some? then Ok(reply.value.1) else Err(ChannelDropped))
    {
      var got := f.Get(reply);
      r := match got
        case Ok(hr) => Ok(hr.1)
        case Err(e) => Err(e);
    }
  }

  /** A future delivers at most once: the second get on a handle is Empty,
      whatever the first one returned. */
  method GetTwice(f: Future<RowReply>, first: Option<RowReply>, second: Option<RowReply>)
    returns (r1: Result<RowReply, FutureError>, r2: Result<RowReply, FutureError>)
    modifies f
    ensures r2 == Err(Empty)
  {
    r1 := f.Get(first);
    r2 := f.Get(second);
  }

  /** On an empty frame, `select_nodes` creates one column holding the ids in
      order, of their kind, and returns their count. */
  lemma SelectNodesOnEmpty(df: Frames.DataFrame, ids: SeriesId)
    requires |df.columns| == 0
    ensures var (d, n) := SelectNodesSpec(df, ids);
            d.columns == [Frames.Series(Some(IdColumn(ids)))] && n == IdCount(ids)
            && d.headers == df.headers
  {
  }

  /** On a non-empty frame, ids of the column's kind are appended in order;
      ids of the other kind change nothing and count 0. */
  lemma SelectNodesAppends(df: Frames.DataFrame, ids: SeriesId)
    requires NodesShape(df) && |df.columns| == 1
    ensures var (d, n) := SelectNodesSpec(df, ids);
            var old_ := df.columns[0].values.value;
            if Matches(df.columns[0], ids) then
              n == IdCount(ids) && |d.columns| == 1
              && d.columns[0].values == Some(match ids
                                              case IdsI64(xs) => Frames.Int64Values(old_.i64s + xs)
                                              case IdsTxt(xs) => Frames.StringValues(old_.strs + xs))
            else d == df && n == 0
  {
  }

  /** Both ways of `select_nodes` keep the node frame's shape. */
  lemma SelectNodesKeepsShape(df: Frames.DataFrame, ids: SeriesId)
    requires NodesShape(df)
    ensures NodesShape(SelectNodesSpec(df, ids).0)
  {
  }

  /** Mismatched source and destination lists change nothing and count 0. */
  lemma SelectEdgesRejects(df: Frames.DataFrame, src: SeriesId, dst: SeriesId)
    requires EdgesShape(df) && !SameShape(src, dst)
    ensures SelectEdgesSpec(df, src, dst) == (df, 0)
  {
  }

  /** `select_edges` keeps the two edge columns of one kind and one length:
      either both grow by the pair's length or neither changes. */
  lemma SelectEdgesKeepsShape(df: Frames.DataFrame, src: SeriesId, dst: SeriesId)
    requires EdgesShape(df)
    ensures EdgesShape(SelectEdgesSpec(df, src, dst).0)
    ensures var (d, n) := SelectEdgesSpec(df, src, dst);
            n > 0 ==> n == IdCount(src) == IdCount(dst)
    ensures SelectEdgesSpec(df, src, dst).1
            == if SameShape(src, dst) && (|df.columns| == 0 || Matches(df.columns[0], src)) then IdCount(src) else 0
    ensures var (d, n) := SelectEdgesSpec(df, src, dst);
            |df.columns| == 2 && SameShape(src, dst) && Matches(df.columns[0], src) ==>
              Frames.Len(d.columns[0].values.value) == Frames.Len(df.columns[0].values.value) + IdCount(src)
              && Frames.Len(d.columns[1].values.value) == Frames.Len(df.columns[1].values.value) + IdCount(dst)
    ensures var (d, n) := SelectEdgesSpec(df, src, dst);
            |df.columns| == 2 && !Matches(df.columns[0], src) ==> d.columns == df.columns && n == 0
  {
    if SameShape(src, dst) && |df.columns| == 2 {
      assert Matches(df.columns[0], src) <==> Matches(df.columns[1], dst);
    }
  }

  /** The edge ids pushed by `select_edges`: on an empty frame the two lists
      become the two columns; otherwise, when they match the columns' kind,
      the sources are appended to the first column and the destinations to
      the second, in order. */
  lemma SelectEdgesAppends(df: Frames.DataFrame, src: SeriesId, dst: SeriesId)
    requires EdgesShape(df) && SameShape(src, dst)
    ensures var (d, n) := SelectEdgesSpec(df, src, dst);
            |df.columns| == 0 ==>
              d.columns == [Frames.Series(Some(IdColumn(src))), Frames.Series(Some(IdColumn(dst)))]
              && n == IdCount(src) && d.headers == df.headers
    ensures var (d, n) := SelectEdgesSpec(df, src, dst);
            |df.columns| == 2 && Matches(df.columns[0], src) && src.IdsI64? ==>
              n == IdCount(src) && |d.columns| == 2
              && d.columns[0].values.value.i64s == df.columns[0].values.value.i64s + src.i64s
              && d.columns[1].values.value.i64s == df.columns[1].values.value.i64s + dst.i64s
    ensures var (d, n) := SelectEdgesSpec(df, src, dst);
            |df.columns| == 2 && Matches(df.columns[0], src) && src.IdsTxt? ==>
              n == IdCount(src) && |d.columns| == 2
              && d.columns[0].values.value.strs == df.columns[0].values.value.strs + src.txts
              && d.columns[1].values.value.strs == df.columns[1].values.value.strs + dst.txts
  {
    if |df.columns| == 2 && Matches(df.columns[0], src) {
      assert Matches(df.columns[1], dst);
    }
  }
}
