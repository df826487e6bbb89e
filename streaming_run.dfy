/** The streaming-run service (wart-worker/src/rpc_server/services/streaming_run/mod.rs)
    as a machine over a trace of input events. The first message must carry
    the session's config; every later message is run to completion, one at a
    time, in arrival order, and a successful run answers with its tables. A
    timeout or an input-stream error is forwarded once and ends the stream,
    and so does a client that stops receiving. The sandbox, the timer and the
    epoch clock are outside the model: each event carries what they did. */
module StreamingRun {
  import opened Base
  import Frames
  import Rpc

  datatype Data = Config(token: string) | Args(args: seq<string>)

  datatype StreamingRunRequest = StreamingRunRequest(data: Option<Data>)

  /** What the sandbox did with one run: it could not be created, the guest
      trapped (each with the error's text), or the guest returned its tables. */
  datatype SandboxOutcome = SandboxFailed(message: string) | Trapped(trap: string) | Completed(tables: seq<Frames.DataFrame>)

  /** One input event. `received` says whether the client still takes the
      message the worker sends for this event. */
  datatype Event =
    | Incoming(req: StreamingRunRequest, outcome: SandboxOutcome, timedOut: bool, received: bool)
    | StreamError(status: Rpc.Status, received: bool)

  /** A message of the response stream. */
  datatype Reply = Response(tables: seq<Frames.DataFrame>, logs: seq<string>) | Failure(status: Rpc.Status)

  /** The text of `time::error::Elapsed`. */
  const Elapsed: string := "deadline has elapsed"

  /** `streaming_run_config`: the first message must be a config, and loading
      the session (`load`, an input) must succeed. */
  function ConfigSpec(req: StreamingRunRequest, load: Result<(), string>): (r: Result<(), string>)
    ensures req.data.None? ==> r == Err("empty config")
    ensures req.data.Some? && req.data.value.Args? ==> r == Err("invalid config")
    ensures r.Ok? <==> req.data.Some? && req.data.value.Config? && load.Ok?
  {
    match req.data
    case None => Err("empty config")
    case Some(Args(_)) => Err("invalid config")
    case Some(Config(_)) => load
  }

  /** The line the service logs for a failed run or a trapped guest. */
  function LogLine(message: string): string {
    "streaming_run_sandbox: " + message
  }

  /** The outcome of `streaming_run_sandbox` and the line it logs itself. */
  datatype SandboxRun = SandboxRun(result: Result<seq<Frames.DataFrame>, string>, log: Option<string>)

  /** `streaming_run_sandbox`: a run of an args message. A guest that traps
      still succeeds, with no tables, and its trap is logged. */
  function SandboxSpec(req: StreamingRunRequest, outcome: SandboxOutcome): (r: SandboxRun)
    ensures r.result.Ok? <==> req.data.Some? && req.data.value.Args? && !outcome.SandboxFailed?
    ensures r.log.Some? <==> req.data.Some? && req.data.value.Args? && outcome.Trapped?
    ensures r.log.Some? ==> r.result == Ok([]) && r.log.value == LogLine(outcome.trap)
    ensures r.result.Ok? && outcome.Completed? ==> r.result.value == outcome.tables
    ensures req.data.None? ==> r.result == Err("empty args")
    ensures req.data.Some? && req.data.value.Config? ==> r.result == Err("invalid args")
  {
    match req.data
    case None => SandboxRun(Err("empty args"), None)
    case Some(Config(_)) => SandboxRun(Err("invalid args"), None)
    case Some(Args(_)) =>
      match outcome
      case SandboxFailed(msg) => SandboxRun(Err(msg), None)
      case Trapped(trap) => SandboxRun(Ok([]), Some(LogLine(trap)))
      case Completed(tables) => SandboxRun(Ok(tables), None)
  }

  /** What the loop does with one event: the message it delivers, the line it
      logs, and whether it leaves the loop. */
  datatype StepResult = StepResult(reply: Option<Reply>, log: Option<string>, stop: bool)

  function Step(ev: Event): StepResult {
    match ev
    case StreamError(st, received) =>
      StepResult(if received then Some(Failure(st)) else None, None, true)
    case Incoming(req, outcome, timedOut, received) =>
      if timedOut then
        StepResult(if received then Some(Failure(Rpc.Status(Rpc.Cancelled, Elapsed))) else None, None, true)
      else
        var run := SandboxSpec(req, outcome);
        match run.result
        case Ok(tables) => StepResult(if received then Some(Response(tables, [])) else None, run.log, !received)
        case Err(msg) => StepResult(None, Some(LogLine(msg)), false)
  }

  /** Whether the loop leaves after this event. */
  predicate Stops(ev: Event) {
    Step(ev).stop
  }

  function OptSeq<T>(o: Option<T>): (s: seq<T>)
    ensures |s| <= 1
  {
    if o.Some? then [o.value] else []
  }

  /** The messages delivered, the lines logged and the number of events taken
      from the input stream. */
  datatype WorkerTrace = WorkerTrace(sent: seq<Reply>, logged: seq<string>, consumed: nat)

  /** `streaming_run_args` over an input trace. */
  function Worker(events: seq<Event>): (w: WorkerTrace)
    ensures w.consumed <= |events|
    decreases |events|
  {
    if events == [] then WorkerTrace([], [], 0)
    else
      var s := Step(events[0]);
      if s.stop then WorkerTrace(OptSeq(s.reply), OptSeq(s.log), 1)
      else
        var rest := Worker(events[1..]);
        WorkerTrace(OptSeq(s.reply) + rest.sent, OptSeq(s.log) + rest.logged, rest.consumed + 1)
  }

  /** The response stream: the worker runs only after a good config. With no
      first message the stream is empty; a bad first message fails the call
      with an aborted status. */
  function StreamingRunSpec(first: Option<Result<StreamingRunRequest, Rpc.Status>>,
                            load: Result<(), string>, events: seq<Event>): Result<seq<Reply>, Rpc.Status>
  {
    match first
    case None => Ok([])
    case Some(Err(st)) => Err(Rpc.AbortedWith(Rpc.StatusText(st)))
    case Some(Ok(req)) =>
      match ConfigSpec(req, load)
      case Err(msg) => Err(Rpc.AbortedWith(msg))
      case Ok(_) => Ok(Worker(events).sent)
  }

  /** The worker's side effects: the client's end of the response channel, the
      log, and the epoch clock task. */
  class Responder {
    var out: seq<Reply>
    var logged: seq<string>
    var clockRunning: bool

    constructor ()
      ensures out == [] && logged == [] && !clockRunning
    {
      out := [];
      logged := [];
      clockRunning := false;
    }

    /** `streaming_run_args`. */
    method StreamingRunArgs(events: seq<Event>) returns (consumed: nat)
      modifies this
      ensures !clockRunning
      ensures out == old(out) + Worker(events).sent
      ensures logged == old(logged) + Worker(events).logged
      ensures consumed == Worker(events).consumed
    {
      clockRunning := true;
      var i := 0;
      ghost var sentSoFar: seq<Reply> := [];
      ghost var loggedSoFar: seq<string> := [];
      PrependNothing(Worker(events), events);
      while i < |events|
        invariant 0 <= i <= |events|
        invariant clockRunning
        invariant out == old(out) + sentSoFar && logged == old(logged) + loggedSoFar
        invariant Worker(events) == Prepend(sentSoFar, loggedSoFar, i, Worker(events[i..]))
      {
        var s := Step(events[i]);
        StepAdvances(events, i, sentSoFar, loggedSoFar);
        out := out + OptSeq(s.reply);
        logged := logged + OptSeq(s.log);
        sentSoFar := sentSoFar + OptSeq(s.reply);
        loggedSoFar := loggedSoFar + OptSeq(s.log);
        i := i + 1;
        if s.stop {
          PrependEmpty(sentSoFar, loggedSoFar, i);
          break;
        }
      }
      if i == |events| {
        assert events[i..] == [];
        PrependEmpty(sentSoFar, loggedSoFar, i);
      }
      consumed := i;
      clockRunning := false;
    }
  }

  function Prepend(sent: seq<Reply>, logged: seq<string>, n: nat, w: WorkerTrace): WorkerTrace {
    WorkerTrace(sent + w.sent, logged + w.logged, n + w.consumed)
  }

  /** One turn of the loop: the event's delivery and log line move from the
      remaining trace to the part already done. */
  lemma StepAdvances(events: seq<Event>, i: nat, sent: seq<Reply>, logged: seq<string>)
    requires i < |events|
    ensures Prepend(sent, logged, i, Worker(events[i..]))
            == Prepend(sent + OptSeq(Step(events[i]).reply), logged + OptSeq(Step(events[i]).log), i + 1,
                       if Step(events[i]).stop then WorkerTrace([], [], 0) else Worker(events[i + 1..]))
  {
    var s := Step(events[i]);
    var w := if s.stop then WorkerTrace([], [], 0) else Worker(events[i + 1..]);
    WorkerUnfold(events[i..]);
    assert events[i..][0] == events[i];
    assert events[i..][1..] == events[i + 1..];
    assert Worker(events[i..]) == Prepend(OptSeq(s.reply), OptSeq(s.log), 1, w);
    PrependTwice(sent, logged, i, OptSeq(s.reply), OptSeq(s.log), 1, w);
  }

  lemma PrependTwice(sent: seq<Reply>, logged: seq<string>, n: nat,
                     sent2: seq<Reply>, logged2: seq<string>, n2: nat, w: WorkerTrace)
    ensures Prepend(sent, logged, n, Prepend(sent2, logged2, n2, w)) == Prepend(sent + sent2, logged + logged2, n + n2, w)
  {
    assert sent + (sent2 + w.sent) == (sent + sent2) + w.sent;
    assert logged + (logged2 + w.logged) == (logged + logged2) + w.logged;
  }

  lemma PrependEmpty(sent: seq<Reply>, logged: seq<string>, n: nat)
    ensures Prepend(sent, logged, n, WorkerTrace([], [], 0)) == WorkerTrace(sent, logged, n)
  {
    assert sent + [] == sent;
    assert logged + [] == logged;
  }

  lemma PrependNothing(w: WorkerTrace, events: seq<Event>)
    ensures Prepend([], [], 0, w) == w
    ensures events[0..] == events
  {
    assert [] + w.sent == w.sent;
    assert [] + w.logged == w.logged;
  }

  lemma WorkerUnfold(events: seq<Event>)
    requires events != []
    ensures var s := Step(events[0]);
            Worker(events) == Prepend(OptSeq(s.reply), OptSeq(s.log), 1,
                                      if s.stop then WorkerTrace([], [], 0) else Worker(events[1..]))
  {
  }

  /** `streaming_run_impl` followed by the worker: the messages the client gets. */
  method StreamingRunImpl(first: Option<Result<StreamingRunRequest, Rpc.Status>>,
                          load: Result<(), string>, events: seq<Event>)
    returns (r: Result<seq<Reply>, Rpc.Status>)
    ensures r == StreamingRunSpec(first, load, events)
  {
    if first.None? {
      return Ok([]);
    }
    if first.value.Err? {
      return Err(Rpc.AbortedWith(Rpc.StatusText(first.value.error)));
    }
    var config := ConfigSpec(first.value.value, load);
    if config.Err? {
      return Err(Rpc.AbortedWith(config.error));
    }
    var responder := new Responder();
    var _ := responder.StreamingRunArgs(events);
    assert responder.out == Worker(events).sent;
    r := Ok(responder.out);
  }

  // ---- Properties of the worker ------------------------------------------------

  /** With no stopping event the worker takes the whole input. */
  lemma {:induction false} WorkerNoStop(events: seq<Event>)
    requires forall j :: 0 <= j < |events| ==> !Stops(events[j])
    ensures Worker(events).consumed == |events|
    decreases |events|
  {
    if events != [] {
      WorkerNoStop(events[1..]);
    }
  }

  /** The worker leaves right after the first stopping event and never looks at
      what follows it. */
  lemma {:induction false} WorkerStopsAt(events: seq<Event>, k: nat)
    requires k < |events| && Stops(events[k])
    requires forall j :: 0 <= j < k ==> !Stops(events[j])
    ensures Worker(events).consumed == k + 1
    ensures Worker(events) == Worker(events[..k + 1])
    decreases k
  {
    if k > 0 {
      WorkerStopsAt(events[1..], k - 1);
      assert events[1..][..k] == events[..k + 1][1..];
    }
  }

  /** Every delivered message but the last is a successful response: a
      cancelled or forwarded error can only end the stream. */
  lemma {:induction false} OnlyLastReplyIsFailure(events: seq<Event>)
    ensures forall j :: 0 <= j < |Worker(events).sent| - 1 ==> Worker(events).sent[j].Response?
    decreases |events|
  {
    if events != [] && !Step(events[0]).stop {
      var s := Step(events[0]);
      var rest := Worker(events[1..]).sent;
      OnlyLastReplyIsFailure(events[1..]);
      assert s.reply.Some? ==> s.reply.value.Response?;
      var sent := OptSeq(s.reply) + rest;
      assert Worker(events).sent == sent;
      forall j | 0 <= j < |sent| - 1
        ensures sent[j].Response?
      {
        if s.reply.Some? && j == 0 {
          assert sent[0] == s.reply.value;
          assert sent[0].Response?;
        } else if s.reply.Some? {
          assert sent[j] == rest[j - 1];
          assert rest[j - 1].Response?;
        } else {
          assert sent[j] == rest[j];
          assert rest[j].Response?;
        }
      }
    }
  }

  /** Each successful run yields exactly one response carrying its tables and
      no logs, after logging the trap of a guest that trapped; a failed run
      logs its error and yields nothing. */
  lemma RunYieldsOneResponse(ev: Event, rest: seq<Event>)
    requires ev.Incoming? && !ev.timedOut && ev.received
    ensures var w, w' := Worker([ev] + rest), Worker(rest);
            var run := SandboxSpec(ev.req, ev.outcome);
            match run.result
            case Ok(tables) => w == WorkerTrace([Response(tables, [])] + w'.sent, OptSeq(run.log) + w'.logged, w'.consumed + 1)
            case Err(msg) => w == WorkerTrace(w'.sent, [LogLine(msg)] + w'.logged, w'.consumed + 1)
  {
    assert ([ev] + rest)[1..] == rest;
  }

  /** A timeout delivers one cancelled status and ends the stream. */
  lemma TimeoutEndsStream(events: seq<Event>, k: nat)
    requires k < |events| && events[k].Incoming? && events[k].timedOut && events[k].received
    requires forall j :: 0 <= j < k ==> !Stops(events[j])
    ensures var w := Worker(events);
            w.consumed == k + 1 && |w.sent| > 0
            && w.sent[|w.sent| - 1] == Failure(Rpc.Status(Rpc.Cancelled, Elapsed))
  {
    WorkerStopsAt(events, k);
    LastStepReply(events[..k + 1]);
  }

  /** When the last event consumed stops the loop and delivers a message, that
      message ends the trace. */
  lemma {:induction false} LastStepReply(events: seq<Event>)
    requires events != [] && Stops(events[|events| - 1])
    requires forall j :: 0 <= j < |events| - 1 ==> !Stops(events[j])
    requires Step(events[|events| - 1]).reply.Some?
    ensures var sent := Worker(events).sent;
            |sent| > 0 && sent[|sent| - 1] == Step(events[|events| - 1]).reply.value
    decreases |events|
  {
    if |events| > 1 {
      LastStepReply(events[1..]);
    }
  }

  /** A config message starts the worker; an args message or an empty first
      message fails with "invalid config" or "empty config"; no first message
      gives an empty stream. */
  lemma FirstMessage(req: StreamingRunRequest, load: Result<(), string>, events: seq<Event>)
    ensures StreamingRunSpec(None, load, events) == Ok([])
    ensures req.data.None? ==>
              StreamingRunSpec(Some(Ok(req)), load, events) == Err(Rpc.Status(Rpc.Aborted, "empty config"))
    ensures req.data.Some? && req.data.value.Args? ==>
              StreamingRunSpec(Some(Ok(req)), load, events) == Err(Rpc.Status(Rpc.Aborted, "invalid config"))
    ensures req.data.Some? && req.data.value.Config? && load.Ok? ==>
              StreamingRunSpec(Some(Ok(req)), load, events) == Ok(Worker(events).sent)
  {
  }

  /** An error in place of the first message fails the call with the error's
      whole displayed text, code included, not with its bare message. */
  lemma FirstStreamErrorIsWrapped(st: Rpc.Status, load: Result<(), string>, events: seq<Event>)
    ensures StreamingRunSpec(Some(Err(st)), load, events) == Err(Rpc.AbortedWith(Rpc.StatusText(st)))
    ensures StreamingRunSpec(Some(Err(st)), load, events) != Err(Rpc.AbortedWith(st.message))
  {
  }

  /** A trapped guest answers with no tables and leaves its trap in the log. */
  lemma TrapLogsAndAnswersEmpty(args: seq<string>, trap: string, rest: seq<Event>)
    ensures var w := Worker([Incoming(StreamingRunRequest(Some(Args(args))), Trapped(trap), false, true)] + rest);
            |w.sent| > 0 && w.sent[0] == Response([], [])
            && |w.logged| > 0 && w.logged[0] == "streaming_run_sandbox: " + trap
  {
    var ev := Incoming(StreamingRunRequest(Some(Args(args))), Trapped(trap), false, true);
    RunYieldsOneResponse(ev, rest);
  }
}
