/**
  The agent's per-command worker (`CommandExecutor` in agent/main.py): it marks
  the command document `processing`, runs the shell command, streams the
  captured output into the document at most once a second, watches the
  document for `kill_signal`, and finally records `completed` or `cancelled`
  with the return code.

  The command document is modelled by the sequence of updates written to it.
  The child process, the reader threads and the kill listener are inputs: an
  `Env` says what happens during each iteration of the run loop (lines read,
  snapshots received, the clock, whether the flush's write fails) and how the
  process ends. Times are integer milliseconds.
*/
module Executor {
  import opened Wrappers
  import opened Strings

  /** The command statuses of the web client's command type. */
  datatype CommandStatus = Pending | Processing | Completed | Cancelled

  /** Field values: strings, integers, booleans, None, SERVER_TIMESTAMP and statuses. */
  datatype Value = Str(s: string) | Int(i: int) | Bool(b: bool) | Null | ServerTimestamp | StatusValue(status: CommandStatus)

  /** The command document fields the worker writes. */
  datatype Field = Status | StartedAt | CompletedAt | Output | Error | ReturnCode

  type Update = map<Field, Value>

  /** A snapshot's `to_dict()`: `None` for a missing document. */
  type DocData = Option<map<string, Value>>

  /** The fields of `cmd_data` the worker reads; `None` where the key is absent. */
  datatype CommandData = CommandData(command: Option<string>, kind: Option<string>, error: Option<string>)

  datatype Signal = Terminate | Kill

  /** What reaches the worker from its other threads between two checks of the run loop. */
  datatype Events = Events(outLines: seq<string>, errLines: seq<string>, snapshots: seq<DocData>)

  /** One iteration of the run loop in which `poll()` reports the process still running. */
  datatype Tick = Tick(events: Events, now: int, flushFailure: Option<string>)

  /**
    The environment of one run: whether spawning fails (and with what
    message), the iterations while the process runs, the events before the
    iteration in which it has exited and its exit code, the code after a
    `terminate()` that `wait(timeout=5)` saw, whether that wait timed out and
    the killed process was still reported running afterwards, and the clock
    and write outcome of the final flush.
  */
  datatype Env = Env(spawnError: Option<string>, ticks: seq<Tick>, exitEvents: Events,
                     exitCode: int, terminatedCode: int, waitTimesOut: bool,
                     aliveAfterKill: bool, finalNow: int, finalFlushFailure: Option<string>)

  /** The worker's state: the fields of the object plus what it wrote and signalled. */
  datatype Exec = Exec(shouldStop: bool, lastFlush: int, out: seq<string>, err: seq<string>,
                       writes: seq<Update>, signals: seq<Signal>, exited: bool)

  const FLUSH_INTERVAL_MS: int := 1000
  const TRUNCATION_NOTE: string := "\n[Output truncated due to size limit]"
  const CANCELLED_MESSAGE: string := "Command cancelled by user."
  const NO_COMMAND_MESSAGE: string := "No command string provided"

  function ProcessingUpdate(): Update {
    map[Status := StatusValue(Processing), StartedAt := ServerTimestamp]
  }

  function RestartUpdate(): Update {
    map[Output := Str("Agent restarting..."), Status := StatusValue(Completed), CompletedAt := ServerTimestamp]
  }

  /** The update of the `except` branch. */
  function ErrorUpdate(message: string): Update {
    map[Status := StatusValue(Completed), Error := Str(message), CompletedAt := ServerTimestamp]
  }

  function ReturnCodeValue(rc: Option<int>): Value {
    match rc
    case Some(c) => Int(c)
    case None => Null
  }

  /** The final update; the error text is only written for a cancelled command. */
  function FinalUpdate(stopped: bool, rc: Option<int>, error: string): Update {
    var u := map[Status := StatusValue(Completed), ReturnCode := ReturnCodeValue(rc), CompletedAt := ServerTimestamp];
    if stopped then u[Error := Str(error)][Status := StatusValue(Cancelled)] else u
  }

  /** The failure messages the size guard recognises. */
  predicate SizeLimitFailure(message: string) {
    Contains(message, "Resource exhausted") || Contains(message, "Document too large")
  }

  /** `flush_output(force)` at time `now`; `failure` is the message of the write's exception, if it raised. */
  function Flush(s: Exec, force: bool, now: int, failure: Option<string>): Exec {
    if !(force || now - s.lastFlush > FLUSH_INTERVAL_MS) then s
    else
      var fullOut := Concat(s.out);
      var fullErr := Concat(s.err);
      if fullOut == [] && fullErr == [] then s
      else match failure
        case None =>
          s.(writes := s.writes + [map[Output := Str(fullOut), Error := Str(fullErr)]], lastFlush := now)
        case Some(message) =>
          if SizeLimitFailure(message) then
            s.(writes := s.writes + [map[Error := Str(fullErr + TRUNCATION_NOTE), Status := StatusValue(Completed)]],
               shouldStop := true)
          else s
  }

  /** Some snapshot document has `kill_signal` exactly `True`. */
  predicate KillRequested(snapshots: seq<DocData>) {
    exists i :: 0 <= i < |snapshots| && snapshots[i].Some? && "kill_signal" in snapshots[i].value &&
      snapshots[i].value["kill_signal"] == Bool(true)
  }

  /** Lines appended by the reader threads and snapshots handled by `on_doc_update`. */
  function Deliver(s: Exec, ev: Events): Exec {
    s.(out := s.out + ev.outLines, err := s.err + ev.errLines,
       shouldStop := s.shouldStop || KillRequested(ev.snapshots))
  }

  function EventsAt(env: Env, i: nat): Events {
    if i < |env.ticks| then env.ticks[i].events else env.exitEvents
  }

  datatype LoopEnd = LoopEnd(state: Exec, returnCode: Option<int>)

  /** The `while True` loop from iteration i on. */
  function LoopFrom(s: Exec, env: Env, i: nat): LoopEnd
    requires i <= |env.ticks|
    decreases |env.ticks| - i
  {
    var s1 := Deliver(s, EventsAt(env, i));
    if s1.shouldStop then
      if env.waitTimesOut then LoopEnd(s1.(signals := s1.signals + [Terminate, Kill]), None)
      else LoopEnd(s1.(signals := s1.signals + [Terminate]), Some(env.terminatedCode))
    else if i == |env.ticks| then LoopEnd(s1, Some(env.exitCode))
    else
      var t := env.ticks[i];
      LoopFrom(Flush(s1, false, t.now, t.flushFailure), env, i + 1)
  }

  /** After the loop: the cancellation message, the forced flush, the final update and the `finally` cleanup. */
  function Finish(e: LoopEnd, cmd: CommandData, env: Env): Exec {
    var s := e.state;
    var s2 := Flush(s, true, env.finalNow, env.finalFlushFailure);
    var cleanup := if e.returnCode.None? && env.aliveAfterKill then [Terminate] else [];
    s2.(writes := s2.writes + [FinalUpdate(s2.shouldStop, e.returnCode, CancelledError(cmd, s.shouldStop))],
        signals := s2.signals + cleanup)
  }

  /** `run()`. */
  function RunSpec(s: Exec, cmd: CommandData, env: Env): Exec {
    var s1 := s.(writes := s.writes + [ProcessingUpdate()]);
    if cmd.kind == Some("restart") then
      s1.(writes := s1.writes + [RestartUpdate()], exited := true)
    else if cmd.command.None? || cmd.command.value == "" then
      s1.(writes := s1.writes + [ErrorUpdate(NO_COMMAND_MESSAGE)])
    else if env.spawnError.Some? then
      s1.(writes := s1.writes + [ErrorUpdate(env.spawnError.value)])
    else
      Finish(LoopFrom(s1, env, 0), cmd, env)
  }

  // ---------------------------------------------------------------------------
  // Properties of flush_output

  predicate Due(s: Exec, force: bool, now: int) {
    force || now - s.lastFlush > FLUSH_INTERVAL_MS
  }

  predicate HasOutput(s: Exec) {
    (exists i :: 0 <= i < |s.out| && s.out[i] != []) || (exists i :: 0 <= i < |s.err| && s.err[i] != [])
  }

  /**
    A flush writes one update iff it is due (forced, or more than a second
    since the last successful flush), some output or error text exists, and
    the write succeeds or fails with a size-limit message; otherwise it writes
    nothing. It never touches the buffers or clears the stop flag, and sets
    the flag exactly when the size guard fires.
  */
  lemma FlushWrites(s: Exec, force: bool, now: int, failure: Option<string>)
    ensures var r := Flush(s, force, now, failure);
      var fires := Due(s, force, now) && HasOutput(s);
      (r.writes == s.writes || r.writes == s.writes + [r.writes[|s.writes|]]) &&
      (|r.writes| > |s.writes| <==> fires && (failure.None? || SizeLimitFailure(failure.value))) &&
      (r.shouldStop <==> s.shouldStop || (fires && failure.Some? && SizeLimitFailure(failure.value))) &&
      (r.lastFlush == if fires && failure.None? then now else s.lastFlush) &&
      r.out == s.out && r.err == s.err && r.signals == s.signals && r.exited == s.exited
  {
  }

  /**
    A successful unforced flush at time t makes every unforced flush up to
    one second later write nothing.
  */
  lemma FlushThrottled(s: Exec, t: int, later: int, failure: Option<string>)
    requires Due(s, false, t) && HasOutput(s) && t <= later <= t + FLUSH_INTERVAL_MS
    ensures var r := Flush(s, false, t, None);
      |r.writes| == |s.writes| + 1 && Flush(r, false, later, failure) == r
  {
  }

  /** A successful write carries the whole output and error text so far. */
  lemma FlushWritesEverything(s: Exec, force: bool, now: int)
    requires Due(s, force, now) && HasOutput(s)
    ensures var r := Flush(s, force, now, None);
      r.writes == s.writes + [map[Output := Str(Concat(s.out)), Error := Str(Concat(s.err))]]
  {
  }

  // ---------------------------------------------------------------------------
  // Properties of the run loop

  /** No snapshot from iteration i on requests a kill. */
  predicate NoKillFrom(env: Env, i: nat) {
    forall j :: i <= j <= |env.ticks| ==> !KillRequested(EventsAt(env, j).snapshots)
  }

  /** No flush from iteration i on fails with a size-limit message. */
  predicate NoSizeFailureFrom(env: Env, i: nat) {
    forall j :: i <= j < |env.ticks| ==>
      env.ticks[j].flushFailure.None? || !SizeLimitFailure(env.ticks[j].flushFailure.value)
  }

  /** The standard output lines read from iteration i until the exit is seen. */
  function OutFrom(env: Env, i: nat): seq<string>
    requires i <= |env.ticks|
    decreases |env.ticks| - i
  {
    if i == |env.ticks| then env.exitEvents.outLines
    else env.ticks[i].events.outLines + OutFrom(env, i + 1)
  }

  /**
    The loop only adds: earlier updates, signals and output stay in place,
    and a set stop flag stays set.
  */
  lemma {:induction false} LoopKeepsHistory(s: Exec, env: Env, i: nat)
    requires i <= |env.ticks|
    ensures var r := LoopFrom(s, env, i).state;
      s.writes <= r.writes && s.signals <= r.signals && s.out <= r.out && s.err <= r.err &&
      (s.shouldStop ==> r.shouldStop) && r.exited == s.exited
    decreases |env.ticks| - i
  {
    var s1 := Deliver(s, EventsAt(env, i));
    if !s1.shouldStop && i < |env.ticks| {
      var t := env.ticks[i];
      LoopKeepsHistory(Flush(s1, false, t.now, t.flushFailure), env, i + 1);
    }
  }

  /**
    Without a kill request or a size-limit failure, the loop runs until the
    process exits: the stop flag stays clear, no signal is sent, the exit code
    is the return code, and every line read is in the output buffer.
  */
  lemma {:induction false} LoopUndisturbed(s: Exec, env: Env, i: nat)
    requires i <= |env.ticks| && !s.shouldStop && NoKillFrom(env, i) && NoSizeFailureFrom(env, i)
    ensures var e := LoopFrom(s, env, i);
      !e.state.shouldStop && e.returnCode == Some(env.exitCode) &&
      e.state.signals == s.signals && e.state.out == s.out + OutFrom(env, i)
    decreases |env.ticks| - i
  {
    var s1 := Deliver(s, EventsAt(env, i));
    assert !KillRequested(EventsAt(env, i).snapshots);
    if i < |env.ticks| {
      var t := env.ticks[i];
      assert t.flushFailure.None? || !SizeLimitFailure(t.flushFailure.value);
      LoopUndisturbed(Flush(s1, false, t.now, t.flushFailure), env, i + 1);
      assert s.out + t.events.outLines + OutFrom(env, i + 1) == s.out + OutFrom(env, i);
    }
  }

  /**
    A kill request delivered before an iteration's check ends the loop there:
    `terminate()` is sent, then `kill()` if the wait timed out (and the return
    code is then None), and nothing more is written.
  */
  lemma KillEndsLoop(s: Exec, env: Env, i: nat)
    requires i <= |env.ticks| && KillRequested(EventsAt(env, i).snapshots)
    ensures var e := LoopFrom(s, env, i);
      e.state.shouldStop && e.state.writes == s.writes &&
      e.state.signals == s.signals + (if env.waitTimesOut then [Terminate, Kill] else [Terminate]) &&
      e.returnCode == (if env.waitTimesOut then None else Some(env.terminatedCode))
  {
  }

  // ---------------------------------------------------------------------------
  // Properties of whole runs

  /**
    The text `run()` writes as `error` when the command was cancelled: the
    command's earlier error, a newline and the cancellation message if the
    loop saw the stop flag, stripped of surrounding whitespace.
  */
  function CancelledError(cmd: CommandData, loopStopped: bool): string {
    Trim(cmd.error.GetOr("") + "\n" + (if loopStopped then CANCELLED_MESSAGE else ""))
  }

  /** `Finish` in terms of the state after its forced flush. */
  lemma FinishIs(e: LoopEnd, cmd: CommandData, env: Env, f: Exec)
    requires f == Flush(e.state, true, env.finalNow, env.finalFlushFailure)
    ensures Finish(e, cmd, env) ==
      f.(writes := f.writes + [FinalUpdate(f.shouldStop, e.returnCode, CancelledError(cmd, e.state.shouldStop))],
         signals := f.signals + if e.returnCode.None? && env.aliveAfterKill then [Terminate] else [])
  {
  }

  /** The steps after the loop, one by one. */
  lemma FinishSteps(e: LoopEnd, cmd: CommandData, env: Env)
    ensures var r := Finish(e, cmd, env);
      var f := Flush(e.state, true, env.finalNow, env.finalFlushFailure);
      r.writes == f.writes + [FinalUpdate(f.shouldStop, e.returnCode, CancelledError(cmd, e.state.shouldStop))] &&
      r.shouldStop == f.shouldStop && r.out == f.out && r.exited == f.exited &&
      f.signals <= r.signals && |r.signals| <= |f.signals| + 1
  {
  }

  /** The command goes through the loop: not a restart, a non-empty command string, a successful spawn. */
  predicate Spawned(cmd: CommandData, env: Env) {
    cmd.kind != Some("restart") && cmd.command.Some? && cmd.command.value != "" && env.spawnError.None?
  }

  /**
    `processing` is the first update a run writes, at least one more follows
    it, and everything written before stays.
  */
  lemma RunWritesProcessingFirst(s: Exec, cmd: CommandData, env: Env)
    ensures var r := RunSpec(s, cmd, env);
      |r.writes| >= |s.writes| + 2 && r.writes[..|s.writes|] == s.writes &&
      r.writes[|s.writes|] == ProcessingUpdate()
  {
    var w1 := s.writes + [ProcessingUpdate()];
    if Spawned(cmd, env) {
      var s1 := s.(writes := w1);
      LoopKeepsHistory(s1, env, 0);
      var e := LoopFrom(s1, env, 0);
      FlushWrites(e.state, true, env.finalNow, env.finalFlushFailure);
      var f := Flush(e.state, true, env.finalNow, env.finalFlushFailure);
      FinishSteps(e, cmd, env);
      var r := Finish(e, cmd, env);
      assert RunSpec(s, cmd, env) == r;
      assert w1 <= e.state.writes <= f.writes;
      assert w1 <= r.writes && |r.writes| > |f.writes|;
      PrefixHead(s.writes, ProcessingUpdate(), r.writes);
    } else {
      PrefixHead(s.writes, ProcessingUpdate(), RunSpec(s, cmd, env).writes);
    }
  }

  lemma PrefixHead<T>(w: seq<T>, x: T, r: seq<T>)
    requires w + [x] <= r
    ensures r[..|w|] == w && r[|w|] == x
  {
    assert r[..|w| + 1] == w + [x];
  }

  /** A restart command writes `processing`, then the restart notice, and the agent exits. */
  lemma RunRestart(s: Exec, cmd: CommandData, env: Env)
    requires cmd.kind == Some("restart")
    ensures var r := RunSpec(s, cmd, env);
      r.writes == s.writes + [ProcessingUpdate(), RestartUpdate()] && r.exited && r.signals == s.signals
  {
  }

  /** A missing or empty command string ends `completed` with the error text and no process. */
  lemma RunMissingCommand(s: Exec, cmd: CommandData, env: Env)
    requires cmd.kind != Some("restart") && (cmd.command.None? || cmd.command.value == "")
    ensures var r := RunSpec(s, cmd, env);
      r.writes == s.writes + [ProcessingUpdate(), ErrorUpdate(NO_COMMAND_MESSAGE)] &&
      r.signals == s.signals && r.exited == s.exited
  {
  }

  /**
    The final update of a spawned command: `cancelled` exactly when the stop
    flag holds after the final flush, `completed` otherwise, always with the
    return code; the flag, once set, is never cleared.
  */
  lemma RunFinalStatus(s: Exec, cmd: CommandData, env: Env)
    requires Spawned(cmd, env)
    ensures var r := RunSpec(s, cmd, env);
      var last := r.writes[|r.writes| - 1];
      |r.writes| >= 1 && Status in last && ReturnCode in last &&
      (last[Status] == StatusValue(Cancelled) <==> r.shouldStop) &&
      (last[Status] == StatusValue(Completed) <==> !r.shouldStop) &&
      (s.shouldStop ==> r.shouldStop) && r.exited == s.exited
  {
    var s1 := s.(writes := s.writes + [ProcessingUpdate()]);
    RunSpawned(s, cmd, env);
    LoopKeepsHistory(s1, env, 0);
    var e := LoopFrom(s1, env, 0);
    FlushWrites(e.state, true, env.finalNow, env.finalFlushFailure);
    var f := Flush(e.state, true, env.finalNow, env.finalFlushFailure);
    FinishIs(e, cmd, env, f);
    var r := Finish(e, cmd, env);
    var u := FinalUpdate(f.shouldStop, e.returnCode, CancelledError(cmd, e.state.shouldStop));
    assert r.writes[|r.writes| - 1] == u && r.shouldStop == f.shouldStop;
    FinalStatus(f.shouldStop, e.returnCode, CancelledError(cmd, e.state.shouldStop));
  }

  /** The final update carries the status and the return code; `cancelled` iff the flag is set. */
  lemma FinalStatus(stopped: bool, rc: Option<int>, error: string)
    ensures var u := FinalUpdate(stopped, rc, error);
      Status in u && ReturnCode in u && u[ReturnCode] == ReturnCodeValue(rc) &&
      u[Status] == StatusValue(if stopped then Cancelled else Completed) &&
      (stopped ==> Error in u && u[Error] == Str(error))
  {
  }

  /**
    Without a kill request or a size-limit failure, a spawned command ends
    `completed` with the process's exit code, no error text and no signal,
    and the output buffer holds every line read.
  */
  lemma RunUndisturbed(s: Exec, cmd: CommandData, env: Env)
    requires Spawned(cmd, env) && !s.shouldStop && NoKillFrom(env, 0) && NoSizeFailureFrom(env, 0)
    requires env.finalFlushFailure.None? || !SizeLimitFailure(env.finalFlushFailure.value)
    ensures var r := RunSpec(s, cmd, env);
      r.writes[|r.writes| - 1] == FinalUpdate(false, Some(env.exitCode), "") &&
      !r.shouldStop && r.signals == s.signals && r.out == s.out + OutFrom(env, 0)
  {
    var s1 := s.(writes := s.writes + [ProcessingUpdate()]);
    LoopUndisturbed(s1, env, 0);
    var e := LoopFrom(s1, env, 0);
    FlushWrites(e.state, true, env.finalNow, env.finalFlushFailure);
    FinishSteps(e, cmd, env);
  }

  /**
    A kill request received before the first check cancels the command: the
    process is terminated, no output flush happens inside the loop, and the
    error text is the earlier error followed by the cancellation message.
  */
  lemma RunKilledAtStart(s: Exec, cmd: CommandData, env: Env)
    requires Spawned(cmd, env) && KillRequested(EventsAt(env, 0).snapshots)
    ensures var r := RunSpec(s, cmd, env);
      var last := r.writes[|r.writes| - 1];
      r.shouldStop && last[Status] == StatusValue(Cancelled) &&
      last[Error] == Str(CancelledError(cmd, true)) &&
      |r.signals| > |s.signals| && r.signals[..|s.signals|] == s.signals && r.signals[|s.signals|] == Terminate
  {
    var s1 := s.(writes := s.writes + [ProcessingUpdate()]);
    RunSpawned(s, cmd, env);
    var e := LoopFrom(s1, env, 0);
    KillEndsLoop(s1, env, 0);
    FlushWrites(e.state, true, env.finalNow, env.finalFlushFailure);
    var f := Flush(e.state, true, env.finalNow, env.finalFlushFailure);
    FinishIs(e, cmd, env, f);
    var r := Finish(e, cmd, env);
    assert f.shouldStop && r.shouldStop;
    FinalStatus(true, e.returnCode, CancelledError(cmd, true));
    assert r.writes[|r.writes| - 1] == FinalUpdate(true, e.returnCode, CancelledError(cmd, true));
    var tail := if env.waitTimesOut then [Terminate, Kill] else [Terminate];
    assert f.signals == s.signals + tail;
    assert r.signals[..|f.signals|] == f.signals;
  }

  /** A spawned command runs the loop and then the steps after it. */
  lemma RunSpawned(s: Exec, cmd: CommandData, env: Env)
    requires Spawned(cmd, env)
    ensures RunSpec(s, cmd, env) == Finish(LoopFrom(s.(writes := s.writes + [ProcessingUpdate()]), env, 0), cmd, env)
  {
  }

  // ---------------------------------------------------------------------------
  // The worker object

  class CommandExecutor {
    var shouldStop: bool
    var lastFlush: int
    var outputBuffer: seq<string>
    var errorBuffer: seq<string>
    /** The updates written to the command document, in order. */
    var writes: seq<Update>
    /** The signals sent to the child process, in order. */
    var signals: seq<Signal>
    /** Whether `os._exit(0)` ended the agent. */
    var exited: bool

    function State(): Exec
      reads this
    {
      Exec(shouldStop, lastFlush, outputBuffer, errorBuffer, writes, signals, exited)
    }

    /** `__init__`: empty buffers, the stop flag clear, the flush clock at `now`. */
    constructor(now: int)
      ensures State() == Exec(false, now, [], [], [], [], false)
    {
      shouldStop := false;
      lastFlush := now;
      outputBuffer := [];
      errorBuffer := [];
      writes := [];
      signals := [];
      exited := false;
    }

    method FlushOutput(force: bool, now: int, failure: Option<string>)
      modifies this
      ensures State() == Flush(old(State()), force, now, failure)
    {
      if force || now - lastFlush > FLUSH_INTERVAL_MS {
        var fullOut := Concat(outputBuffer);
        var fullErr := Concat(errorBuffer);
        if fullOut != [] || fullErr != [] {
          var updates := map[Output := Str(fullOut), Error := Str(fullErr)];
          match failure {
            case None =>
              writes := writes + [updates];
              lastFlush := now;
            case Some(message) =>
              if Contains(message, "Resource exhausted") || Contains(message, "Document too large") {
                writes := writes + [map[Error := Str(fullErr + TRUNCATION_NOTE), Status := StatusValue(Completed)]];
                shouldStop := true;
              }
          }
        }
      }
    }

    /** `on_doc_update`: a document whose `kill_signal` is exactly `True` sets the stop flag. */
    method OnDocUpdate(snapshots: seq<DocData>)
      modifies this
      ensures State() == old(State()).(shouldStop := old(shouldStop) || KillRequested(snapshots))
    {
      for i := 0 to |snapshots|
        invariant State() == old(State()).(shouldStop := old(shouldStop) || KillRequested(snapshots[..i]))
      {
        assert snapshots[..i + 1][..i] == snapshots[..i];
        assert snapshots[..i + 1][i] == snapshots[i];
        var data := snapshots[i];
        if data.Some? && "kill_signal" in data.value && data.value["kill_signal"] == Bool(true) {
          shouldStop := true;
        }
      }
      assert snapshots[..|snapshots|] == snapshots;
    }

    /** What the reader threads and the kill listener do between two checks of the run loop. */
    method Receive(ev: Events)
      modifies this
      ensures State() == Deliver(old(State()), ev)
    {
      outputBuffer := outputBuffer + ev.outLines;
      errorBuffer := errorBuffer + ev.errLines;
      OnDocUpdate(ev.snapshots);
    }

    /** `run()`. */
    method Run(cmd: CommandData, env: Env)
      modifies this
      ensures State() == RunSpec(old(State()), cmd, env)
    {
      writes := writes + [ProcessingUpdate()];
      if cmd.kind == Some("restart") {
        writes := writes + [RestartUpdate()];
        exited := true;
        return;
      }
      if cmd.command.None? || cmd.command.value == "" {
        writes := writes + [ErrorUpdate(NO_COMMAND_MESSAGE)];
        return;
      }
      if env.spawnError.Some? {
        writes := writes + [ErrorUpdate(env.spawnError.value)];
        return;
      }
      var returnCode := RunLoop(env);
      Finalize(cmd, env, returnCode);
    }

    /** The `while True` loop of `run()`; the result is `process.returncode`. */
    method RunLoop(env: Env) returns (returnCode: Option<int>)
      modifies this
      ensures LoopEnd(State(), returnCode) == LoopFrom(old(State()), env, 0)
    {
      var i := 0;
      while true
        invariant 0 <= i <= |env.ticks|
        invariant LoopFrom(old(State()), env, 0) == LoopFrom(State(), env, i)
        decreases |env.ticks| - i
      {
        Receive(EventsAt(env, i));
        if shouldStop {
          signals := signals + [Terminate];
          if env.waitTimesOut {
            signals := signals + [Kill];
            returnCode := None;
          } else {
            returnCode := Some(env.terminatedCode);
          }
          return;
        }
        if i == |env.ticks| {
          returnCode := Some(env.exitCode);
          return;
        }
        FlushOutput(false, env.ticks[i].now, env.ticks[i].flushFailure);
        i := i + 1;
      }
    }

    /** `self.doc_ref.update(update)`. */
    method UpdateDoc(update: Update)
      modifies this
      ensures State() == old(State()).(writes := old(writes) + [update])
    {
      writes := writes + [update];
    }

    /** `self.process.terminate()` or `kill()`. */
    method SendSignal(signal: Signal)
      modifies this
      ensures State() == old(State()).(signals := old(signals) + [signal])
    {
      signals := signals + [signal];
    }

    /** The part of `run()` after the loop, and the cleanup in `finally`. */
    method Finalize(cmd: CommandData, env: Env, returnCode: Option<int>)
      modifies this
      ensures State() == Finish(LoopEnd(old(State()), returnCode), cmd, env)
    {
      ghost var before := State();
      var errorMsg := if shouldStop then CANCELLED_MESSAGE else "";
      var error := Trim(cmd.error.GetOr("") + "\n" + errorMsg);
      assert error == CancelledError(cmd, before.shouldStop);
      FlushOutput(true, env.finalNow, env.finalFlushFailure);
      ghost var f := State();
      FinishIs(LoopEnd(before, returnCode), cmd, env, f);
      UpdateDoc(FinalUpdate(shouldStop, returnCode, error));
      if returnCode.None? && env.aliveAfterKill {
        SendSignal(Terminate);
      }
    }
  }
}
