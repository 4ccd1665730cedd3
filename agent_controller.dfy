/**
  The agent's main loop (`Agent` in agent/main.py). While a real-time listener
  on pending commands (the watch) is held the agent is in active mode: it
  sends a heartbeat every 10 seconds and drops the watch after more than
  `IDLE_TIMEOUT` seconds without a running command. Without a watch it is in
  sleep mode: it polls for pending commands every 60 seconds and takes the
  watch back when one is found. Each added command document starts one
  executor, at most one per command id; finished executors are reaped at
  the top of every iteration.

  The clock, the executors' liveness, the poll's answer and the heartbeat's
  success are inputs; times are integer seconds.
*/
module AgentController {
  import opened Wrappers
  import Executor

  const IDLE_TIMEOUT: int := 300
  const ACTIVE_SLEEP: nat := 10
  const IDLE_SLEEP: nat := 60

  datatype Mode = Active | Sleep

  /** `on_snapshot` subscriptions and `unsubscribe()` calls on the commands query. */
  datatype WatchEvent = Subscribe | Unsubscribe

  datatype ChangeType = Added | Modified | Removed

  /** One document change delivered to `on_command_snapshot`. */
  datatype Change = Change(kind: ChangeType, id: string, data: Executor.CommandData)

  /**
    What one iteration of `listen_for_commands` meets: the clock at its start,
    the ids whose executor thread is still alive, the poll's answer (the number
    of pending documents, `None` if the query raised), the clock when waking
    up, and whether the heartbeat's write succeeded.
  */
  datatype TickInput = TickInput(now: int, alive: set<string>, pending: Option<nat>,
                                 wakeNow: int, heartbeatOk: bool)

  /**
    The agent's fields (`watch` as a flag, `active_commands` with the data each
    executor was started with, `last_activity_time`) and the logs of what it
    did: watch subscriptions, heartbeat modes, sleeps and executors started.
  */
  datatype Controller = Controller(watching: bool, active: map<string, Executor.CommandData>,
                                   lastActivity: int, subscriptions: seq<WatchEvent>,
                                   heartbeats: seq<Mode>, sleeps: seq<nat>, started: seq<string>)

  function StartWatching(c: Controller): Controller {
    if c.watching then c else c.(watching := true, subscriptions := c.subscriptions + [Subscribe])
  }

  function StopWatching(c: Controller): Controller {
    if !c.watching then c else c.(watching := false, subscriptions := c.subscriptions + [Unsubscribe])
  }

  /** `has_pending_commands()`: a query that raised counts as no pending command. */
  function HasPending(pending: Option<nat>): bool {
    pending.Some? && pending.value > 0
  }

  function ModeOf(watching: bool): Mode {
    if watching then Active else Sleep
  }

  /** `send_heartbeat()`: the reported mode is active iff the watch is held; a failed write is skipped. */
  function Heartbeat(c: Controller, ok: bool): Controller {
    if ok then c.(heartbeats := c.heartbeats + [ModeOf(c.watching)]) else c
  }

  /** `start_command(id, data)`. */
  function StartCommand(c: Controller, id: string, data: Executor.CommandData): Controller {
    if id in c.active then c
    else c.(active := c.active[id := data], started := c.started + [id])
  }

  /** `on_command_snapshot(changes)`, every added document at time `now`. */
  function OnSnapshot(c: Controller, changes: seq<Change>, now: int): Controller
    decreases |changes|
  {
    if changes == [] then c
    else
      var n := |changes| - 1;
      var p := OnSnapshot(c, changes[..n], now);
      if changes[n].kind == Added then StartCommand(p.(lastActivity := now), changes[n].id, changes[n].data)
      else p
  }

  /** Reaping: the executors whose thread is no longer alive are removed. */
  function Reap(c: Controller, alive: set<string>): Controller {
    c.(active := map id | id in c.active && id in alive :: c.active[id])
  }

  /** One iteration of the `while self.running` loop. */
  function Tick(c: Controller, t: TickInput): Controller {
    var r := Reap(c, t.alive);
    var busy := |r.active| > 0;
    var r1 := if busy then r.(lastActivity := t.now) else r;
    var idle := t.now - r1.lastActivity;
    if r1.watching then
      if idle > IDLE_TIMEOUT && !busy then StopWatching(r1)
      else
        var h := Heartbeat(r1, t.heartbeatOk);
        h.(sleeps := h.sleeps + [ACTIVE_SLEEP])
    else if HasPending(t.pending) then
      StartWatching(r1.(lastActivity := t.wakeNow))
    else
      var h := Heartbeat(r1, t.heartbeatOk);
      h.(sleeps := h.sleeps + [IDLE_SLEEP])
  }

  /** What reaches the agent between two iterations: snapshot changes, and the iteration's inputs. */
  datatype Round = Round(changes: seq<Change>, changeTime: int, tick: TickInput)

  function Rounds(c: Controller, rounds: seq<Round>): Controller
    decreases |rounds|
  {
    if rounds == [] then c
    else
      var n := |rounds| - 1;
      var p := Rounds(c, rounds[..n]);
      Tick(OnSnapshot(p, rounds[n].changes, rounds[n].changeTime), rounds[n].tick)
  }

  /** `listen_for_commands()`, over finitely many iterations, starting at time `start`. */
  function Listen(c: Controller, start: int, rounds: seq<Round>): Controller {
    Rounds(StartWatching(c.(lastActivity := start)), rounds)
  }

  // ---------------------------------------------------------------------------
  // The watch

  /**
    The watch flag and the subscription log agree: subscriptions and
    unsubscriptions alternate, starting with a subscription, and the watch is
    held iff the last event is a subscription.
  */
  predicate WatchConsistent(c: Controller) {
    (forall i :: 0 <= i < |c.subscriptions| ==> c.subscriptions[i] == (if i % 2 == 0 then Subscribe else Unsubscribe)) &&
    (c.watching <==> |c.subscriptions| % 2 == 1)
  }

  /** Starting the watch twice is starting it once; it is then held. */
  lemma StartWatchingIdempotent(c: Controller)
    ensures StartWatching(StartWatching(c)) == StartWatching(c) && StartWatching(c).watching
  {
  }

  /** Stopping the watch twice is stopping it once; it is then released. */
  lemma StopWatchingIdempotent(c: Controller)
    ensures StopWatching(StopWatching(c)) == StopWatching(c) && !StopWatching(c).watching
  {
  }

  lemma StartWatchingConsistent(c: Controller)
    requires WatchConsistent(c)
    ensures WatchConsistent(StartWatching(c))
  {
  }

  lemma StopWatchingConsistent(c: Controller)
    requires WatchConsistent(c)
    ensures WatchConsistent(StopWatching(c))
  {
  }

  // ---------------------------------------------------------------------------
  // Starting commands

  /**
    `start_command` is a no-op for an id already running; otherwise it adds
    exactly that id, starts its executor, and leaves the other entries alone.
  */
  lemma StartCommandExclusive(c: Controller, id: string, data: Executor.CommandData)
    ensures var r := StartCommand(c, id, data);
      (id in c.active ==> r == c) &&
      (id !in c.active ==>
        r.active.Keys == c.active.Keys + {id} && r.active[id] == data &&
        (forall k :: k in c.active ==> r.active[k] == c.active[k]) &&
        r.started == c.started + [id]) &&
      r.watching == c.watching && r.lastActivity == c.lastActivity
  {
  }

  /** A second start of the same id before it is reaped does nothing. */
  lemma StartCommandTwice(c: Controller, id: string, d1: Executor.CommandData, d2: Executor.CommandData)
    ensures StartCommand(StartCommand(c, id, d1), id, d2) == StartCommand(c, id, d1)
  {
  }

  /** The ids of the added documents among the changes. */
  function AddedIds(changes: seq<Change>): set<string> {
    set i | 0 <= i < |changes| && changes[i].kind == Added :: changes[i].id
  }

  /** The data of the first added change for `id`, if there is one. */
  function FirstAdded(changes: seq<Change>, id: string): Option<Executor.CommandData> {
    if changes == [] then None
    else if changes[0].kind == Added && changes[0].id == id then Some(changes[0].data)
    else FirstAdded(changes[1..], id)
  }

  /** The ids of the added changes that are not in `skip`, each once, in the order of their first addition. */
  function NewIds(changes: seq<Change>, skip: set<string>): seq<string> {
    if changes == [] then []
    else if changes[0].kind == Added && changes[0].id !in skip then
      [changes[0].id] + NewIds(changes[1..], skip + {changes[0].id})
    else NewIds(changes[1..], skip)
  }

  /**
    After a snapshot the running ids are the earlier ones plus the added
    ones; earlier entries keep their data, a new entry holds the data of the
    first added change for its id, the executors started are the new ids in
    the order of their first addition, the activity time moves to `now` iff
    some document was added, and the watch is untouched.
  */
  lemma OnSnapshotStarts(c: Controller, changes: seq<Change>, now: int)
    ensures var r := OnSnapshot(c, changes, now);
      r.active.Keys == c.active.Keys + AddedIds(changes) &&
      (forall k :: k in c.active ==> r.active[k] == c.active[k]) &&
      (forall k :: k in AddedIds(changes) && k !in c.active ==> FirstAdded(changes, k) == Some(r.active[k])) &&
      r.started == c.started + NewIds(changes, c.active.Keys) &&
      r.lastActivity == (if AddedIds(changes) == {} then c.lastActivity else now) &&
      r.watching == c.watching && r.subscriptions == c.subscriptions
  {
    OnSnapshotShape(c, changes, now);
    OnSnapshotStarted(c, changes, now);
    OnSnapshotData(c, changes, now);
  }

  /** The keys, kept entries, activity time and watch after a snapshot. */
  lemma {:induction false} OnSnapshotShape(c: Controller, changes: seq<Change>, now: int)
    ensures var r := OnSnapshot(c, changes, now);
      r.active.Keys == c.active.Keys + AddedIds(changes) &&
      (forall k :: k in c.active ==> r.active[k] == c.active[k]) &&
      r.lastActivity == (if AddedIds(changes) == {} then c.lastActivity else now) &&
      r.watching == c.watching && r.subscriptions == c.subscriptions
    decreases |changes|
  {
    if changes != [] {
      var n := |changes| - 1;
      OnSnapshotShape(c, changes[..n], now);
      AddedIdsLast(changes);
    }
  }

  /** The executors started by a snapshot are its new ids, in the order of their first addition. */
  lemma {:induction false} OnSnapshotStarted(c: Controller, changes: seq<Change>, now: int)
    ensures OnSnapshot(c, changes, now).started == c.started + NewIds(changes, c.active.Keys)
    decreases |changes|
  {
    if changes != [] {
      var n := |changes| - 1;
      OnSnapshotStarted(c, changes[..n], now);
      OnSnapshotShape(c, changes[..n], now);
      NewIdsLast(changes, c.active.Keys);
    }
  }

  /** A new entry holds the data of the first added change for its id. */
  lemma {:induction false} OnSnapshotData(c: Controller, changes: seq<Change>, now: int)
    ensures var r := OnSnapshot(c, changes, now);
      forall k :: k in AddedIds(changes) && k !in c.active ==> k in r.active && FirstAdded(changes, k) == Some(r.active[k])
    decreases |changes|
  {
    OnSnapshotShape(c, changes, now);
    if changes != [] {
      var n := |changes| - 1;
      var pre := changes[..n];
      OnSnapshotData(c, pre, now);
      OnSnapshotShape(c, pre, now);
      AddedIdsLast(changes);
      var r := OnSnapshot(c, changes, now);
      forall k | k in AddedIds(changes) && k !in c.active ensures FirstAdded(changes, k) == Some(r.active[k]) {
        FirstAddedLast(changes, k);
        FirstAddedSome(pre, k);
      }
    }
  }

  /** The added ids of a list are those of its first change, if it was added, plus those of the rest. */
  lemma AddedIdsFirst(changes: seq<Change>)
    requires changes != []
    ensures AddedIds(changes) == (if changes[0].kind == Added then {changes[0].id} else {}) + AddedIds(changes[1..])
  {
    var rest := changes[1..];
    forall x | x in AddedIds(changes)
      ensures x in (if changes[0].kind == Added then {changes[0].id} else {}) + AddedIds(rest)
    {
      var i :| 0 <= i < |changes| && changes[i].kind == Added && changes[i].id == x;
      if i > 0 {
        assert rest[i - 1] == changes[i];
      }
    }
    forall x | x in AddedIds(rest) ensures x in AddedIds(changes) {
      var i :| 0 <= i < |rest| && rest[i].kind == Added && rest[i].id == x;
      assert changes[i + 1] == rest[i];
    }
  }

  /** The first added change for an id is found in all but the last change, or else it is the last one. */
  lemma {:induction false} FirstAddedLast(changes: seq<Change>, id: string)
    requires changes != []
    ensures var n := |changes| - 1;
      FirstAdded(changes, id) ==
        if FirstAdded(changes[..n], id).Some? then FirstAdded(changes[..n], id)
        else if changes[n].kind == Added && changes[n].id == id then Some(changes[n].data)
        else None
    decreases |changes|
  {
    var n := |changes| - 1;
    if n > 0 {
      assert changes[1..][..n - 1] == changes[..n][1..];
      FirstAddedLast(changes[1..], id);
    }
  }

  /** Some change adds `id` iff there is a first one. */
  lemma {:induction false} FirstAddedSome(changes: seq<Change>, id: string)
    ensures FirstAdded(changes, id).Some? <==> id in AddedIds(changes)
    decreases |changes|
  {
    if changes != [] {
      var n := |changes| - 1;
      FirstAddedSome(changes[..n], id);
      FirstAddedLast(changes, id);
      AddedIdsLast(changes);
    }
  }

  /** The new ids of a list are those of all but its last change, plus the last one's if it is added and new. */
  lemma {:induction false} NewIdsLast(changes: seq<Change>, skip: set<string>)
    requires changes != []
    ensures var n := |changes| - 1;
      NewIds(changes, skip) == NewIds(changes[..n], skip) +
        (if changes[n].kind == Added && changes[n].id !in skip + AddedIds(changes[..n]) then [changes[n].id] else [])
    decreases |changes|
  {
    var n := |changes| - 1;
    var pre := changes[..n];
    if n == 0 {
      assert AddedIds(pre) == {};
    } else {
      var x := changes[0];
      var rest := changes[1..];
      assert rest[..n - 1] == pre[1..];
      assert pre[0] == x;
      AddedIdsFirst(pre);
      var skip' := if x.kind == Added && x.id !in skip then skip + {x.id} else skip;
      NewIdsLast(rest, skip');
      assert skip' + AddedIds(rest[..n - 1]) == skip + AddedIds(pre);
    }
  }

  /** The new ids are exactly the added ids outside `skip`, without repeats. */
  lemma {:induction false} NewIdsSpec(changes: seq<Change>, skip: set<string>)
    ensures var r := NewIds(changes, skip);
      (forall x :: x in r <==> x in AddedIds(changes) && x !in skip) &&
      (forall i, j :: 0 <= i < j < |r| ==> r[i] != r[j])
    decreases |changes|
  {
    if changes != [] {
      var x := changes[0];
      AddedIdsFirst(changes);
      if x.kind == Added && x.id !in skip {
        var tail := NewIds(changes[1..], skip + {x.id});
        NewIdsSpec(changes[1..], skip + {x.id});
        var r := [x.id] + tail;
        forall i, j | 0 <= i < j < |r| ensures r[i] != r[j] {
          assert r[j] == tail[j - 1];
          if i > 0 {
            assert r[i] == tail[i - 1];
          }
        }
      } else {
        NewIdsSpec(changes[1..], skip);
      }
    }
  }

  /** The added ids of a list are those of all but its last change, plus the last one's if it was added. */
  lemma AddedIdsLast(changes: seq<Change>)
    requires changes != []
    ensures var n := |changes| - 1;
      AddedIds(changes) == AddedIds(changes[..n]) + (if changes[n].kind == Added then {changes[n].id} else {})
  {
    var n := |changes| - 1;
    var pre := changes[..n];
    forall x | x in AddedIds(changes)
      ensures x in AddedIds(pre) + (if changes[n].kind == Added then {changes[n].id} else {})
    {
      var i :| 0 <= i < |changes| && changes[i].kind == Added && changes[i].id == x;
      if i < n {
        assert pre[i] == changes[i];
      }
    }
    forall x | x in AddedIds(pre) ensures x in AddedIds(changes) {
      var i :| 0 <= i < n && pre[i].kind == Added && pre[i].id == x;
      assert changes[i] == pre[i];
    }
  }

  // ---------------------------------------------------------------------------
  // One iteration

  /** Exactly the executors whose thread is alive remain; an iteration starts none. */
  lemma TickReaps(c: Controller, t: TickInput)
    ensures var r := Tick(c, t);
      r.active.Keys == c.active.Keys * t.alive &&
      (forall k :: k in r.active ==> r.active[k] == c.active[k]) &&
      r.started == c.started
  {
  }

  /** A map is empty iff it has no key. */
  lemma EmptyMap<K, V>(m: map<K, V>)
    ensures |m| == 0 <==> forall k :: k !in m
  {
    if |m| != 0 {
      var k :| k in m.Keys;
    } else {
      assert m.Keys == {};
    }
  }

  /**
    Active mode: the watch is dropped iff no executor is alive and more than
    `IDLE_TIMEOUT` seconds passed since the last activity; otherwise the
    agent sends an active heartbeat and sleeps 10 seconds. A running command
    counts as activity at this iteration.
  */
  lemma TickActiveMode(c: Controller, t: TickInput)
    requires c.watching
    ensures var r := Tick(c, t);
      var busy := exists k :: k in c.active && k in t.alive;
      (!r.watching <==> !busy && t.now - c.lastActivity > IDLE_TIMEOUT) &&
      (!r.watching ==> r.subscriptions == c.subscriptions + [Unsubscribe] && r.sleeps == c.sleeps &&
                       r.heartbeats == c.heartbeats) &&
      (r.watching ==> r.sleeps == c.sleeps + [ACTIVE_SLEEP] && r.subscriptions == c.subscriptions &&
                      r.heartbeats == c.heartbeats + (if t.heartbeatOk then [Active] else [])) &&
      (busy ==> r.lastActivity == t.now)
  {
    var reaped := Reap(c, t.alive);
    EmptyMap(reaped.active);
    if exists k :: k in c.active && k in t.alive {
      var k :| k in c.active && k in t.alive;
      assert k in reaped.active;
    } else {
      assert |reaped.active| == 0;
    }
  }

  /**
    Sleep mode: a pending command resets the activity time to the wake-up
    clock and takes the watch; otherwise the agent sends a sleep heartbeat
    and sleeps 60 seconds.
  */
  lemma TickSleepMode(c: Controller, t: TickInput)
    requires !c.watching
    ensures var r := Tick(c, t);
      (r.watching <==> HasPending(t.pending)) &&
      (r.watching ==> r.lastActivity == t.wakeNow && r.subscriptions == c.subscriptions + [Subscribe] &&
                      r.sleeps == c.sleeps && r.heartbeats == c.heartbeats) &&
      (!r.watching ==> r.sleeps == c.sleeps + [IDLE_SLEEP] && r.subscriptions == c.subscriptions &&
                       r.heartbeats == c.heartbeats + (if t.heartbeatOk then [Sleep] else []))
  {
  }

  /** Every heartbeat reports `active` iff the watch is held when it is sent. */
  lemma TickHeartbeatMode(c: Controller, t: TickInput)
    ensures var r := Tick(c, t);
      r.heartbeats == c.heartbeats || r.heartbeats == c.heartbeats + [ModeOf(r.watching)]
  {
  }

  lemma TickConsistent(c: Controller, t: TickInput)
    requires WatchConsistent(c)
    ensures WatchConsistent(Tick(c, t))
  {
    var r := Reap(c, t.alive);
    var r1 := if |r.active| > 0 then r.(lastActivity := t.now) else r;
    StopWatchingConsistent(r1);
    StartWatchingConsistent(r1.(lastActivity := t.wakeNow));
  }

  /**
    Over any run of the loop the watch flag and the subscription log stay
    consistent: the listener is never subscribed twice without an
    unsubscription in between.
  */
  lemma {:induction false} ListenConsistent(c: Controller, start: int, rounds: seq<Round>)
    requires WatchConsistent(c)
    ensures WatchConsistent(Listen(c, start, rounds))
  {
    StartWatchingConsistent(c.(lastActivity := start));
    RoundsConsistent(StartWatching(c.(lastActivity := start)), rounds);
  }

  lemma {:induction false} RoundsConsistent(c: Controller, rounds: seq<Round>)
    requires WatchConsistent(c)
    ensures WatchConsistent(Rounds(c, rounds))
    decreases |rounds|
  {
    if rounds != [] {
      var n := |rounds| - 1;
      RoundsConsistent(c, rounds[..n]);
      var p := Rounds(c, rounds[..n]);
      OnSnapshotStarts(p, rounds[n].changes, rounds[n].changeTime);
      TickConsistent(OnSnapshot(p, rounds[n].changes, rounds[n].changeTime), rounds[n].tick);
    }
  }

  // ---------------------------------------------------------------------------
  // The agent object

  class Agent {
    var watching: bool
    var activeCommands: map<string, Executor.CommandData>
    var lastActivityTime: int
    var subscriptions: seq<WatchEvent>
    var heartbeats: seq<Mode>
    var sleeps: seq<nat>
    var started: seq<string>

    function State(): Controller
      reads this
    {
      Controller(watching, activeCommands, lastActivityTime, subscriptions, heartbeats, sleeps, started)
    }

    /** `__init__`: no watch, no command, the activity clock at `now`. */
    constructor(now: int)
      ensures State() == Controller(false, map[], now, [], [], [], []) && WatchConsistent(State())
    {
      watching := false;
      activeCommands := map[];
      lastActivityTime := now;
      subscriptions := [];
      heartbeats := [];
      sleeps := [];
      started := [];
    }

    method StartWatchingM()
      modifies this
      ensures State() == StartWatching(old(State()))
    {
      if !watching {
        subscriptions := subscriptions + [Subscribe];
        watching := true;
      }
    }

    method StopWatchingM()
      modifies this
      ensures State() == StopWatching(old(State()))
    {
      if watching {
        subscriptions := subscriptions + [Unsubscribe];
        watching := false;
      }
    }

    method SendHeartbeat(ok: bool)
      modifies this
      ensures State() == Heartbeat(old(State()), ok)
    {
      if ok {
        heartbeats := heartbeats + [if watching then Active else Sleep];
      }
    }

    method StartCommandM(id: string, data: Executor.CommandData)
      modifies this
      ensures State() == StartCommand(old(State()), id, data)
    {
      if id in activeCommands {
        return;
      }
      activeCommands := activeCommands[id := data];
      started := started + [id];
    }

    method OnCommandSnapshot(changes: seq<Change>, now: int)
      modifies this
      ensures State() == OnSnapshot(old(State()), changes, now)
    {
      for i := 0 to |changes|
        invariant State() == OnSnapshot(old(State()), changes[..i], now)
      {
        assert changes[..i + 1][..i] == changes[..i];
        if changes[i].kind == Added {
          lastActivityTime := now;
          StartCommandM(changes[i].id, changes[i].data);
        }
      }
      assert changes[..|changes|] == changes;
    }

    /** The reaping loop: forgets every executor whose thread is no longer alive. */
    method ReapFinished(alive: set<string>)
      modifies this
      ensures State() == Reap(old(State()), alive)
    {
      var finished := set id | id in activeCommands && id !in alive;
      ghost var before := activeCommands;
      while finished != {}
        invariant finished <= before.Keys
        invariant activeCommands == map id | id in before && (id in alive || id in finished) :: before[id]
        invariant State() == old(State()).(active := activeCommands)
        decreases finished
      {
        var id :| id in finished;
        activeCommands := activeCommands - {id};
        finished := finished - {id};
      }
      assert activeCommands == Reap(old(State()), alive).active;
    }

    /** The body of the `while self.running` loop. */
    method TickM(t: TickInput)
      modifies this
      ensures State() == Tick(old(State()), t)
    {
      ReapFinished(t.alive);
      var isBusy := |activeCommands| > 0;
      if isBusy {
        lastActivityTime := t.now;
      }
      var idleTime := t.now - lastActivityTime;
      if watching {
        if idleTime > IDLE_TIMEOUT && !isBusy {
          StopWatchingM();
        } else {
          SendHeartbeat(t.heartbeatOk);
          sleeps := sleeps + [ACTIVE_SLEEP];
        }
      } else {
        if HasPending(t.pending) {
          lastActivityTime := t.wakeNow;
          StartWatchingM();
        } else {
          SendHeartbeat(t.heartbeatOk);
          sleeps := sleeps + [IDLE_SLEEP];
        }
      }
    }

    /** `listen_for_commands()`, for the given rounds. */
    method ListenForCommands(start: int, rounds: seq<Round>)
      modifies this
      ensures State() == Listen(old(State()), start, rounds)
      ensures old(WatchConsistent(State())) ==> WatchConsistent(State())
    {
      ghost var c0 := State();
      lastActivityTime := start;
      StartWatchingM();
      ghost var c1 := State();
      for k := 0 to |rounds|
        invariant State() == Rounds(c1, rounds[..k])
      {
        assert rounds[..k + 1][..k] == rounds[..k];
        OnCommandSnapshot(rounds[k].changes, rounds[k].changeTime);
        TickM(rounds[k].tick);
      }
      assert rounds[..|rounds|] == rounds;
      if WatchConsistent(c0) {
        ListenConsistent(c0, start, rounds);
      }
    }
  }
}
