/** The trading kill switch (app/execution/safety_controls.py) and its persistence across
    restarts (app/execution/ops_persistence.py). */
module Controls {
  import M = BrokerModels

  datatype TradingState = Active | Paused | EmergencyStop

  datatype ControlState = ControlState(
    state: TradingState, reason: string, changedAt: nat, canceledOpenOrders: bool)

  datatype Command = Pause | Resume | Stop | ClearEmergency

  function Initial(now: nat): ControlState { ControlState(Active, "", now, false) }

  function Apply(s: ControlState, c: Command, reason: string, now: nat): ControlState {
    match c
    case Pause => ControlState(Paused, reason, now, false)
    case Resume => if s.state.EmergencyStop? then s else ControlState(Active, reason, now, false)
    case Stop => ControlState(EmergencyStop, reason, now, true)
    case ClearEmergency => ControlState(Paused, reason, now, false)
  }

  /** A persisted row; one whose text does not parse restores nothing. */
  datatype Saved = Readable(value: ControlState) | Unreadable

  /** What a restore finds in the newest row. */
  predicate Restorable(history: seq<Saved>) { history != [] && history[|history| - 1].Readable? }

  /** A process: its live controls and the persisted history. */
  datatype Process = Process(live: ControlState, history: seq<Saved>)

  datatype Event =
    | Commanded(c: Command, reason: string, now: nat, persisted: bool)
    | Garbled
    | Restarted(now: nat)

  function React(p: Process, e: Event): Process {
    match e
    case Commanded(c, reason, now, persisted) =>
      var s := Apply(p.live, c, reason, now);
      Process(s, if persisted then p.history + [Readable(s)] else p.history)
    case Garbled => p.(history := p.history + [Unreadable])
    case Restarted(now) =>
      Process(if Restorable(p.history) then p.history[|p.history| - 1].value else Initial(now), p.history)
  }

  function Replay(p: Process, es: seq<Event>): Process
    decreases |es|
  {
    if es == [] then p else React(Replay(p, es[..|es| - 1]), es[|es| - 1])
  }

  lemma ReplayTake(p: Process, es: seq<Event>, n: nat)
    requires n < |es|
    ensures Replay(p, es[..n + 1]) == React(Replay(p, es[..n]), es[n])
  {
    assert es[..n + 1][..n] == es[..n];
  }

  // ----- The controls object -----

  class TradingControls {
    var current: ControlState

    constructor (now: nat)
      ensures current == Initial(now)
    {
      current := Initial(now);
    }

    method DoPause(reason: string, now: nat)
      modifies this
      ensures current == Apply(old(current), Pause, reason, now)
    {
      current := ControlState(Paused, reason, now, false);
    }

    method DoResume(reason: string, now: nat)
      modifies this
      ensures current == Apply(old(current), Resume, reason, now)
    {
      if current.state.EmergencyStop? {
        return;
      }
      current := ControlState(Active, reason, now, false);
    }

    method DoEmergencyStop(reason: string, now: nat)
      modifies this
      ensures current == Apply(old(current), Stop, reason, now)
    {
      current := ControlState(EmergencyStop, reason, now, true);
    }

    method DoClearEmergency(reason: string, now: nat)
      modifies this
      ensures current == Apply(old(current), ClearEmergency, reason, now)
    {
      current := ControlState(Paused, reason, now, false);
    }

    /** Overwrites the state directly: a restore may enter or leave an emergency stop. */
    method Restore(history: seq<Saved>) returns (restored: bool)
      modifies this
      ensures restored == Restorable(history)
      ensures current == if restored then history[|history| - 1].value else old(current)
    {
      if history == [] || history[|history| - 1].Unreadable? {
        return false;
      }
      current := history[|history| - 1].value;
      return true;
    }

    method Persist(history: seq<Saved>) returns (history': seq<Saved>)
      ensures history' == history + [Readable(current)]
    {
      history' := history + [Readable(current)];
    }

    method Handle(e: Event, history: seq<Saved>) returns (history': seq<Saved>)
      modifies this
      ensures Process(current, history') == React(Process(old(current), history), e)
    {
      history' := history;
      match e {
        case Commanded(c, reason, now, persisted) =>
          match c {
            case Pause => DoPause(reason, now);
            case Resume => DoResume(reason, now);
            case Stop => DoEmergencyStop(reason, now);
            case ClearEmergency => DoClearEmergency(reason, now);
          }
          if persisted {
            history' := Persist(history);
          }
        case Garbled =>
          history' := history + [Unreadable];
        case Restarted(now) =>
          current := Initial(now);
          var _ := Restore(history);
      }
    }

    /** The object under any sequence of commands, persists and restarts is the replay. */
    method Serve(es: seq<Event>, history: seq<Saved>) returns (history': seq<Saved>)
      modifies this
      ensures Process(current, history') == Replay(Process(old(current), history), es)
    {
      history' := history;
      var n := 0;
      while n < |es|
        invariant 0 <= n <= |es|
        invariant Process(current, history') == Replay(Process(old(current), history), es[..n])
      {
        ReplayTake(Process(old(current), history), es, n);
        history' := Handle(es[n], history');
        n := n + 1;
      }
      assert es[..n] == es;
    }
  }

  // ----- Runs -----

  /** Every command is persisted and nothing else writes the history. */
  predicate AlwaysPersisted(es: seq<Event>) {
    forall i :: 0 <= i < |es| ==> !es[i].Garbled? && (es[i].Commanded? ==> es[i].persisted)
  }

  /** The newest row is the live state. */
  predicate Synced(p: Process) { Restorable(p.history) && p.history[|p.history| - 1].value == p.live }

  /** The commands of a run, restarts dropped. */
  function Commands(es: seq<Event>): seq<Event>
    decreases |es|
  {
    if es == [] then []
    else
      var init, last := Commands(es[..|es| - 1]), es[|es| - 1];
      if last.Commanded? then init + [last] else init
  }

  lemma ReplaySnoc(p: Process, es: seq<Event>, e: Event)
    ensures Replay(p, es + [e]) == React(Replay(p, es), e)
  {
    assert (es + [e])[..|es|] == es;
  }

  /** When every command is persisted, restarts are invisible: the live state of any run is that
      of the same commands in a process that never restarted. */
  lemma {:induction false} RestartsAreInvisible(p: Process, es: seq<Event>)
    requires Synced(p) && AlwaysPersisted(es)
    ensures Replay(p, es).live == Replay(p, Commands(es)).live
    ensures Synced(Replay(p, es))
    decreases |es|
  {
    if es != [] {
      var init, last := es[..|es| - 1], es[|es| - 1];
      RestartsAreInvisible(p, init);
      if last.Commanded? {
        ReplaySnoc(p, Commands(init), last);
      }
    }
  }

  /** The event adds a row to the history. */
  predicate WritesRow(e: Event) { e.Garbled? || (e.Commanded? && e.persisted) }

  /** The last event of a run that added a row. */
  function LastWrite(es: seq<Event>): (n: M.Option<nat>)
    ensures n.Some? ==> n.value < |es| && WritesRow(es[n.value])
    ensures n.Some? ==> forall i :: n.value < i < |es| ==> !WritesRow(es[i])
    ensures n.None? ==> forall i :: 0 <= i < |es| ==> !WritesRow(es[i])
    decreases |es|
  {
    if es == [] then M.None
    else if WritesRow(es[|es| - 1]) then M.Some(|es| - 1)
    else LastWrite(es[..|es| - 1])
  }

  /** What a restart after a run comes back to: the state right after the last persisted command,
      the initial state when the last row is unreadable, and where nothing was written whatever the
      history held before the run. */
  function ComesBackTo(p: Process, es: seq<Event>, now: nat): ControlState {
    var n := LastWrite(es);
    if n.None? then (if Restorable(p.history) then p.history[|p.history| - 1].value else Initial(now))
    else if RowOf(p, es, n.value).Readable? then RowOf(p, es, n.value).value
    else Initial(now)
  }

  /** The row that the n-th event adds. */
  function RowOf(p: Process, es: seq<Event>, n: nat): Saved
    requires n < |es|
  {
    if es[n].Garbled? then Unreadable else Readable(Replay(p, es[..n + 1]).live)
  }

  lemma {:induction false} HistoryEndsWithLastWrite(p: Process, es: seq<Event>)
    ensures
      var n, history := LastWrite(es), Replay(p, es).history;
      && (n.None? ==> history == p.history)
      && (n.Some? ==> history != [] && history[|history| - 1] == RowOf(p, es, n.value))
    decreases |es|
  {
    if es != [] {
      var init := es[..|es| - 1];
      HistoryEndsWithLastWrite(p, init);
      if WritesRow(es[|es| - 1]) {
        assert es[..|es| - 1 + 1] == es;
      } else if LastWrite(init).Some? {
        assert init[..LastWrite(init).value + 1] == es[..LastWrite(init).value + 1];
      }
    }
  }

  /** After any run, with any writes lost and any row garbled, a restart forgets exactly what came
      after the last row written: it comes back stopped, paused or active as that row says, and it
      changes the live state if and only if the live state is not the one it comes back to. */
  lemma RestartForgetsUnsaved(p: Process, es: seq<Event>, now: nat)
    ensures
      var before, after := Replay(p, es).live, Replay(p, es + [Restarted(now)]).live;
      after == ComesBackTo(p, es, now) && (after != before <==> before != ComesBackTo(p, es, now))
  {
    ReplaySnoc(p, es, Restarted(now));
    HistoryEndsWithLastWrite(p, es);
  }

  /** In particular an emergency stop survives a restart if and only if the last row written is a
      persisted command that left, or found, the process stopped. */
  lemma StopSurvivesIff(p: Process, es: seq<Event>, now: nat)
    requires LastWrite(es).Some?
    ensures Replay(p, es + [Restarted(now)]).live.state.EmergencyStop? <==>
      var n := LastWrite(es).value;
      es[n].Commanded? && (es[n].c.Stop? || (es[n].c.Resume? && Replay(p, es[..n]).live.state.EmergencyStop?))
  {
    RestartForgetsUnsaved(p, es, now);
    ReplayTake(p, es, LastWrite(es).value);
  }

  predicate IsCommand(e: Event, c: Command) { e.Commanded? && e.c == c }

  predicate LeavesStop(e: Event) { IsCommand(e, Pause) || IsCommand(e, ClearEmergency) }

  /** Over every persisted run, restarts included, trading resumes after an emergency stop only
      through a pause or an explicit clear and a later resume: `resume` alone never does it. */
  lemma {:induction false} StopNeedsTwoSteps(p: Process, es: seq<Event>)
    requires Synced(p) && AlwaysPersisted(es) && p.live.state.EmergencyStop?
    ensures !Replay(p, es).live.state.EmergencyStop? ==> exists i :: 0 <= i < |es| && LeavesStop(es[i])
    ensures Replay(p, es).live.state.Active? ==>
      exists i, j :: 0 <= i < j < |es| && LeavesStop(es[i]) && IsCommand(es[j], Resume)
    decreases |es|
  {
    if es != [] {
      var init, last := es[..|es| - 1], es[|es| - 1];
      assert forall i :: 0 <= i < |init| ==> init[i] == es[i];
      RestartsAreInvisible(p, init);
      StopNeedsTwoSteps(p, init);
      if Replay(p, init).live.state.EmergencyStop? {
        if last.Commanded? && !Replay(p, es).live.state.EmergencyStop? { assert LeavesStop(es[|es| - 1]); }
      } else {
        var i :| 0 <= i < |init| && LeavesStop(init[i]);
        assert LeavesStop(es[i]);
        if Replay(p, init).live.state.Active? {
          var i', j :| 0 <= i' < j < |init| && LeavesStop(init[i']) && IsCommand(init[j], Resume);
          assert LeavesStop(es[i']) && IsCommand(es[j], Resume);
        } else if Replay(p, es).live.state.Active? {
          assert IsCommand(es[|es| - 1], Resume);
        }
      }
    }
  }

  // ----- What a command does -----

  /** The four commands from any state: a pause and a clear lead to PAUSED, a stop to EMERGENCY_STOP
      and a resume to ACTIVE, except that a stopped process ignores it altogether. What takes effect
      carries the reason and time of the command, and only a stop says that open orders went. */
  lemma CommandIs(p: Process, c: Command, reason: string, now: nat, persisted: bool)
    ensures
      var live := React(p, Commanded(c, reason, now, persisted)).live;
      && (live.state == Paused <==> c == Pause || c == ClearEmergency)
      && (live.state == EmergencyStop <==> c == Stop || (c == Resume && p.live.state == EmergencyStop))
      && (live.state == Active <==> c == Resume && p.live.state != EmergencyStop)
      && (c == Resume && p.live.state == EmergencyStop ==> live == p.live)
      && (!(c == Resume && p.live.state == EmergencyStop) ==>
            live.reason == reason && live.changedAt == now && (live.canceledOpenOrders <==> c == Stop))
  {
  }

  /** A process that has never written anything starts trading. */
  predicate Newborn(p: Process) {
    p.history == [] && p.live.state == Active && p.live.reason == "" && !p.live.canceledOpenOrders
  }

  /** The rows and the live state say that open orders were cancelled exactly when they say stopped. */
  predicate Consistent(p: Process) {
    && (p.live.canceledOpenOrders <==> p.live.state == EmergencyStop)
    && forall i :: 0 <= i < |p.history| && p.history[i].Readable? ==>
         (p.history[i].value.canceledOpenOrders <==> p.history[i].value.state == EmergencyStop)
  }

  /** In every run from a process that has written nothing, with lost writes, garbled rows and
      restarts, open orders are reported cancelled if and only if the process is stopped; and a
      restart before anything was written starts it trading afresh. */
  lemma {:induction false} CancelledIffStopped(p: Process, es: seq<Event>)
    requires Newborn(p)
    ensures Consistent(Replay(p, es))
    ensures es != [] && es[|es| - 1].Restarted? && Replay(p, es).history == [] ==> Newborn(Replay(p, es))
    decreases |es|
  {
    if es != [] { CancelledIffStopped(p, es[..|es| - 1]); }
  }
}
