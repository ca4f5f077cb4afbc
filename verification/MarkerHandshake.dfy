/**
 The handshake between launchers (spawn hooks, and the monitor's own wake) and the
 monitor's recycle on one sandbox.  Both sides write a marker into the sandbox
 metadata and read the other side's marker afterwards.  No
 write is conditional: each one replaces the whole map by a snapshot read earlier.

 Each read and each write is one step; hooks, the monitor and the clock interleave
 freely.
 */
module MarkerHandshake {
  import opened Options
  import opened Markers

  type Hook = nat

  datatype Meta = Meta(launching: Option<nat>, recycling: Option<nat>, superseded: bool)

  datatype HookPc =
    | Begun(stamp: nat)                    // launch_stamp is taken
    | Found(stamp: nat, snap: Meta)        // the sandbox was listed; its metadata is about to be overwritten
    | Marked(stamp: nat)                   // the relaunch marker is written, to be re-read
    | Reusing(stamp: nat)                  // the hook resumes the sandbox and launches the worker in it
    | Superseding(snap: Meta)              // not ours: retag it and create a new sandbox
    | Clearing(stamp: nat, snap: Meta)     // clear_own_marker between its read and its write
    | WakeFound(stamp: nat, snap: Meta)    // wake_one: listed, no fresh marker of a hook
    | Waking(stamp: nat)                   // wake_one: marked, resuming and launching
    | Left

  datatype MonitorPc =
    | Idle
    | Probed                               // the worker is not running
    | ReadOnce(snap: Meta)                 // no fresh relaunch marker
    | Claimed(at: nat)                     // the recycle marker is written, to be re-read
    | Judged(at: nat, snap: Meta)          // still no fresh relaunch marker; the second probe is due
    | Destroying(at: nat)                  // pausing or deleting the sandbox
    | BackingOff(snap: Meta)
    | Unmarking(snap: Meta)                // after a pause: drop the recycle marker

  datatype State = State(now: nat, meta: Meta, gone: bool, hooks: map<Hook, HookPc>, monitor: MonitorPc)

  datatype HookAct =
    | Begin
    | Find
    | Mark
    | Recheck
    | Conflict                             // resuming failed with a conflict: read the marker again
    | Supersede(ok: bool)
    | ClearRead
    | ClearWrite
    | Quit                                 // any exit that leaves the marker in place
    | WakeFind
    | WakeMark

  datatype MonitorAct =
    | Probe
    | Read
    | Claim
    | Reread
    | ProbeAgain(relaunched: bool)
    | BackOff(ok: bool)
    | Paused
    | Deleted
    | Unmark(ok: bool)
    | Fail                                 // an exception ends the recycle

  datatype Action = Tick(ms: nat) | Hooks(hook: Hook, act: HookAct) | Monitors(mact: MonitorAct)

  const INIT := State(0, Meta(None, None, false), false, map[], Idle)

  /** A listing by worker id shows the sandbox. */
  predicate Listed(s: State) { !s.gone && !s.meta.superseded }

  function To(s: State, h: Hook, pc: HookPc): State { s.(hooks := s.hooks[h := pc]) }

  /** The monitor runs its sweep and its wakes one after the other. */
  predicate WakeRunning(s: State) {
    exists h :: h in s.hooks && Wakes(s, h)
  }

  predicate Wakes(s: State, h: Hook) { h in s.hooks && (s.hooks[h].WakeFound? || s.hooks[h].Waking?) }

  /** A metadata write; a deleted sandbox takes none. */
  function Write(s: State, meta: Meta): State { if s.gone then s else s.(meta := meta) }

  function NewHook(s: State, h: Hook, act: HookAct): State {
    match act
    case Begin => To(s, h, Begun(s.now))
    case WakeFind =>
      if s.monitor != Idle || !Listed(s) || Fresh(s.now, s.meta.launching) then s
      else To(s, h, WakeFound(s.now, s.meta))
    case _ => s
  }

  function HookStep(s: State, h: Hook, act: HookAct): State
    requires h in s.hooks
  {
    match (act, s.hooks[h])
    case (Find, Begun(t)) => To(s, h, if Listed(s) then Found(t, s.meta) else Left)
    case (Mark, Found(t, snap)) => To(Write(s, snap.(launching := Some(t))), h, Marked(t))
    case (Recheck, Marked(t)) =>
      To(s, h, if !Listed(s) then Left else if Fresh(s.now, s.meta.recycling) then Superseding(s.meta) else Reusing(t))
    case (Conflict, Reusing(t)) =>
      To(s, h, if Listed(s) && Fresh(s.now, s.meta.recycling) then Superseding(s.meta) else Left)
    case (Supersede(ok), Superseding(snap)) =>
      To(if ok then Write(s, snap.(launching := None, superseded := true)) else s, h, Left)
    case (ClearRead, Reusing(t)) => To(s, h, if s.meta.launching == Some(t) then Clearing(t, s.meta) else Left)
    case (ClearRead, Waking(t)) => To(s, h, if s.meta.launching == Some(t) then Clearing(t, s.meta) else Left)
    case (ClearWrite, Clearing(t, snap)) => To(Write(s, snap.(launching := None)), h, Left)
    case (WakeMark, WakeFound(t, snap)) => To(Write(s, snap.(launching := Some(t))), h, Waking(t))
    case (Quit, _) => To(s, h, Left)
    case _ => s
  }

  function MonitorStep(s: State, act: MonitorAct): State {
    match (act, s.monitor)
    case (Probe, Idle) => if WakeRunning(s) then s else s.(monitor := Probed)
    case (Read, Probed) => s.(monitor := if Fresh(s.now, s.meta.launching) then Idle else ReadOnce(s.meta))
    case (Claim, ReadOnce(snap)) => Write(s, snap.(recycling := Some(s.now))).(monitor := Claimed(s.now))
    case (Reread, Claimed(at)) =>
      s.(monitor := if Fresh(s.now, s.meta.launching) then BackingOff(s.meta) else Judged(at, s.meta))
    case (ProbeAgain(relaunched), Judged(at, snap)) =>
      s.(monitor := if relaunched then BackingOff(snap) else Destroying(at))
    case (BackOff(ok), BackingOff(snap)) => (if ok then Write(s, snap.(recycling := None)) else s).(monitor := Idle)
    case (Paused, Destroying(_)) => s.(monitor := Unmarking(s.meta))
    case (Deleted, Destroying(_)) => s.(gone := true, monitor := Idle)
    case (Unmark(ok), Unmarking(snap)) => (if ok then Write(s, snap.(recycling := None)) else s).(monitor := Idle)
    case (Fail, _) => s.(monitor := Idle)
    case _ => s
  }

  function Apply(s: State, a: Action): State {
    match a
    case Tick(ms) => s.(now := s.now + ms)
    case Hooks(h, act) => if h in s.hooks then HookStep(s, h, act) else NewHook(s, h, act)
    case Monitors(act) => MonitorStep(s, act)
  }

  function Run(s: State, run: seq<Action>): State
    decreases |run|
  {
    if run == [] then s else Run(Apply(s, run[0]), run[1..])
  }

  // ---------------------------------------------------------------------------
  // The assumptions
  // ---------------------------------------------------------------------------

  /** A whole-map write keeps what the other side wrote since the snapshot was read;
      a write that only removes a marker meets the map it was computed from. */
  predicate KeepsOthers(s: State, a: Action) {
    match a
    case Tick(_) => true
    case Hooks(h, act) =>
      if h !in s.hooks then true
      else (match (act, s.hooks[h])
            case (Mark, Found(_, snap)) => snap.recycling == s.meta.recycling
            case (WakeMark, WakeFound(_, snap)) => snap.recycling == s.meta.recycling
            case (Supersede(_), Superseding(snap)) => snap == s.meta
            case (ClearWrite, Clearing(_, snap)) => snap == s.meta
            case _ => true)
    case Monitors(act) =>
      match (act, s.monitor)
      case (Claim, ReadOnce(snap)) => snap.launching == s.meta.launching
      case (BackOff(_), BackingOff(snap)) => snap == s.meta
      case (Unmark(_), Unmarking(snap)) => snap == s.meta
      case _ => true
  }

  predicate HasStamp(pc: HookPc) { !pc.Superseding? && !pc.Left? }

  predicate Stamped(s: State, h: Hook) { h in s.hooks && HasStamp(s.hooks[h]) }

  predicate Attempting(pc: HookPc) { pc.Marked? || pc.Reusing? }

  /** Attempts and recycles finish within the grace period of their markers. */
  ghost predicate Timely(s: State) {
    && (forall h :: h in s.hooks && Attempting(s.hooks[h]) ==> s.now < s.hooks[h].stamp + GRACE)
    && (s.monitor.Claimed? || s.monitor.Judged? || s.monitor.Destroying? ==> s.now < s.monitor.at + GRACE)
  }

  /** No two attempts in flight share a millisecond stamp. */
  ghost predicate DistinctStamps(s: State) {
    forall h, g :: Stamped(s, h) && Stamped(s, g) && s.hooks[h].stamp == s.hooks[g].stamp ==> h == g
  }

  ghost predicate Fair(s: State, a: Action) {
    KeepsOthers(s, a) && Timely(Apply(s, a)) && DistinctStamps(Apply(s, a))
  }

  ghost predicate FairRun(s: State, run: seq<Action>)
    decreases |run|
  {
    run == [] || (Fair(s, run[0]) && FairRun(Apply(s, run[0]), run[1..]))
  }

  // ---------------------------------------------------------------------------
  // Mutual exclusion
  // ---------------------------------------------------------------------------

  /** The monitor has decided to pause or delete the sandbox, or is at it. */
  predicate Acting(s: State) { s.monitor.Judged? || s.monitor.Destroying? }

  predicate Reuses(s: State, h: Hook) { h in s.hooks && s.hooks[h].Reusing? }

  /** The stored relaunch marker is the one this attempt wrote. */
  predicate MarkerStands(s: State, h: Hook)
    requires h in s.hooks && HasStamp(s.hooks[h])
  {
    s.meta.launching == Some(s.hooks[h].stamp)
  }

  ghost predicate Inv(s: State) {
    && (Acting(s) || s.monitor.Claimed? ==> s.gone || s.meta.recycling == Some(s.monitor.at))
    && (Acting(s) ==> forall h :: Reuses(s, h) && !s.gone ==> !MarkerStands(s, h))
  }

  lemma HookKeepsInv(s: State, h: Hook, act: HookAct)
    requires Inv(s) && Timely(s) && DistinctStamps(s) && h in s.hooks && KeepsOthers(s, Hooks(h, act))
    ensures Inv(HookStep(s, h, act))
  {
    var t := HookStep(s, h, act);
    if Acting(t) {
      forall g | Reuses(t, g) && !t.gone
        ensures !MarkerStands(t, g)
      {
        assert Fresh(s.now, s.meta.recycling);
        assert Reuses(s, g) && !MarkerStands(s, g);
      }
    }
  }

  lemma MonitorKeepsInv(s: State, act: MonitorAct)
    requires Inv(s) && Timely(s) && KeepsOthers(s, Monitors(act))
    ensures Inv(MonitorStep(s, act))
  {
    var t := MonitorStep(s, act);
    if Acting(t) {
      forall g | Reuses(t, g) && !t.gone
        ensures !MarkerStands(t, g)
      {
        assert g in s.hooks && Attempting(s.hooks[g]) && s.now < s.hooks[g].stamp + GRACE;
        assert Acting(s) ==> !MarkerStands(s, g);
      }
    }
  }

  lemma StepKeepsInv(s: State, a: Action)
    requires Inv(s) && Timely(s) && DistinctStamps(s) && Fair(s, a)
    ensures Inv(Apply(s, a))
  {
    match a
    case Tick(_) => assert forall g :: Reuses(Apply(s, a), g) ==> Reuses(s, g);
    case Hooks(h, act) =>
      if h in s.hooks {
        HookKeepsInv(s, h, act);
      } else {
        assert forall g :: Reuses(Apply(s, a), g) ==> Reuses(s, g) && s.hooks[g] == Apply(s, a).hooks[g];
      }
    case Monitors(act) => MonitorKeepsInv(s, act);
  }

  lemma {:induction false} RunKeepsInv(s: State, run: seq<Action>)
    requires Inv(s) && Timely(s) && DistinctStamps(s) && FairRun(s, run)
    ensures Inv(Run(s, run))
    decreases |run|
  {
    if run != [] {
      StepKeepsInv(s, run[0]);
      RunKeepsInv(Apply(s, run[0]), run[1..]);
    }
  }

  /** Any number of hooks and wakes, any interleaving: while the monitor pauses or
      deletes the sandbox, no hook whose marker is still stored is reusing it. */
  lemma StandingMarkerExcludesRecycle(run: seq<Action>, h: Hook)
    requires FairRun(INIT, run)
    requires var s := Run(INIT, run); Reuses(s, h) && MarkerStands(s, h) && !s.gone
    ensures !Acting(Run(INIT, run))
  {
    RunKeepsInv(INIT, run);
  }

  // ---------------------------------------------------------------------------
  // One attempt at a time
  // ---------------------------------------------------------------------------

  /** Another attempt marks or supersedes the sandbox while hook h is at it. */
  predicate Intrudes(s: State, a: Action, h: Hook) {
    && h in s.hooks && Attempting(s.hooks[h])
    && a.Hooks? && a.hook != h && (a.act.Mark? || a.act.WakeMark? || a.act.Supersede?)
  }

  predicate Undisturbed(s: State, run: seq<Action>, h: Hook)
    decreases |run|
  {
    run == [] || (!Intrudes(s, run[0], h) && Undisturbed(Apply(s, run[0]), run[1..], h))
  }

  ghost predicate Owned(s: State, h: Hook) {
    && (h in s.hooks && Attempting(s.hooks[h]) && !s.gone ==> MarkerStands(s, h))
    && (forall g :: g in s.hooks && s.hooks[g].Clearing? ==> s.hooks[g].snap.launching == Some(s.hooks[g].stamp))
  }

  lemma HookKeepsOwned(s: State, g: Hook, act: HookAct, h: Hook)
    requires Owned(s, h) && DistinctStamps(s) && g in s.hooks && KeepsOthers(s, Hooks(g, act))
    requires !Intrudes(s, Hooks(g, act), h)
    ensures Owned(HookStep(s, g, act), h)
  {
    var t := HookStep(s, g, act);
    assert forall i :: i in t.hooks && i != g ==> t.hooks[i] == s.hooks[i];
    if g != h && h in s.hooks {
      assert Stamped(s, h) && Stamped(s, g) ==> s.hooks[h].stamp != s.hooks[g].stamp;
    }
  }

  lemma StepKeepsOwned(s: State, a: Action, h: Hook)
    requires Owned(s, h) && DistinctStamps(s) && Fair(s, a) && !Intrudes(s, a, h)
    ensures Owned(Apply(s, a), h)
  {
    match a
    case Hooks(g, act) =>
      if g in s.hooks { HookKeepsOwned(s, g, act, h); } else { NewKeepsOwned(s, g, act, h); }
    case Monitors(act) => MonitorKeepsOwned(s, act, h);
    case Tick(_) =>
  }

  lemma NewKeepsOwned(s: State, g: Hook, act: HookAct, h: Hook)
    requires Owned(s, h) && g !in s.hooks
    ensures Owned(NewHook(s, g, act), h)
  {
    assert forall i :: i in s.hooks ==> NewHook(s, g, act).hooks[i] == s.hooks[i];
  }

  lemma MonitorKeepsOwned(s: State, act: MonitorAct, h: Hook)
    requires Owned(s, h) && KeepsOthers(s, Monitors(act))
    ensures Owned(MonitorStep(s, act), h)
  {
    assert MonitorStep(s, act).hooks == s.hooks;
  }

  lemma {:induction false} RunKeepsOwned(s: State, run: seq<Action>, h: Hook)
    requires Owned(s, h) && Timely(s) && DistinctStamps(s) && FairRun(s, run) && Undisturbed(s, run, h)
    ensures Owned(Run(s, run), h)
    decreases |run|
  {
    if run != [] {
      StepKeepsOwned(s, run[0], h);
      RunKeepsOwned(Apply(s, run[0]), run[1..], h);
    }
  }

  /** The handshake is mutually exclusive for a hook no other attempt disturbs: it
      never reuses a sandbox the monitor is pausing or deleting. */
  lemma ReuseExcludesRecycle(run: seq<Action>, h: Hook)
    requires FairRun(INIT, run) && Undisturbed(INIT, run, h)
    ensures var s := Run(INIT, run); !(Reuses(s, h) && Acting(s) && !s.gone)
  {
    RunKeepsInv(INIT, run);
    RunKeepsOwned(INIT, run, h);
  }

  // ---------------------------------------------------------------------------
  // When the monitor can recycle a sandbox in use
  // ---------------------------------------------------------------------------

  function Monitoring(acts: seq<MonitorAct>): (run: seq<Action>)
    ensures |run| == |acts| && forall i :: 0 <= i < |acts| ==> run[i] == Monitors(acts[i])
  {
    seq(|acts|, i requires 0 <= i < |acts| => Monitors(acts[i]))
  }

  /** These steps of the monitor alone bring it to pause or delete the sandbox. */
  ghost predicate RecyclesBy(s: State, acts: seq<MonitorAct>) {
    var t := Run(s, Monitoring(acts));
    FairRun(s, Monitoring(acts)) && t.monitor.Destroying? && t.hooks == s.hooks && t.gone == s.gone
  }

  ghost predicate TakesTurns(s: State) { WakeRunning(s) ==> s.monitor == Idle }

  lemma {:induction false} RunTakesTurns(s: State, run: seq<Action>)
    requires TakesTurns(s)
    ensures TakesTurns(Run(s, run))
    decreases |run|
  {
    if run != [] {
      StepTakesTurns(s, run[0]);
      RunTakesTurns(Apply(s, run[0]), run[1..]);
    }
  }

  lemma StepTakesTurns(s: State, a: Action)
    requires TakesTurns(s)
    ensures TakesTurns(Apply(s, a))
  {
    var t := Apply(s, a);
    assert forall h :: Wakes(t, h) ==> Wakes(s, h) || s.monitor == Idle;
  }

  /** A fresh stored marker holds the monitor off, and a wake keeps it from starting. */
  lemma {:induction false} HeldOff(s: State, acts: seq<MonitorAct>)
    requires !Acting(s) && TakesTurns(s) && FairRun(s, Monitoring(acts))
    requires Fresh(s.now, s.meta.launching) || WakeRunning(s)
    ensures !Acting(Run(s, Monitoring(acts)))
    decreases |acts|
  {
    if acts != [] {
      assert Monitoring(acts)[1..] == Monitoring(acts[1..]);
      StepTakesTurns(s, Monitors(acts[0]));
      HeldOff(Apply(s, Monitors(acts[0])), acts[1..]);
    }
  }

  lemma GoesMonitor(s: State, act: MonitorAct)
    requires Timely(s) && DistinctStamps(s) && KeepsOthers(s, Monitors(act))
    requires var t := MonitorStep(s, act);
             t.monitor.Claimed? || t.monitor.Judged? || t.monitor.Destroying? ==> t.now < t.monitor.at + GRACE
    ensures Goes(s, Monitors(act), MonitorStep(s, act))
  {
    var t := MonitorStep(s, act);
    assert t.hooks == s.hooks && t.now == s.now;
  }

  /** Without them the next recycle goes through. */
  lemma LetThrough(s: State) returns (acts: seq<MonitorAct>)
    requires Timely(s) && DistinctStamps(s) && !WakeRunning(s) && !Fresh(s.now, s.meta.launching)
    ensures RecyclesBy(s, acts)
  {
    acts := [Fail, Probe, Read, Claim, Reread, ProbeAgain(false)];
    var s1 := MonitorStep(s, Fail);
    GoesMonitor(s, Fail);
    var s2 := MonitorStep(s1, Probe);
    assert s2.monitor == Probed;
    GoesMonitor(s1, Probe);
    var s3 := MonitorStep(s2, Read);
    assert s3.monitor == ReadOnce(s.meta);
    GoesMonitor(s2, Read);
    var s4 := MonitorStep(s3, Claim);
    assert s4.monitor == Claimed(s.now);
    GoesMonitor(s3, Claim);
    var s5 := MonitorStep(s4, Reread);
    assert s5.monitor.Judged?;
    GoesMonitor(s4, Reread);
    var s6 := MonitorStep(s5, ProbeAgain(false));
    assert s6.monitor.Destroying?;
    GoesMonitor(s5, ProbeAgain(false));
    Chain([s, s1, s2, s3, s4, s5, s6], Monitoring(acts));
  }

  /** In every state reached, hooks reusing the sandbox or not: the monitor on its own can
      come to pause or delete it if and only if the stored relaunch marker is not fresh
      and no wake is running.  A hook is safe as long as some fresh marker stands. */
  lemma RecyclesIffUnmarked(run: seq<Action>)
    requires FairRun(INIT, run) && !Acting(Run(INIT, run))
    ensures var s := Run(INIT, run);
            (exists acts :: RecyclesBy(s, acts)) <==> !Fresh(s.now, s.meta.launching) && !WakeRunning(s)
  {
    var s := Run(INIT, run);
    RunIsTimely(INIT, run);
    RunTakesTurns(INIT, run);
    if !Fresh(s.now, s.meta.launching) && !WakeRunning(s) {
      var acts := LetThrough(s);
    } else {
      forall acts | RecyclesBy(s, acts) ensures false { HeldOff(s, acts); }
    }
  }

  lemma {:induction false} RunIsTimely(s: State, run: seq<Action>)
    requires Timely(s) && DistinctStamps(s) && FairRun(s, run)
    ensures Timely(Run(s, run)) && DistinctStamps(Run(s, run))
    decreases |run|
  {
    if run != [] { RunIsTimely(Apply(s, run[0]), run[1..]); }
  }

  // ---------------------------------------------------------------------------
  // What an attempt and a recycle come to on their own
  // ---------------------------------------------------------------------------

  lemma TwoSteps(s: State, a: Action, b: Action)
    ensures Run(s, [a, b]) == Apply(Apply(s, a), b)
  {
    assert [a, b][1..] == [b] && [b][1..] == [];
    assert Run(Apply(s, a), [b]) == Apply(Apply(s, a), b);
  }

  lemma FourSteps(s: State, a: Action, b: Action, c: Action, d: Action)
    ensures Run(s, [a, b, c, d]) == Apply(Apply(Apply(Apply(s, a), b), c), d)
  {
    assert [a, b, c, d][1..] == [b, c, d] && [b, c, d][1..] == [c, d];
    TwoSteps(Apply(Apply(s, a), b), c, d);
    assert Run(Apply(s, a), [b, c, d]) == Run(Apply(Apply(s, a), b), [c, d]);
  }

  /** From its stamp to the rereading of the markers. */
  function Attempt(h: Hook): seq<Action> { [Hooks(h, Begin), Hooks(h, Find), Hooks(h, Mark), Hooks(h, Recheck)] }

  /** A hook on its own comes to reuse the sandbox, under its own marker, if and only if the
      sandbox is listed and bears no fresh recycle marker; one that bears it is left to be
      superseded, and then no listing shows it; and one that is not listed is left alone. */
  lemma HookReusesIff(s: State, h: Hook)
    requires h !in s.hooks
    ensures var t := Run(s, Attempt(h));
            && h in t.hooks
            && (Reuses(t, h) <==> Listed(s) && !Fresh(s.now, s.meta.recycling))
            && (Reuses(t, h) ==> MarkerStands(t, h))
            && (!Listed(s) ==> t == To(s, h, Left))
            && (Listed(s) && Fresh(s.now, s.meta.recycling) ==>
                  !Listed(Apply(t, Hooks(h, Supersede(true)))) && !t.gone)
  {
    FourSteps(s, Hooks(h, Begin), Hooks(h, Find), Hooks(h, Mark), Hooks(h, Recheck));
    var found := Apply(Apply(s, Hooks(h, Begin)), Hooks(h, Find));
    assert found.hooks[h] == if Listed(s) then Found(s.now, s.meta) else Left;
    assert found.meta == s.meta && found.gone == s.gone && found.now == s.now;
    var marked := Apply(found, Hooks(h, Mark));
    assert Listed(s) ==> marked.hooks[h] == Marked(s.now) && marked.meta == s.meta.(launching := Some(s.now));
    assert !Listed(s) ==> found == To(s, h, Left) && marked == found;
  }

  /** Done launching, a hook or a wake takes back its own marker and no other. */
  lemma AttemptClears(s: State, h: Hook)
    requires h in s.hooks && (s.hooks[h].Reusing? || s.hooks[h].Waking?) && !s.gone
    ensures var t := Run(s, [Hooks(h, ClearRead), Hooks(h, ClearWrite)]);
            t == To(if MarkerStands(s, h) then Write(s, s.meta.(launching := None)) else s, h, Left)
  {
    TwoSteps(s, Hooks(h, ClearRead), Hooks(h, ClearWrite));
  }

  /** A wake begins exactly where no recycle is under way and no fresh relaunch marker stands. */
  lemma WakesIff(s: State, h: Hook)
    requires h !in s.hooks
    ensures var t := Run(s, [Hooks(h, WakeFind), Hooks(h, WakeMark)]);
            && (Wakes(t, h) <==> s.monitor == Idle && Listed(s) && !Fresh(s.now, s.meta.launching))
            && (Wakes(t, h) ==> t.hooks[h] == Waking(s.now) && MarkerStands(t, h))
            && (!Wakes(t, h) ==> t == s)
  {
    TwoSteps(s, Hooks(h, WakeFind), Hooks(h, WakeMark));
  }

  /** A recycle that goes through deletes the sandbox, or pauses it and takes its marker back;
      one that backs off takes it back as well. */
  lemma RecycleEnds(s: State)
    requires !s.gone
    ensures s.monitor.Destroying? ==>
              && Apply(s, Monitors(Deleted)) == s.(gone := true, monitor := Idle)
              && Run(s, [Monitors(Paused), Monitors(Unmark(true))])
                 == s.(meta := s.meta.(recycling := None), monitor := Idle)
    ensures s.monitor == BackingOff(s.meta) ==>
              Apply(s, Monitors(BackOff(true))) == s.(meta := s.meta.(recycling := None), monitor := Idle)
  {
    TwoSteps(s, Monitors(Paused), Monitors(Unmark(true)));
  }

  // ---------------------------------------------------------------------------
  // Two attempts at once break the exclusion
  // ---------------------------------------------------------------------------

  ghost predicate Goes(s: State, a: Action, t: State) {
    Apply(s, a) == t && KeepsOthers(s, a) && Timely(t) && DistinctStamps(t)
  }

  /** A run given by its states. */
  lemma {:induction false} Chain(states: seq<State>, run: seq<Action>)
    requires |states| == |run| + 1
    requires forall i :: 0 <= i < |run| ==> Goes(states[i], run[i], states[i + 1])
    ensures FairRun(states[0], run) && Run(states[0], run) == states[|run|]
    decreases |run|
  {
    if run != [] {
      assert Goes(states[0], run[0], states[1]);
      Chain(states[1..], run[1..]);
    }
  }

  // The ways the metadata looks in the run below.
  const CLEAN := Meta(None, None, false)
  const BY_FIRST := Meta(Some(0), None, false)
  const BY_SECOND := Meta(Some(1), None, false)

  // Its states: hook 0 comes to reuse the sandbox, hook 1 overwrites the marker and
  // clears its own.
  const S0 := INIT
  const S1 := State(0, CLEAN, false, map[0 := Begun(0)], Idle)
  const S2 := State(0, CLEAN, false, map[0 := Found(0, CLEAN)], Idle)
  const S3 := State(0, BY_FIRST, false, map[0 := Marked(0)], Idle)
  const S4 := State(0, BY_FIRST, false, map[0 := Reusing(0)], Idle)
  const S5 := State(1, BY_FIRST, false, map[0 := Reusing(0)], Idle)
  const S6 := State(1, BY_FIRST, false, map[0 := Reusing(0), 1 := Begun(1)], Idle)
  const S7 := State(1, BY_FIRST, false, map[0 := Reusing(0), 1 := Found(1, BY_FIRST)], Idle)
  const S8 := State(1, BY_SECOND, false, map[0 := Reusing(0), 1 := Marked(1)], Idle)
  const S9 := State(1, BY_SECOND, false, map[0 := Reusing(0), 1 := Reusing(1)], Idle)
  const S10 := State(1, BY_SECOND, false, map[0 := Reusing(0), 1 := Clearing(1, BY_SECOND)], Idle)
  const S11 := State(1, CLEAN, false, map[0 := Reusing(0), 1 := Left], Idle)

  /** The timing assumptions in a state of two attempts. */
  lemma TwoAttempts(s: State, p: HookPc, q: HookPc)
    requires s.hooks == map[0 := p, 1 := q]
    requires Attempting(p) ==> s.now < p.stamp + GRACE
    requires Attempting(q) ==> s.now < q.stamp + GRACE
    requires HasStamp(p) && HasStamp(q) ==> p.stamp != q.stamp
    requires s.monitor.Claimed? || s.monitor.Judged? || s.monitor.Destroying? ==> s.now < s.monitor.at + GRACE
    ensures Timely(s) && DistinctStamps(s)
  {
  }

  lemma OneAttempt(s: State, p: HookPc)
    requires s.hooks == map[0 := p] && s.monitor == Idle && (Attempting(p) ==> s.now < p.stamp + GRACE)
    ensures Timely(s) && DistinctStamps(s)
  {
  }

  lemma FirstHookMarks()
    ensures Goes(S0, Hooks(0, Begin), S1)
    ensures Goes(S1, Hooks(0, Find), S2)
    ensures Goes(S2, Hooks(0, Mark), S3)
  {
    OneAttempt(S1, Begun(0));
    OneAttempt(S2, Found(0, CLEAN));
    OneAttempt(S3, Marked(0));
  }

  lemma FirstHookReuses()
    ensures Goes(S3, Hooks(0, Recheck), S4)
    ensures Goes(S4, Tick(1), S5)
  {
    OneAttempt(S4, Reusing(0));
    OneAttempt(S5, Reusing(0));
  }

  lemma SecondHookMarks()
    ensures Goes(S5, Hooks(1, Begin), S6)
    ensures Goes(S6, Hooks(1, Find), S7)
    ensures Goes(S7, Hooks(1, Mark), S8)
  {
    TwoAttempts(S6, Reusing(0), Begun(1));
    TwoAttempts(S7, Reusing(0), Found(1, BY_FIRST));
    TwoAttempts(S8, Reusing(0), Marked(1));
  }

  lemma SecondHookReuses()
    ensures Goes(S8, Hooks(1, Recheck), S9)
  {
    TwoAttempts(S9, Reusing(0), Reusing(1));
  }

  lemma SecondHookClears()
    ensures Goes(S9, Hooks(1, ClearRead), S10)
    ensures Goes(S10, Hooks(1, ClearWrite), S11)
  {
    TwoAttempts(S10, Reusing(0), Clearing(1, BY_SECOND));
    TwoAttempts(S11, Reusing(0), Left);
  }

  lemma {:induction false} Append(s: State, first: seq<Action>, rest: seq<Action>)
    ensures Run(s, first + rest) == Run(Run(s, first), rest)
    ensures FairRun(s, first + rest) <==> FairRun(s, first) && FairRun(Run(s, first), rest)
    decreases |first|
  {
    if first == [] {
      assert first + rest == rest;
    } else {
      assert (first + rest)[1..] == first[1..] + rest;
      Append(Apply(s, first[0]), first[1..], rest);
    }
  }

  lemma FirstReuses() returns (run: seq<Action>)
    ensures FairRun(S0, run) && Run(S0, run) == S5
  {
    FirstHookMarks();
    FirstHookReuses();
    run := [Hooks(0, Begin), Hooks(0, Find), Hooks(0, Mark), Hooks(0, Recheck), Tick(1)];
    Chain([S0, S1, S2, S3, S4, S5], run);
  }

  lemma SecondOverwrites() returns (run: seq<Action>)
    ensures FairRun(S5, run) && Run(S5, run) == S8
  {
    SecondHookMarks();
    run := [Hooks(1, Begin), Hooks(1, Find), Hooks(1, Mark)];
    Chain([S5, S6, S7, S8], run);
  }

  lemma SecondClears() returns (run: seq<Action>)
    ensures FairRun(S8, run) && Run(S8, run) == S11
  {
    SecondHookReuses();
    SecondHookClears();
    run := [Hooks(1, Recheck), Hooks(1, ClearRead), Hooks(1, ClearWrite)];
    Chain([S8, S9, S10, S11], run);
  }

  lemma Unprotected() returns (run: seq<Action>)
    ensures FairRun(INIT, run) && Run(INIT, run) == S11
  {
    var first := FirstReuses();
    var second := SecondOverwrites();
    var third := SecondClears();
    Append(S5, second, third);
    Append(S0, first, second + third);
    run := first + (second + third);
  }

  /** The monitor pauses or deletes the sandbox while the hook reuses it. */
  predicate UsedAndDestroyed(s: State, h: Hook) { Reuses(s, h) && s.monitor.Destroying? && !s.gone }

  /** A second hook (on another host) that overwrites the marker and clears its own
      leaves the first one unprotected: the monitor recycles the sandbox under it. */
  lemma SecondHookBreaksIt()
    ensures exists run :: FairRun(INIT, run) && UsedAndDestroyed(Run(INIT, run), 0)
  {
    var run := Unprotected();
    RecyclesIffUnmarked(run);
    var acts :| RecyclesBy(S11, acts);
    Append(INIT, run, Monitoring(acts));
    assert Reuses(S11, 0);
  }
}
