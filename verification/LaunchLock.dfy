/**
 The two scripts that start and stop the worker of one sandbox (launch.sh and
 stop.sh), and the worker itself, as a transition system.

 Every shell command that reads or changes shared state is one step, so any
 number of scripts, worker exits and worker crashes interleave between any two
 commands.  The flock on launch.lock is the only thing that keeps the scripts
 apart.  A run is an arbitrary sequence of actions; an action that cannot happen
 in the state it meets leaves the state alone.
 */
module LaunchLock {
  import opened Options

  type Pid = nat
  type Script = nat

  /** Where a script stands: the next command it will execute. */
  datatype Pc =
    | LaunchLocking             // flock -w 30 9
    | LaunchReadPid             // test -s PIDFILE, head -n1
    | LaunchTestGroup(pid: Pid) // kill -0 / pgrep -g
    | LaunchTestExit(pid: Pid)  // test -f EXITFILE
    | LaunchKill(pid: Pid)      // kill -KILL -- -pid; sleep 0.5
    | LaunchRmPid               // rm -f PIDFILE
    | LaunchRmExit              // rm -f EXITFILE
    | LaunchFork                // setsid bash -c ... &
    | LaunchWrite(pid: Pid)     // printf pid > PIDFILE
    | StopLocking
    | StopReadPid
    | StopTerm(pid: Pid)        // kill -TERM, then wait for the group
    | StopKill(pid: Pid)        // kill -KILL, then wait for the group
    | StopConfirm(pid: Pid)     // the last pgrep -g
    | StopRmPid
    | StopRmExit
    | Ended(outcome: Outcome)

  datatype Outcome =
    | Launched(pid: Pid)        // launch.sh printed the pid of the worker it started
    | AlreadyRunning(pid: Pid)  // launch.sh printed the pid it found
    | Stopped                   // stop.sh exited 0
    | StillAlive                // stop.sh exited 1, the group survived
    | NoLock                    // flock timed out
    | Died                      // the script itself was killed

  datatype State = State(
    scripts: map<Script, Pc>,
    lock: Option<Script>,
    pidfile: Option<Pid>,
    exitfile: bool,
    live: set<Pid>,             // process groups with at least one live member
    nextPid: Pid                // pids are not reused
  )

  datatype Action =
    | BeginLaunch(id: Script)
    | BeginStop(id: Script)
    | Advance(id: Script, killed: bool) // killed: whether a SIGKILL sent by this command empties the group in time
    | TimeOut(id: Script)               // flock gives up
    | Crash(id: Script)                 // the script dies; the kernel drops its lock
    | WorkerWritesExit(pid: Pid)        // the wrapper records the exit code; members may survive it
    | WorkerGone(pid: Pid)              // the last member of the group is gone

  const INIT := State(map[], None, None, false, {}, 0)

  predicate Locking(pc: Pc) { pc.LaunchLocking? || pc.StopLocking? }

  /** The script stands between taking the lock and letting it go. */
  predicate Inside(pc: Pc) { !Locking(pc) && !pc.Ended? }

  function Goto(s: State, id: Script, pc: Pc): State {
    s.(scripts := s.scripts[id := pc],
       lock := if pc.Ended? then None else s.lock)
  }

  /** One command of the script that holds the lock. */
  function Command(s: State, id: Script, killed: bool): State
    requires id in s.scripts
  {
    match s.scripts[id]
    case LaunchReadPid =>
      if s.pidfile.Some? then Goto(s, id, LaunchTestGroup(s.pidfile.value)) else Goto(s, id, LaunchRmPid)
    case LaunchTestGroup(p) => Goto(s, id, if p in s.live then LaunchTestExit(p) else LaunchRmPid)
    case LaunchTestExit(p) => Goto(s, id, if s.exitfile then LaunchKill(p) else Ended(AlreadyRunning(p)))
    case LaunchKill(p) => Goto(if killed then s.(live := s.live - {p}) else s, id, LaunchRmPid)
    case LaunchRmPid => Goto(s.(pidfile := None), id, LaunchRmExit)
    case LaunchRmExit => Goto(s.(exitfile := false), id, LaunchFork)
    case LaunchFork => Goto(s.(live := s.live + {s.nextPid}, nextPid := s.nextPid + 1), id, LaunchWrite(s.nextPid))
    case LaunchWrite(p) => Goto(s.(pidfile := Some(p)), id, Ended(Launched(p)))
    case StopReadPid =>
      if s.pidfile.Some? then Goto(s, id, StopTerm(s.pidfile.value)) else Goto(s, id, StopRmPid)
    case StopTerm(p) => Goto(s, id, if p in s.live then StopKill(p) else StopConfirm(p))
    case StopKill(p) => Goto(if killed then s.(live := s.live - {p}) else s, id, StopConfirm(p))
    case StopConfirm(p) => Goto(s, id, if p in s.live then Ended(StillAlive) else StopRmPid)
    case StopRmPid => Goto(s.(pidfile := None), id, StopRmExit)
    case StopRmExit => Goto(s.(exitfile := false), id, Ended(Stopped))
    case _ => s
  }

  function Apply(s: State, a: Action): State {
    match a
    case BeginLaunch(id) => if id in s.scripts then s else s.(scripts := s.scripts[id := LaunchLocking])
    case BeginStop(id) => if id in s.scripts then s else s.(scripts := s.scripts[id := StopLocking])
    case Advance(id, killed) =>
      if id !in s.scripts then s
      else if Locking(s.scripts[id]) then
        if s.lock.Some? then s
        else s.(lock := Some(id),
                scripts := s.scripts[id := if s.scripts[id].LaunchLocking? then LaunchReadPid else StopReadPid])
      else Command(s, id, killed)
    case TimeOut(id) =>
      if id in s.scripts && Locking(s.scripts[id]) then s.(scripts := s.scripts[id := Ended(NoLock)]) else s
    case Crash(id) =>
      if id !in s.scripts || s.scripts[id].Ended? then s
      else s.(scripts := s.scripts[id := Ended(Died)], lock := if s.lock == Some(id) then None else s.lock)
    case WorkerWritesExit(p) => if p in s.live then s.(exitfile := true) else s
    case WorkerGone(p) => s.(live := s.live - {p})
  }

  function Run(s: State, run: seq<Action>): State
    decreases |run|
  {
    if run == [] then s else Run(Apply(s, run[0]), run[1..])
  }

  // ---------------------------------------------------------------------------
  // The environment assumptions
  // ---------------------------------------------------------------------------

  /** launch.sh dies after it has forked the worker, which is live, and before it has
      written the pid. */
  predicate DiesBeforePidWrite(s: State, a: Action) {
    a.Crash? && a.id in s.scripts && s.scripts[a.id].LaunchWrite? && s.scripts[a.id].pid in s.live
  }

  /** launch.sh does not look again after its SIGKILL, so the signal has to land in
      the half second the script sleeps.  stop.sh does look again. */
  predicate KillTooSlow(s: State, a: Action) {
    a.Advance? && a.id in s.scripts && s.scripts[a.id].LaunchKill? && !a.killed && s.scripts[a.id].pid in s.live
  }

  predicate Benign(s: State, a: Action) { !DiesBeforePidWrite(s, a) && !KillTooSlow(s, a) }

  predicate BenignRun(s: State, run: seq<Action>)
    decreases |run|
  {
    run == [] || (Benign(s, run[0]) && BenignRun(Apply(s, run[0]), run[1..]))
  }

  // ---------------------------------------------------------------------------
  // Safety
  // ---------------------------------------------------------------------------

  ghost predicate AtMostOneWorker(s: State) {
    forall p, q :: p in s.live && q in s.live ==> p == q
  }

  /** Every live worker is the one the pid file names. */
  ghost predicate PidfileNamesWorker(s: State) {
    forall p :: p in s.live ==> s.pidfile == Some(p)
  }

  /** What the script inside the critical section knows about the workers. */
  ghost predicate Knows(s: State, pc: Pc) {
    match pc
    case LaunchReadPid => PidfileNamesWorker(s)
    case LaunchTestGroup(p) => s.pidfile == Some(p) && s.live <= {p}
    case LaunchTestExit(p) => s.pidfile == Some(p) && s.live <= {p}
    case LaunchKill(p) => s.pidfile == Some(p) && s.live <= {p} && s.exitfile
    case LaunchRmPid => s.live == {}
    case LaunchRmExit => s.live == {} && s.pidfile.None?
    case LaunchFork => s.live == {} && s.pidfile.None?
    case LaunchWrite(p) => s.live <= {p} && s.pidfile.None?
    case StopReadPid => PidfileNamesWorker(s)
    case StopTerm(p) => s.pidfile == Some(p) && s.live <= {p}
    case StopKill(p) => s.pidfile == Some(p) && s.live <= {p}
    case StopConfirm(p) => s.pidfile == Some(p) && s.live <= {p}
    case StopRmPid => s.live == {}
    case StopRmExit => s.live == {} && s.pidfile.None?
    case _ => true
  }

  ghost predicate Inv(s: State) {
    && (forall id :: id in s.scripts ==> (Inside(s.scripts[id]) <==> s.lock == Some(id)))
    && (s.lock.Some? ==> s.lock.value in s.scripts && Knows(s, s.scripts[s.lock.value]))
    && (s.lock.None? ==> PidfileNamesWorker(s))
  }

  /** The script that holds the lock moves on, after changing files or workers only. */
  lemma MoveKeepsInv(s: State, t: State, id: Script, pc: Pc)
    requires Inv(s) && s.lock == Some(id)
    requires t.scripts == s.scripts && t.lock == s.lock && !Locking(pc)
    requires if pc.Ended? then PidfileNamesWorker(t) else Knows(t, pc)
    ensures Inv(Goto(t, id, pc))
  {
    var u := Goto(t, id, pc);
    assert Knows(u, pc) <==> Knows(t, pc);
    forall i | i in u.scripts
      ensures Inside(u.scripts[i]) <==> u.lock == Some(i)
    {
      assert i != id ==> u.scripts[i] == s.scripts[i];
    }
  }

  lemma LaunchKeepsInv(s: State, id: Script, killed: bool)
    requires Inv(s) && s.lock == Some(id) && Launching(s.scripts[id])
    requires s.scripts[id].LaunchKill? ==> killed || s.scripts[id].pid !in s.live
    ensures Inv(Command(s, id, killed))
  {
    var pc := s.scripts[id];
    assert Inside(pc) && Knows(s, pc);
    match pc
    case LaunchReadPid =>
      MoveKeepsInv(s, s, id, if s.pidfile.Some? then LaunchTestGroup(s.pidfile.value) else LaunchRmPid);
    case LaunchTestGroup(p) => MoveKeepsInv(s, s, id, if p in s.live then LaunchTestExit(p) else LaunchRmPid);
    case LaunchTestExit(p) => MoveKeepsInv(s, s, id, if s.exitfile then LaunchKill(p) else Ended(AlreadyRunning(p)));
    case LaunchKill(p) => MoveKeepsInv(s, if killed then s.(live := s.live - {p}) else s, id, LaunchRmPid);
    case LaunchRmPid => MoveKeepsInv(s, s.(pidfile := None), id, LaunchRmExit);
    case LaunchRmExit => MoveKeepsInv(s, s.(exitfile := false), id, LaunchFork);
    case LaunchFork =>
      MoveKeepsInv(s, s.(live := s.live + {s.nextPid}, nextPid := s.nextPid + 1), id, LaunchWrite(s.nextPid));
    case LaunchWrite(p) => MoveKeepsInv(s, s.(pidfile := Some(p)), id, Ended(Launched(p)));
  }

  predicate Launching(pc: Pc) {
    || pc.LaunchReadPid? || pc.LaunchTestGroup? || pc.LaunchTestExit? || pc.LaunchKill?
    || pc.LaunchRmPid? || pc.LaunchRmExit? || pc.LaunchFork? || pc.LaunchWrite?
  }

  lemma CommandKeepsInv(s: State, id: Script, killed: bool)
    requires Inv(s) && s.lock == Some(id)
    requires s.scripts[id].LaunchKill? ==> killed || s.scripts[id].pid !in s.live
    ensures Inv(Command(s, id, killed))
  {
    var pc := s.scripts[id];
    assert Inside(pc) && Knows(s, pc);
    if Launching(pc) {
      LaunchKeepsInv(s, id, killed);
    } else {
      match pc
      case StopReadPid => MoveKeepsInv(s, s, id, if s.pidfile.Some? then StopTerm(s.pidfile.value) else StopRmPid);
      case StopTerm(p) => MoveKeepsInv(s, s, id, if p in s.live then StopKill(p) else StopConfirm(p));
      case StopKill(p) =>
        MoveKeepsInv(s, if killed then s.(live := s.live - {p}) else s, id, StopConfirm(p));
      case StopConfirm(p) => MoveKeepsInv(s, s, id, if p in s.live then Ended(StillAlive) else StopRmPid);
      case StopRmPid => MoveKeepsInv(s, s.(pidfile := None), id, StopRmExit);
      case StopRmExit => MoveKeepsInv(s, s.(exitfile := false), id, Ended(Stopped));
    }
  }

  lemma StepKeepsInv(s: State, a: Action)
    requires Inv(s) && Benign(s, a)
    ensures Inv(Apply(s, a))
  {
    if a.Advance? && a.id in s.scripts && Inside(s.scripts[a.id]) {
      CommandKeepsInv(s, a.id, a.killed);
    }
  }

  lemma {:induction false} RunKeepsInv(s: State, run: seq<Action>)
    requires Inv(s) && BenignRun(s, run)
    ensures Inv(Run(s, run))
    decreases |run|
  {
    if run != [] {
      StepKeepsInv(s, run[0]);
      RunKeepsInv(Apply(s, run[0]), run[1..]);
    }
  }

  lemma InvMeansOneWorker(s: State)
    requires Inv(s)
    ensures AtMostOneWorker(s)
    ensures s.lock.None? ==> PidfileNamesWorker(s)
  {
    if s.lock.Some? {
      assert Knows(s, s.scripts[s.lock.value]);
    }
  }

  /** Never two live workers in one sandbox, in any interleaving of any number of
      launches, stops, worker exits and crashes; and whenever no script holds the
      lock the pid file names the live worker.  Scripts may even die, except in the
      one window named above. */
  lemma NeverTwoWorkers(run: seq<Action>)
    requires BenignRun(INIT, run)
    ensures AtMostOneWorker(Run(INIT, run))
    ensures Run(INIT, run).lock.None? ==> PidfileNamesWorker(Run(INIT, run))
  {
    RunKeepsInv(INIT, run);
    InvMeansOneWorker(Run(INIT, run));
  }

  // ---------------------------------------------------------------------------
  // What the callers may conclude
  // ---------------------------------------------------------------------------

  /** stop.sh exits 0 only with no worker left, which is what lets its caller
      hand a claim back. */
  lemma StoppedMeansNoWorker(run: seq<Action>, a: Action, id: Script)
    requires BenignRun(INIT, run)
    requires var s := Run(INIT, run);
             id in s.scripts && s.scripts[id] != Ended(Stopped) && id in Apply(s, a).scripts
             && Apply(s, a).scripts[id] == Ended(Stopped)
    ensures Apply(Run(INIT, run), a).live == {}
  {
    RunKeepsInv(INIT, run);
    LastCommandOfStop(Run(INIT, run), a, id);
  }

  lemma LastCommandOfStop(s: State, a: Action, id: Script)
    requires Inv(s) && id in s.scripts && s.scripts[id] != Ended(Stopped) && id in Apply(s, a).scripts
    requires Apply(s, a).scripts[id] == Ended(Stopped)
    ensures Apply(s, a).live == {}
  {
    OnlyStopStops(s, a, id);
    assert Inside(s.scripts[id]) && s.lock == Some(id);
  }

  lemma OnlyStopStops(s: State, a: Action, id: Script)
    requires id in s.scripts && s.scripts[id] != Ended(Stopped) && id in Apply(s, a).scripts
    requires Apply(s, a).scripts[id] == Ended(Stopped)
    ensures a.Advance? && a.id == id && s.scripts[id].StopRmExit?
  {
  }

  // ---------------------------------------------------------------------------
  // What the scripts do
  // ---------------------------------------------------------------------------

  /** launch.sh never ends a worker that has not recorded its exit: what it kills is left
      behind by one that has. */
  lemma LaunchSparesWorkers(run: seq<Action>, id: Script, killed: bool, p: Pid)
    requires BenignRun(INIT, run)
    requires var s := Run(INIT, run); id in s.scripts && Launching(s.scripts[id]) && p in s.live
    requires p !in Apply(Run(INIT, run), Advance(id, killed)).live
    ensures Run(INIT, run).exitfile
  {
    RunKeepsInv(INIT, run);
    var s := Run(INIT, run);
    assert Inside(s.scripts[id]) && Knows(s, s.scripts[id]);
  }

  /** That many commands of one script, with nothing in between. */
  function Alone(s: State, id: Script, n: nat): State
    decreases n
  {
    if n == 0 then s else Alone(Apply(s, Advance(id, true)), id, n - 1)
  }

  lemma {:induction false} AloneAfter(s: State, id: Script, m: nat, n: nat)
    ensures Alone(s, id, m + n) == Alone(Alone(s, id, m), id, n)
    decreases m
  {
    if m > 0 { AloneAfter(Apply(s, Advance(id, true)), id, m - 1, n); }
  }

  lemma {:induction false} EndedStays(s: State, id: Script, n: nat)
    requires id in s.scripts && s.scripts[id].Ended?
    ensures Alone(s, id, n) == s
  {
    if n > 0 { EndedStays(s, id, n - 1); }
  }

  /** Four commands from the removal of the pid file to the end. */
  lemma StartsOne(s: State, id: Script)
    requires id in s.scripts && s.scripts[id] == LaunchRmPid && s.lock == Some(id) && s.live == {}
    ensures var t := Alone(s, id, 4);
            && id in t.scripts && t.scripts[id] == Ended(Launched(s.nextPid)) && t.lock.None?
            && t.live == {s.nextPid} && t.pidfile == Some(s.nextPid) && !t.exitfile
  {
    var go := Advance(id, true);
    var t1 := Apply(s, go);
    var t2 := Apply(t1, go);
    var t3 := Apply(t2, go);
    var t4 := Apply(t3, go);
    assert t3.scripts[id] == LaunchWrite(s.nextPid) && t3.live == {s.nextPid};
    assert Alone(t4, id, 0) == t4;
    assert Alone(t3, id, 1) == t4;
    assert Alone(t2, id, 2) == t4;
    assert Alone(t1, id, 3) == t4;
  }

  /** launch.sh as far as its look at the pid file. */
  function Begun(s: State, id: Script): State { Alone(Apply(s, BeginLaunch(id)), id, 2) }

  lemma BeginsToLook(s: State, id: Script)
    requires s.lock.None? && id !in s.scripts
    ensures Begun(s, id) == s.(lock := Some(id),
              scripts := s.scripts[id := if s.pidfile.Some? then LaunchTestGroup(s.pidfile.value) else LaunchRmPid])
  {
    var go := Advance(id, true);
    var t0 := Apply(s, BeginLaunch(id));
    var t1 := Apply(t0, go);
    var t2 := Apply(t1, go);
    assert Alone(t1, id, 1) == Alone(t2, id, 0) == t2;
    assert t2.scripts == s.scripts[id := if s.pidfile.Some? then LaunchTestGroup(s.pidfile.value) else LaunchRmPid];
  }

  /** A launch that is not interrupted, in any sandbox the scripts can leave: a worker that
      runs is left alone and reported; otherwise exactly one new worker is started, and the
      pid file names it. */
  lemma LaunchAlone(run: seq<Action>, id: Script)
    requires BenignRun(INIT, run) && Run(INIT, run).lock.None? && id !in Run(INIT, run).scripts
    ensures var s := Run(INIT, run);
            var t := Alone(Apply(s, BeginLaunch(id)), id, 9);
            && id in t.scripts && t.lock.None?
            && (if s.live != {} && !s.exitfile then
                  && (exists p :: s.live == {p} && t.scripts[id] == Ended(AlreadyRunning(p)))
                  && t.live == s.live && t.pidfile == s.pidfile && !t.exitfile
                else
                  && t.scripts[id] == Ended(Launched(s.nextPid))
                  && t.live == {s.nextPid} && t.pidfile == Some(s.nextPid) && !t.exitfile)
  {
    var s := Run(INIT, run);
    RunKeepsInv(INIT, run);
    BeginsToLook(s, id);
    var t0 := Apply(s, BeginLaunch(id));
    var t := Begun(s, id);
    AloneAfter(t0, id, 2, 7);
    if s.pidfile.None? {
      NewWorker(t, id, 7);
    } else {
      TestsGroup(t, id, s.pidfile.value);
    }
  }

  lemma NewWorker(s: State, id: Script, n: nat)
    requires id in s.scripts && s.scripts[id] == LaunchRmPid && s.lock == Some(id) && s.live == {} && n >= 4
    ensures var t := Alone(s, id, n);
            && id in t.scripts && t.scripts[id] == Ended(Launched(s.nextPid)) && t.lock.None?
            && t.live == {s.nextPid} && t.pidfile == Some(s.nextPid) && !t.exitfile
  {
    StartsOne(s, id);
    AloneAfter(s, id, 4, n - 4);
    EndedStays(Alone(s, id, 4), id, n - 4);
  }

  lemma TestsGroup(s: State, id: Script, p: Pid)
    requires id in s.scripts && s.scripts[id] == LaunchTestGroup(p) && s.lock == Some(id)
    requires s.pidfile == Some(p) && s.live <= {p}
    ensures var t := Alone(s, id, 7);
            && id in t.scripts && t.lock.None?
            && (if s.live != {} && !s.exitfile then
                  && t.scripts[id] == Ended(AlreadyRunning(p)) && s.live == {p}
                  && t.live == s.live && t.pidfile == s.pidfile && !t.exitfile
                else
                  && t.scripts[id] == Ended(Launched(s.nextPid))
                  && t.live == {s.nextPid} && t.pidfile == Some(s.nextPid) && !t.exitfile)
  {
    var go := Advance(id, true);
    var t1 := Apply(s, go);
    AloneAfter(s, id, 1, 6);
    assert Alone(s, id, 1) == Alone(t1, id, 0) == t1;
    if p !in s.live {
      NewWorker(t1, id, 6);
    } else {
      var t2 := Apply(t1, go);
      AloneAfter(t1, id, 1, 5);
      assert Alone(t1, id, 1) == Alone(t2, id, 0) == t2;
      if !s.exitfile {
        EndedStays(t2, id, 5);
      } else {
        var t3 := Apply(t2, go);
        AloneAfter(t2, id, 1, 4);
        assert Alone(t2, id, 1) == Alone(t3, id, 0) == t3;
        NewWorker(t3, id, 4);
      }
    }
  }

  /** A stop that is not interrupted, and whose SIGKILL takes effect, leaves no worker, no
      pid file and no exit file. */
  lemma StopAlone(run: seq<Action>, id: Script)
    requires BenignRun(INIT, run) && Run(INIT, run).lock.None? && id !in Run(INIT, run).scripts
    ensures var t := Alone(Apply(Run(INIT, run), BeginStop(id)), id, 7);
            && id in t.scripts && t.scripts[id] == Ended(Stopped) && t.lock.None?
            && t.live == {} && t.pidfile.None? && !t.exitfile
  {
    var s := Run(INIT, run);
    RunKeepsInv(INIT, run);
    var go := Advance(id, true);
    var t0 := Apply(s, BeginStop(id));
    var t1 := Apply(t0, go);
    var t2 := Apply(t1, go);
    AloneAfter(t0, id, 2, 5);
    assert Alone(t1, id, 1) == Alone(t2, id, 0) == t2;
    if s.pidfile.None? {
      StopCleans(t2, id, 5);
    } else {
      StopsGroup(t2, id, s.pidfile.value);
    }
  }

  lemma StopCleans(s: State, id: Script, n: nat)
    requires id in s.scripts && s.scripts[id] == StopRmPid && s.lock == Some(id) && s.live == {} && n >= 2
    ensures var t := Alone(s, id, n);
            && id in t.scripts && t.scripts[id] == Ended(Stopped) && t.lock.None?
            && t.live == {} && t.pidfile.None? && !t.exitfile
  {
    var go := Advance(id, true);
    var t1 := Apply(s, go);
    var t2 := Apply(t1, go);
    AloneAfter(s, id, 2, n - 2);
    assert Alone(t1, id, 1) == Alone(t2, id, 0) == t2;
    EndedStays(t2, id, n - 2);
  }

  lemma StopsGroup(s: State, id: Script, p: Pid)
    requires id in s.scripts && s.scripts[id] == StopTerm(p) && s.lock == Some(id)
    requires s.pidfile == Some(p) && s.live <= {p}
    ensures var t := Alone(s, id, 5);
            && id in t.scripts && t.scripts[id] == Ended(Stopped) && t.lock.None?
            && t.live == {} && t.pidfile.None? && !t.exitfile
  {
    var go := Advance(id, true);
    var t1 := Apply(s, go);
    var t2 := Apply(t1, go);
    AloneAfter(s, id, 2, 3);
    assert Alone(t1, id, 1) == Alone(t2, id, 0) == t2;
    if p in s.live {
      var t3 := Apply(t2, go);
      AloneAfter(t2, id, 1, 2);
      assert Alone(t2, id, 1) == Alone(t3, id, 0) == t3;
      StopCleans(t3, id, 2);
    } else {
      StopCleans(t2, id, 3);
    }
  }

  datatype ProbeState = Exited | NoPidfile | Running(pid: Pid) | Dead(pid: Pid)

  /** probe.sh, which does not take the lock. */
  function Probe(s: State): ProbeState {
    if s.exitfile then Exited
    else if s.pidfile.None? then NoPidfile
    else if s.pidfile.value in s.live then Running(s.pidfile.value) else Dead(s.pidfile.value)
  }

  /** The probe reports exactly the live worker, if there is one. */
  ghost predicate ProbeIsRight(s: State) { forall p :: Probe(s) == Running(p) <==> p in s.live }

  /** The holder of the lock has forked a worker and not yet written its pid. */
  predicate BeforePidWrite(s: State) {
    && s.lock.Some? && s.lock.value in s.scripts
    && s.scripts[s.lock.value].LaunchWrite? && s.scripts[s.lock.value].pid in s.live
  }

  /** A live worker behind a recorded exit, or one whose pid is not written yet. */
  predicate MissesWorker(s: State) { if s.exitfile then s.live != {} else BeforePidWrite(s) }

  /** Exactly when the probe, which takes no lock, is right: between a fork and its pid write
      it misses the live worker, behind a recorded exit it misses what the worker left alive,
      and at every other time it is right, whoever holds the lock. */
  lemma ProbeIsRightIff(run: seq<Action>)
    requires BenignRun(INIT, run)
    ensures var s := Run(INIT, run);
            ProbeIsRight(s) <==> !MissesWorker(s)
  {
    RunKeepsInv(INIT, run);
    var s := Run(INIT, run);
    InvMeansOneWorker(s);
    if !s.exitfile && BeforePidWrite(s) {
      assert Probe(s) != Running(s.scripts[s.lock.value].pid);
    }
    if !s.exitfile && !BeforePidWrite(s) && s.live != {} {
      LiveIsRecorded(s);
    }
  }

  lemma LiveIsRecorded(s: State)
    requires Inv(s) && !BeforePidWrite(s)
    ensures forall p :: p in s.live ==> s.pidfile == Some(p)
  {
  }

  // ---------------------------------------------------------------------------
  // Runs to a given point
  // ---------------------------------------------------------------------------

  /** One more action at the end of a run. */
  lemma {:induction false} RunSnoc(s: State, run: seq<Action>, a: Action)
    ensures Run(s, run + [a]) == Apply(Run(s, run), a)
    ensures BenignRun(s, run + [a]) <==> BenignRun(s, run) && Benign(Run(s, run), a)
    decreases |run|
  {
    if run == [] {
      assert run + [a] == [a] && [a][1..] == [];
    } else {
      assert (run + [a])[1..] == run[1..] + [a];
      RunSnoc(Apply(s, run[0]), run[1..], a);
    }
  }

  lemma Then(s: State, run: seq<Action>, a: Action) returns (longer: seq<Action>)
    ensures longer == run + [a]
    ensures Run(s, longer) == Apply(Run(s, run), a)
    ensures BenignRun(s, longer) <==> BenignRun(s, run) && Benign(Run(s, run), a)
  {
    longer := run + [a];
    RunSnoc(s, run, a);
  }

  /** launch.sh as far as the fork, in a sandbox without a pid file. */
  function AfterFork(s: State, id: Script): State {
    s.(scripts := s.scripts[id := LaunchWrite(s.nextPid)], lock := Some(id), exitfile := false,
       live := s.live + {s.nextPid}, nextPid := s.nextPid + 1)
  }

  lemma LaunchUpToFork(s: State, id: Script) returns (run: seq<Action>)
    requires s.lock.None? && s.pidfile.None? && id !in s.scripts
    ensures BenignRun(s, run) && Run(s, run) == AfterFork(s, id)
  {
    run := LaunchLocks(s, id);
    var go := Advance(id, true);
    run := Then(s, run, go);
    run := Then(s, run, go);
    run := Then(s, run, go);
  }

  /** It takes the lock and finds no pid file. */
  lemma LaunchLocks(s: State, id: Script) returns (run: seq<Action>)
    requires s.lock.None? && s.pidfile.None? && id !in s.scripts
    ensures BenignRun(s, run)
    ensures Run(s, run) == s.(scripts := s.scripts[id := LaunchRmPid], lock := Some(id))
  {
    var go := Advance(id, true);
    run := Then(s, [], BeginLaunch(id));
    run := Then(s, run, go);
    run := Then(s, run, go);
    assert Run(s, run).scripts == s.scripts[id := LaunchRmPid];
  }

  /** The probe takes no lock, so it can meet a launch between its fork and its pid
      write: the worker is live and the probe reports that none was started. */
  lemma ProbeCanMissLiveWorker()
    ensures exists run :: BenignRun(INIT, run) && Probe(Run(INIT, run)) == NoPidfile && 0 in Run(INIT, run).live
  {
    var run := LaunchUpToFork(INIT, 0);
  }

  // ---------------------------------------------------------------------------
  // The assumptions are exact
  // ---------------------------------------------------------------------------

  /** Pids are given out in order. */
  predicate PidsGivenOut(s: State) { forall p :: p in s.live ==> p < s.nextPid }

  lemma {:induction false} RunGivesOutPids(s: State, run: seq<Action>)
    requires PidsGivenOut(s)
    ensures PidsGivenOut(Run(s, run))
    decreases |run|
  {
    if run != [] { RunGivesOutPids(Apply(s, run[0]), run[1..]); }
  }

  lemma UnusedScript(ids: set<Script>) returns (unused: Script)
    ensures forall id :: id in ids ==> id < unused
    decreases ids
  {
    unused := 0;
    if ids != {} {
      var id :| id in ids;
      var n := UnusedScript(ids - {id});
      unused := if id < n then n else id + 1;
      assert forall i :: i in ids ==> i == id || i in ids - {id};
    }
  }

  /** The next launch finds no pid file and starts a second worker. */
  lemma LaunchAgain(s: State, p: Pid) returns (rest: seq<Action>)
    requires s.lock.None? && s.pidfile.None? && p in s.live && PidsGivenOut(s)
    ensures BenignRun(s, rest) && !AtMostOneWorker(Run(s, rest))
  {
    var id := UnusedScript(s.scripts.Keys);
    rest := LaunchUpToFork(s, id);
    var t := AfterFork(s, id);
    assert p in t.live && s.nextPid in t.live && p != s.nextPid;
  }

  /** The launch goes on and starts its own worker beside the one it failed to kill. */
  lemma LaunchGoesOn(s: State, id: Script, p: Pid) returns (rest: seq<Action>)
    requires id in s.scripts && s.scripts[id] == LaunchRmPid && p in s.live && PidsGivenOut(s)
    ensures BenignRun(s, rest) && !AtMostOneWorker(Run(s, rest))
  {
    var go := Advance(id, true);
    rest := Then(s, [], go);
    rest := Then(s, rest, go);
    rest := Then(s, rest, go);
    var t := Run(s, rest);
    assert p in t.live && s.nextPid in t.live && p != s.nextPid;
  }

  /** Behind any run within the assumptions, the next action opens the way to two live
      workers, by actions within the assumptions again, if and only if it breaks them. */
  lemma TwoWorkersIff(run: seq<Action>, a: Action)
    requires BenignRun(INIT, run)
    ensures var s := Run(INIT, run);
            (exists rest :: LeadsToTwo(Apply(s, a), rest)) <==> !Benign(s, a)
  {
    var s := Run(INIT, run);
    RunKeepsInv(INIT, run);
    RunGivesOutPids(INIT, run);
    if Benign(s, a) {
      StepKeepsInv(s, a);
      forall rest | BenignRun(Apply(s, a), rest) ensures AtMostOneWorker(Run(Apply(s, a), rest)) {
        RunKeepsInv(Apply(s, a), rest);
        InvMeansOneWorker(Run(Apply(s, a), rest));
      }
    } else {
      BrokenLeadsToTwo(s, a);
    }
  }

  ghost predicate LeadsToTwo(s: State, rest: seq<Action>) { BenignRun(s, rest) && !AtMostOneWorker(Run(s, rest)) }

  lemma BrokenLeadsToTwo(s: State, a: Action)
    requires Inv(s) && PidsGivenOut(s) && !Benign(s, a)
    ensures exists rest :: LeadsToTwo(Apply(s, a), rest)
  {
    var pc := s.scripts[a.id];
    var rest;
    assert s.lock == Some(a.id) && Knows(s, pc);
    if a.Crash? {
      rest := LaunchAgain(Apply(s, a), pc.pid);
    } else {
      rest := LaunchGoesOn(Apply(s, a), a.id, pc.pid);
    }
    assert LeadsToTwo(Apply(s, a), rest);
  }

  /** A launch that dies in that window leaves a worker no pid file names, and the
      next launch starts a second one. */
  lemma CrashBeforePidWriteBreaksIt()
    ensures exists run, a, rest ::
              && BenignRun(INIT, run) && DiesBeforePidWrite(Run(INIT, run), a)
              && LeadsToTwo(Apply(Run(INIT, run), a), rest)
  {
    var run := LaunchUpToFork(INIT, 0);
    assert DiesBeforePidWrite(AfterFork(INIT, 0), Crash(0));
    TwoWorkersIff(run, Crash(0));
  }

  /** The worker of launch 0 has recorded its exit, a process it left behind is live. */
  const LEFT_BEHIND := State(map[0 := Ended(Launched(0))], None, Some(0), true, {0}, 1)

  /** Launch 1 is about to kill what launch 0 left behind. */
  const ABOUT_TO_KILL := State(map[0 := Ended(Launched(0)), 1 := LaunchKill(0)], Some(1), Some(0), true, {0}, 1)

  lemma ReachLeftBehind() returns (run: seq<Action>)
    ensures BenignRun(INIT, run) && Run(INIT, run) == LEFT_BEHIND
  {
    run := LaunchUpToFork(INIT, 0);
    run := Then(INIT, run, Advance(0, true));
    run := Then(INIT, run, WorkerWritesExit(0));
  }

  lemma ReachAboutToKill() returns (run: seq<Action>)
    ensures BenignRun(INIT, run) && Run(INIT, run) == ABOUT_TO_KILL
  {
    run := ReachLeftBehind();
    run := Then(INIT, run, BeginLaunch(1));
    run := Then(INIT, run, Advance(1, true));
    run := Then(INIT, run, Advance(1, true));
    run := Then(INIT, run, Advance(1, true));
    run := Then(INIT, run, Advance(1, true));
  }

  /** A SIGKILL of launch.sh that takes longer than its sleep does the same. */
  lemma SlowKillBreaksIt()
    ensures exists run, a, rest ::
              BenignRun(INIT, run) && KillTooSlow(Run(INIT, run), a) && LeadsToTwo(Apply(Run(INIT, run), a), rest)
  {
    var run := ReachAboutToKill();
    assert KillTooSlow(ABOUT_TO_KILL, Advance(1, false));
    TwoWorkersIff(run, Advance(1, false));
  }
}
