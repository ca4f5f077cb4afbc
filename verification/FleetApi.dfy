/**
 The calls the spawn hook and the monitor make, with a log of every call and its
 answer.  Answers are arbitrary: any call may fail at any time and a listing may
 show anything, so what is proved about the log holds for every combination of
 answers.
 */
module FleetApi {
  import opened Options
  import opened Markers

  type Id = nat
  type WorkerId = string
  type RequestId = string

  datatype Status = Starting | Active | Pausing | Paused | Resuming | Failed | Deleted

  /** LIVE_STATUSES */
  predicate Live(s: Status) { !s.Failed? && !s.Deleted? }

  datatype Info = Info(
    id: Id,
    status: Status,
    worker: Option<WorkerId>,    // META_WORKER_ID
    request: Option<RequestId>,  // META_REQUEST_ID
    launching: Marker,           // META_LAUNCHING
    recycling: Marker,           // META_RECYCLING
    createdAt: int)

  datatype WorkerState = Running | Exited(code: int) | Dead | NoPidfile | NoSupervisor | Unknown

  /** STOPPED_STATES: the probe confirms that no worker is running. */
  predicate StoppedState(s: WorkerState) { s.Exited? || s.Dead? || s.NoPidfile? }

  /** TERMINAL_STATES of the monitor. */
  predicate TerminalState(s: WorkerState) { StoppedState(s) || s.NoSupervisor? }

  datatype Activation = Up(info: Info) | Conflict | Broken

  /** What a metadata write changes. */
  datatype Write = Relaunch(stamp: nat) | ClearRelaunch | Recycling | ClearRecycling | ForgetRequest

  datatype LaunchResult = Started | NotRunning | Raised

  datatype Event =
    | Listed(worker: WorkerId, infos: Option<seq<Info>>)   // Sandbox.list by worker id; None when it fails
    | Tagged(id: Id, write: Write, ok: bool)               // a metadata write
    | Superseded(id: Id, ok: bool)                         // the retag that hides a sandbox from listings
    | Connected(id: Id, answer: Activation)
    | ResumeRan(id: Id, answer: Activation)
    | Created(info: Option<Info>)
    | InfoRead(id: Id, found: Option<Info>)
    | Probed(id: Id, state: WorkerState)
    | StopRan(id: Id, ok: bool)
    | LaunchRan(id: Id, result: LaunchResult)
    | PauseRan(id: Id, ok: bool)
    | Killed(id: Id, ok: bool)
    | ClaimLookedUp(worker: WorkerId, ok: bool, claim: Option<RequestId>)
    | Released(request: RequestId, ok: bool)               // a release was attempted
    | ClockRead(ms: nat)

  type Log = seq<Event>

  // ---------------------------------------------------------------------------
  // Evidence
  // ---------------------------------------------------------------------------

  ghost predicate ShownIn(infos: seq<Info>, id: Id) { exists i :: i in infos && i.id == id && !i.status.Deleted? }

  /** No live sandbox other than the excluded one. */
  ghost predicate NoOther(infos: seq<Info>, exclude: Option<Id>) {
    forall i :: i in infos && Live(i.status) ==> exclude == Some(i.id)
  }

  /** From that call on: the delete of the sandbox succeeded. */
  ghost predicate KillDone(log: Log, from: nat, id: Id) {
    exists i :: from <= i < |log| && log[i] == Killed(id, true)
  }

  /** From that call on: stop.sh succeeded and a later probe found no worker. */
  ghost predicate StopConfirmed(log: Log, from: nat, id: Id) {
    exists i, j :: from <= i < j < |log| && log[i] == StopRan(id, true) && FoundStopped(log[j], id)
  }

  ghost predicate FoundStopped(e: Event, id: Id) { e.Probed? && e.id == id && StoppedState(e.state) }

  /** From that call on: a listing by the worker id succeeded and did not show the sandbox. */
  ghost predicate Vanished(log: Log, from: nat, worker: WorkerId, id: Id) {
    exists i :: from <= i < |log| && ListedWithout(log[i], worker, id)
  }

  ghost predicate ListedWithout(e: Event, worker: WorkerId, id: Id) {
    e.Listed? && e.worker == worker && e.infos.Some? && !ShownIn(e.infos.value, id)
  }

  /** From that call on, the sandbox was deleted, its worker was stopped for certain, or
      a listing under its own worker id no longer showed it. */
  ghost predicate TornDown(log: Log, from: nat, s: Info) {
    || KillDone(log, from, s.id)
    || StopConfirmed(log, from, s.id)
    || (s.worker.Some? && Vanished(log, from, s.worker.value, s.id))
  }

  /** The last call was a listing without a live sandbox other than the excluded one. */
  ghost predicate NoReplacement(log: Log, worker: WorkerId, exclude: Option<Id>) {
    && log != [] && log[|log| - 1].Listed? && log[|log| - 1].worker == worker
    && log[|log| - 1].infos.Some? && NoOther(log[|log| - 1].infos.value, exclude)
  }

  /** That call put the sandbox into the hook's hands. */
  ghost predicate HandledAt(log: Log, at: nat, s: Info) {
    at < |log| && (log[at] == Connected(s.id, Up(s)) || log[at] == Created(Some(s)))
  }

  ghost predicate NothingHandled(log: Log) {
    forall e :: e in log ==> !(e.Connected? && e.answer.Up?) && !(e.Created? && e.info.Some?) && !e.LaunchRan?
  }

  function FirstLive(infos: seq<Info>): (r: Option<Info>)
    ensures r.None? <==> NoOther(infos, None)
    ensures r.Some? ==> r.value in infos && Live(r.value.status)
  {
    if infos == [] then None
    else if Live(infos[0].status) then Some(infos[0])
    else
      var rest := FirstLive(infos[1..]);
      assert infos == [infos[0]] + infos[1..];
      rest
  }

  /** find_sandbox_for_worker: nothing in front of it in the listing is live. */
  lemma {:induction false} FirstLiveIsFirst(infos: seq<Info>)
    requires FirstLive(infos).Some?
    ensures exists i :: 0 <= i < |infos| && infos[i] == FirstLive(infos).value && NoOther(infos[..i], None)
  {
    if Live(infos[0].status) {
      assert infos[0] == FirstLive(infos).value && NoOther(infos[..0], None);
    } else {
      FirstLiveIsFirst(infos[1..]);
      var i :| 0 <= i < |infos| - 1 && infos[1..][i] == FirstLive(infos).value && NoOther(infos[1..][..i], None);
      assert infos[..i + 1] == [infos[0]] + infos[1..][..i];
      assert infos[i + 1] == FirstLive(infos).value && NoOther(infos[..i + 1], None);
    }
  }

  function WithId(infos: seq<Info>, id: Id): (r: Option<Info>)
    ensures r.Some? ==> r.value in infos && r.value.id == id
    ensures r.None? ==> forall i :: i in infos ==> i.id != id
  {
    if infos == [] then None
    else if infos[0].id == id then Some(infos[0])
    else
      var rest := WithId(infos[1..], id);
      assert infos == [infos[0]] + infos[1..];
      rest
  }

  /** The sandbox the hook found first: a successful listing showed it as live. */
  ghost predicate Sighted(log: Log, worker: WorkerId, id: Id) {
    && log != [] && log[0].Listed? && log[0].worker == worker && log[0].infos.Some?
    && FirstLive(log[0].infos.value).Some? && FirstLive(log[0].infos.value).value.id == id
  }

  /** No sandbox can be serving the worker id: none was listed, or the one that was
      has disappeared from the listing or was retagged. */
  ghost predicate AbsenceConfirmed(log: Log, worker: WorkerId) {
    || (log != [] && log[0].Listed? && log[0].worker == worker && log[0].infos.Some?
        && NoOther(log[0].infos.value, None))
    || (exists id :: Sighted(log, worker, id) && (Superseded(id, true) in log || Vanished(log, 1, worker, id)))
  }

  ghost predicate NoLaunch(log: Log, from: nat) {
    forall i :: from <= i < |log| ==> !log[i].LaunchRan?
  }

  /** Since that call nothing was launched, and the sandbox, handled before it, was torn down,
      or carries no worker id. */
  ghost predicate QuietSince(log: Log, from: nat, s: Info) {
    && NoLaunch(log, from)
    && (exists at: nat :: at <= from && HandledAt(log, at, s))
    && (TornDown(log, from, s) || s.worker.None?)
  }

  /** What entitles the spawn hook to hand the claim of its worker back: nothing was ever
      handled and no other sandbox can be serving the worker id; or what it handled is quiet
      since its last launch; and in both cases no replacement is listed. */
  ghost predicate MayRelease(log: Log, worker: WorkerId) {
    || (NothingHandled(log) && AbsenceConfirmed(log, worker) && NoReplacement(log, worker, None))
    || (exists s, from: nat :: QuietSince(log, from, s) && NoReplacement(log, worker, Some(s.id)))
  }

  /** Every release in the log was entitled by the calls before it. */
  ghost predicate SpawnSafe(log: Log, worker: WorkerId) {
    forall n :: 0 <= n < |log| ==> SpawnStepSafe(log, n, worker)
  }

  ghost predicate SpawnStepSafe(log: Log, n: nat, worker: WorkerId)
    requires n < |log|
  {
    log[n].Released? ==> MayRelease(log[..n], worker)
  }

  lemma KeepSpawnSafe(log: Log, e: Event, worker: WorkerId)
    requires SpawnSafe(log, worker)
    requires e.Released? ==> MayRelease(log, worker)
    ensures SpawnSafe(log + [e], worker)
  {
    forall n | 0 <= n < |log| + 1
      ensures SpawnStepSafe(log + [e], n, worker)
    {
      assert (log + [e])[..n] == log[..n];
      assert n < |log| ==> SpawnStepSafe(log, n, worker);
      assert log[..|log|] == log;
    }
  }

  // ---------------------------------------------------------------------------
  // What must follow a call
  // ---------------------------------------------------------------------------

  ghost predicate NoRelease(log: Log, from: nat) {
    forall i :: from <= i < |log| ==> !log[i].Released?
  }

  /** This request is released at most once, and no other one ever. */
  ghost predicate OneRelease(log: Log, request: Option<RequestId>) {
    && (forall i :: 0 <= i < |log| && log[i].Released? ==> request == Some(log[i].request))
    && (forall i, j :: 0 <= i < j < |log| ==> !(log[i].Released? && log[j].Released?))
  }

  /** One read, and a write only of the marker this attempt stored. */
  ghost predicate ClearTail(tail: Log, id: Id, stamp: nat) {
    && tail != [] && tail[0].InfoRead? && tail[0].id == id
    && (if tail[0].found.Some? && tail[0].found.value.launching == Some(stamp)
        then |tail| == 2 && tail[1].Tagged? && tail[1].id == id && tail[1].write == ClearRelaunch
        else |tail| == 1)
  }

  /** Nothing more, or the release of this request, as told. */
  ghost predicate ReleasedIff(tail: Log, request: RequestId, yes: bool) {
    if yes then |tail| == 1 && tail[0].Released? && tail[0].request == request else tail == []
  }

  /** The delete of a sandbox and what follows it: a request in hand is released if and
      only if the delete succeeded, a listing by the worker id showed no live replacement
      (a sandbox without worker id has none), and releases are allowed. */
  ghost predicate DeleteTail(tail: Log, id: Id, worker: Option<WorkerId>, request: Option<RequestId>, allowed: bool) {
    && tail != [] && tail[0].Killed? && tail[0].id == id
    && (if !tail[0].ok || request.None? then |tail| == 1
        else if worker.None? then ReleasedIff(tail[1..], request.value, allowed)
        else
          && |tail| >= 2 && tail[1].Listed? && tail[1].worker == worker.value
          && ReleasedIff(tail[2..], request.value,
                         allowed && tail[1].infos.Some? && NoOther(tail[1].infos.value, Some(id))))
  }

  /** Spawn hook: after the launch at k failed, the request was handed back, or a listing
      failed, still showed the sandbox, or showed another live one. */
  ghost predicate Handled(log: Log, k: nat, id: Id, request: Option<RequestId>) {
    || request.None?
    || (exists j :: k < j < |log| && log[j].Released? && log[j].request == request.value)
    || (exists j :: k < j < |log| && Blocks(log[j], id))
  }

  ghost predicate Blocks(e: Event, id: Id) {
    e.Listed? && (e.infos.None? || ShownIn(e.infos.value, id) || !NoOther(e.infos.value, Some(id)))
  }

  ghost predicate LaunchFailuresHandled(log: Log, request: Option<RequestId>) {
    forall k :: 0 <= k < |log| && log[k].LaunchRan? && !log[k].result.Started? ==>
      Handled(log, k, log[k].id, request)
  }

  /** One more event, which is no release. */
  ghost predicate Grew(before: Log, after: Log, e: Event) {
    && after == before + [e]
    && forall w :: SpawnSafe(before, w) ==> SpawnSafe(after, w)
  }

  /** The clients both programs call; every answer is arbitrary. */
  class Api {
    var log: Log

    constructor ()
      ensures log == []
    {
      log := [];
    }

    /** One call and its answer, which is no release. */
    method Record(e: Event)
      requires !e.Released?
      modifies this
      ensures Grew(old(log), log, e)
    {
      log := log + [e];
      forall w | SpawnSafe(old(log), w)
        ensures SpawnSafe(log, w)
      {
        KeepSpawnSafe(old(log), e, w);
      }
    }

    method Now() returns (ms: nat)
      modifies this
      ensures Grew(old(log), log, ClockRead(ms))
    {
      ms := *;
      Record(ClockRead(ms));
    }

    method List(worker: WorkerId) returns (infos: Option<seq<Info>>)
      modifies this
      ensures Grew(old(log), log, Listed(worker, infos))
    {
      infos := *;
      Record(Listed(worker, infos));
    }

    method Tag(id: Id, write: Write) returns (ok: bool)
      modifies this
      ensures Grew(old(log), log, Tagged(id, write, ok))
    {
      ok := *;
      Record(Tagged(id, write, ok));
    }

    method Supersede(id: Id) returns (ok: bool)
      modifies this
      ensures Grew(old(log), log, Superseded(id, ok))
    {
      ok := *;
      Record(Superseded(id, ok));
    }

    method Connect(id: Id) returns (answer: Activation)
      modifies this
      ensures answer.Up? ==> answer.info.id == id
      ensures Grew(old(log), log, Connected(id, answer))
    {
      var any: Activation := *;
      answer := if any.Up? then Up(any.info.(id := id)) else any;
      Record(Connected(id, answer));
    }

    method Resume(id: Id) returns (answer: Activation)
      modifies this
      ensures Grew(old(log), log, ResumeRan(id, answer))
    {
      answer := *;
      Record(ResumeRan(id, answer));
    }

    method Create() returns (info: Option<Info>)
      modifies this
      ensures Grew(old(log), log, Created(info))
    {
      info := *;
      Record(Created(info));
    }

    method GetInfo(id: Id) returns (found: Option<Info>)
      modifies this
      ensures Grew(old(log), log, InfoRead(id, found))
    {
      found := *;
      Record(InfoRead(id, found));
    }

    method Probe(id: Id) returns (state: WorkerState)
      modifies this
      ensures Grew(old(log), log, Probed(id, state))
    {
      state := *;
      Record(Probed(id, state));
    }

    method Stop(id: Id) returns (ok: bool)
      modifies this
      ensures Grew(old(log), log, StopRan(id, ok))
    {
      ok := *;
      Record(StopRan(id, ok));
    }

    method Launch(id: Id) returns (result: LaunchResult)
      modifies this
      ensures Grew(old(log), log, LaunchRan(id, result))
    {
      result := *;
      Record(LaunchRan(id, result));
    }

    method Pause(id: Id) returns (ok: bool)
      modifies this
      ensures Grew(old(log), log, PauseRan(id, ok))
    {
      ok := *;
      Record(PauseRan(id, ok));
    }

    method Kill(id: Id) returns (ok: bool)
      modifies this
      ensures Grew(old(log), log, Killed(id, ok))
    {
      ok := *;
      Record(Killed(id, ok));
    }

    method LookUpClaim(worker: WorkerId) returns (ok: bool, request: Option<RequestId>)
      modifies this
      ensures Grew(old(log), log, ClaimLookedUp(worker, ok, request))
    {
      ok, request := *, *;
      Record(ClaimLookedUp(worker, ok, request));
    }

    method Release(request: RequestId) returns (ok: bool)
      modifies this
      ensures log == old(log) + [Released(request, ok)]
    {
      ok := *;
      log := log + [Released(request, ok)];
    }
  }
}
