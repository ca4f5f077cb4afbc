/**
 What the log of the monitor's calls must show: what entitles it to pause, delete, release
 and wake, each for one sandbox and from the start of the call that handles it.
 */
module MonitorRules {
  import opened Options
  import opened Markers
  import opened FleetApi

  /** worker_id ends with ".superseded" */
  predicate IsSuperseded(worker: Option<WorkerId>) {
    worker.Some? && |worker.value| >= 11 && worker.value[|worker.value| - 11..] == ".superseded"
  }

  /** The call pauses or deletes a sandbox. */
  predicate Destroys(e: Event) { e.Killed? || e.PauseRan? }

  ghost predicate NoDestroys(log: Log, from: nat) { forall k :: from <= k < |log| ==> !Destroys(log[k]) }

  ghost predicate OnlyDestroys(log: Log, from: nat, id: Id) {
    forall k :: from <= k < |log| && Destroys(log[k]) ==> log[k].id == id
  }

  // ---------------------------------------------------------------------------
  // What entitles the monitor
  // ---------------------------------------------------------------------------

  /** Tags of the sandbox: those it was listed with, or tags read since that call. */
  ghost predicate TagsSeen(log: Log, from: nat, k: nat, info: Info, tags: Info)
    requires from <= k <= |log|
  {
    tags == info || InfoRead(info.id, Some(tags)) in log[from..k]
  }

  /** The request is that sandbox's: it stands in its tags, or is the claim its worker held
      when it was looked up. */
  ghost predicate NamedFor(log: Log, from: nat, k: nat, info: Info, request: RequestId)
    requires from <= k <= |log|
  {
    exists tags :: TagsSeen(log, from, k, info, tags) && NamedBy(log[from..k], tags, request)
  }

  ghost predicate NamedBy(part: Log, tags: Info, request: RequestId) {
    || tags.request == Some(request)
    || (tags.worker.Some? && ClaimLookedUp(tags.worker.value, true, Some(request)) in part)
  }

  /** Since that call the delete of this sandbox succeeded; the call behind it listed its
      worker id and showed no other live sandbox (without a worker id there is none to
      list); and the release comes next, as the first one. */
  ghost predicate DeletedFirst(log: Log, from: nat, k: nat, info: Info)
    requires from <= k <= |log|
  {
    && (forall i :: from <= i < k ==> !log[i].Released?)
    && (if info.worker.None? then k > from && log[k - 1] == Killed(info.id, true)
        else
          && k > from + 1 && log[k - 2] == Killed(info.id, true)
          && NoReplacement(log[..k], info.worker.value, Some(info.id)))
  }

  ghost predicate Entitled(log: Log, from: nat, k: nat, info: Info, request: RequestId)
    requires from <= k <= |log|
  {
    DeletedFirst(log, from, k, info) && NamedFor(log, from, k, info, request)
  }

  /** Every release since that call is of this sandbox's request, behind its delete. */
  ghost predicate ReleasesEntitled(log: Log, from: nat, info: Info)
    requires from <= |log|
  {
    forall k :: from <= k < |log| && log[k].Released? ==> Entitled(log, from, k, info, log[k].request)
  }

  /** A release that ends the log behind a delete of the sandbox. */
  lemma TailIsEntitled(log: Log, from: nat, at: nat, info: Info, request: Option<RequestId>, allowed: bool)
    requires from <= at <= |log| && DeleteTail(log[at..], info.id, info.worker, request, allowed)
    requires forall i :: from <= i < at ==> !log[i].Released?
    requires request.Some? ==> NamedFor(log, from, at, info, request.value)
    ensures ReleasesEntitled(log, from, info)
  {
    var tail := log[at..];
    forall k | from <= k < |log| && log[k].Released? ensures Entitled(log, from, k, info, log[k].request) {
      assert k >= at && log[k] == tail[k - at];
      assert log[at] == tail[0];
      if info.worker.Some? {
        assert log[at + 1] == tail[1];
        assert log[..k][k - 1] == tail[1];
      }
      NameLasts(log, from, at, k, info, request.value);
    }
  }

  lemma NameLasts(log: Log, from: nat, at: nat, k: nat, info: Info, request: RequestId)
    requires from <= at <= k <= |log| && NamedFor(log, from, at, info, request)
    ensures NamedFor(log, from, k, info, request)
  {
    var tags :| TagsSeen(log, from, at, info, tags) && NamedBy(log[from..at], tags, request);
    assert log[from..at] == log[from..k][..at - from];
    assert TagsSeen(log, from, k, info, tags) && NamedBy(log[from..k], tags, request);
  }

  /** Connected, probed in a terminal state, and tags read behind it without a fresh
      relaunch marker. */
  ghost predicate SeenIdle(tail: Log, id: Id) {
    && |tail| == 4
    && tail[0].Connected? && tail[0].id == id && tail[0].answer.Up?
    && tail[1].Probed? && tail[1].id == id && TerminalState(tail[1].state)
    && tail[2].InfoRead? && tail[2].id == id && tail[2].found.Some?
    && tail[3].ClockRead? && !Fresh(tail[3].ms, tail[2].found.value.launching)
  }

  ghost predicate Attempted(tail: Log, id: Id) { tail != [] && tail[0].Connected? && tail[0].id == id }

  /** From that call on: the recycle marker was written, the tags read behind it carried no
      fresh relaunch marker, and a later probe found no worker. */
  ghost predicate ClaimedAt(log: Log, i: nat, id: Id) {
    && i + 3 < |log| && log[i] == Tagged(id, Recycling, true)
    && log[i + 1].InfoRead? && log[i + 1].id == id && log[i + 1].found.Some?
    && log[i + 2].Probed? && log[i + 2].id == id && TerminalState(log[i + 2].state)
    && log[i + 3].ClockRead? && !Fresh(log[i + 3].ms, log[i + 1].found.value.launching)
  }

  ghost predicate Claimed(log: Log, from: nat, id: Id) {
    exists i :: from <= i && ClaimedAt(log, i, id)
  }

  /** Every pause or delete since that call is of this sandbox and was claimed first. */
  ghost predicate DestroysOnlyClaimed(log: Log, from: nat, id: Id) {
    forall k :: from <= k < |log| && Destroys(log[k]) ==> log[k].id == id && Claimed(log[..k], from, id)
  }

  // ---------------------------------------------------------------------------
  // What follows a claim
  // ---------------------------------------------------------------------------

  /** The lookup of a claim, where there is one to make, and the delete with the request
      it yields; a failed lookup puts the delete off. */
  ghost predicate LookupTail(tail: Log, tags: Info, keyed: bool, info: Info, allowed: bool) {
    if tags.worker.None? || !keyed then DeleteTail(tail, info.id, info.worker, tags.request, allowed)
    else
      && tail != [] && tail[0].ClaimLookedUp? && tail[0].worker == tags.worker.value
      && (if !tail[0].ok then |tail| == 1
          else
            var request := if tail[0].claim.Some? then tail[0].claim else tags.request;
            DeleteTail(tail[1..], info.id, info.worker, request, allowed))
  }

  /** The tags read last before a delete, or those of the recheck. */
  function LatestOf(found: Option<Info>, recheck: Info): Info { if found.Some? then found.value else recheck }

  ghost predicate AbandonedTail(tail: Log, info: Info, recheck: Info, keyed: bool) {
    && tail != [] && tail[0].InfoRead? && tail[0].id == info.id
    && var latest := LatestOf(tail[0].found, recheck);
       DeleteTail(tail[1..], info.id, info.worker, if IsSuperseded(latest.worker) then None else latest.request, keyed)
  }

  predicate Crashed(state: WorkerState) { state.Dead? || (state.Exited? && state.code != 0) }

  ghost predicate ExitedTail(tail: Log, info: Info, state: WorkerState, recheck: Info, keyed: bool) {
    && tail != [] && tail[0].InfoRead? && tail[0].id == info.id
    && var latest := LatestOf(tail[0].found, recheck);
       if Crashed(state) && !IsSuperseded(latest.worker) then LookupTail(tail[1..], latest, keyed, info, keyed)
       else DeleteTail(tail[1..], info.id, info.worker, None, keyed)
  }

  /** Paused, and the recycle marker dropped from the metadata read after the pause. */
  ghost predicate PauseTail(tail: Log, id: Id) {
    && tail != [] && tail[0].PauseRan? && tail[0].id == id
    && (if !tail[0].ok then |tail| == 1
        else
          && |tail| >= 2 && tail[1].InfoRead? && tail[1].id == id
          && (if tail[1].found.None? then |tail| == 2
              else |tail| == 3 && tail[2].Tagged? && tail[2].id == id && tail[2].write == ClearRecycling))
  }

  /** A worker was started here and ended by itself. */
  predicate Ended(state: WorkerState) { state.Exited? || state.Dead? }

  /** A claimed sandbox is paused exactly if sandboxes hibernate and this one ever got a
      supervisor; otherwise it is deleted, and whether a worker ended in it decides whose
      claim is handed back. */
  ghost predicate Disposed(tail: Log, info: Info, state: WorkerState, recheck: Info, hibernate: bool, keyed: bool) {
    && tail != []
    && (tail[0].PauseRan? <==> hibernate && !state.NoSupervisor?)
    && (tail[0].PauseRan? ==> PauseTail(tail, info.id))
    && (!tail[0].PauseRan? && Ended(state) ==> ExitedTail(tail, info, state, recheck, keyed))
    && (!tail[0].PauseRan? && !Ended(state) ==> AbandonedTail(tail, info, recheck, keyed))
  }

  /** Disposed of behind that call, by a state probed and tags read before it. */
  ghost predicate DisposedAt(log: Log, from: nat, k: nat, info: Info, hibernate: bool, keyed: bool)
    requires from <= k <= |log|
  {
    exists state, recheck ::
      && Probed(info.id, state) in log[from..k] && InfoRead(info.id, Some(recheck)) in log[from..k]
      && TerminalState(state) && Disposed(log[k..], info, state, recheck, hibernate, keyed)
  }

  // ---------------------------------------------------------------------------
  // What must happen, call by call, from call k to the end of the log
  // ---------------------------------------------------------------------------

  /** Left alone: out of reach, not known to have ended, unreadable, or being relaunched. */
  ghost predicate BusyTail(log: Log, k: nat, id: Id) {
    && k < |log| && log[k].Connected? && log[k].id == id
    && (if !log[k].answer.Up? then |log| == k + 1
        else
          && |log| > k + 1 && log[k + 1].Probed? && log[k + 1].id == id
          && (if !TerminalState(log[k + 1].state) then |log| == k + 2
              else
                && |log| > k + 2 && log[k + 2].InfoRead? && log[k + 2].id == id
                && (log[k + 2].found.None? ==> |log| == k + 3)
                && (log[k + 2].found.Some? ==>
                      |log| == k + 4 && log[k + 3].ClockRead?
                      && Fresh(log[k + 3].ms, log[k + 2].found.value.launching))))
  }

  /** A claim that does not stand: the marker could not be written, the tags could not be read
      behind it, or a relaunch showed, and then the marker is taken back. */
  ghost predicate BackedOffTail(log: Log, k: nat, id: Id) {
    && k < |log| && log[k].Tagged? && log[k].id == id && log[k].write == Recycling
    && (if !log[k].ok then |log| == k + 1
        else
          && |log| > k + 1 && log[k + 1].InfoRead? && log[k + 1].id == id
          && (log[k + 1].found.None? ==> |log| == k + 2)
          && (log[k + 1].found.Some? ==>
                && |log| == k + 5 && log[k + 2].Probed? && log[k + 2].id == id && log[k + 3].ClockRead?
                && (Fresh(log[k + 3].ms, log[k + 1].found.value.launching) || !TerminalState(log[k + 2].state))
                && log[k + 4].Tagged? && log[k + 4].id == id && log[k + 4].write == ClearRecycling))
  }

  /** A sandbox that is seen idle is claimed, and one whose claim stands is disposed of by
      the first probe and the tags behind the marker. */
  ghost predicate RecycleTail(log: Log, k: nat, info: Info, hibernate: bool, keyed: bool) {
    || BusyTail(log, k, info.id)
    || (|log| > k + 4 && SeenIdle(log[k..k + 4], info.id)
        && (BackedOffTail(log, k + 4, info.id)
            || (ClaimedAt(log, k + 4, info.id)
                && Disposed(log[k + 8..], info, log[k + 1].state, log[k + 5].found.value, hibernate, keyed))))
  }

  /** What is seen idle is claimed, and a claim that stands is acted on. */
  lemma RecycleActs(log: Log, k: nat, info: Info, hibernate: bool, keyed: bool)
    requires RecycleTail(log, k, info, hibernate, keyed)
    ensures |log| >= k + 4 && SeenIdle(log[k..k + 4], info.id) ==>
              |log| > k + 4 && log[k + 4].Tagged? && log[k + 4].id == info.id && log[k + 4].write == Recycling
    ensures Claimed(log, k, info.id) ==> |log| > k + 8 && DisposedAt(log, k, k + 8, info, hibernate, keyed)
  {
    OneClaim(log, k, info, hibernate, keyed);
    if Claimed(log, k, info.id) {
      var part := log[k..k + 8];
      assert part[1] == log[k + 1] && part[5] == log[k + 5];
    }
  }

  /** Only the fifth call can begin a claim that stands, and then nothing backs off. */
  lemma OneClaim(log: Log, k: nat, info: Info, hibernate: bool, keyed: bool)
    requires RecycleTail(log, k, info, hibernate, keyed)
    ensures forall i :: k <= i && ClaimedAt(log, i, info.id) ==> i == k + 4 && !BackedOffTail(log, i, info.id)
    ensures BusyTail(log, k, info.id) ==> |log| <= k + 4 && (|log| == k + 4 ==> !SeenIdle(log[k..k + 4], info.id))
  {
    if !BusyTail(log, k, info.id) {
      var part := log[k..k + 4];
      assert part[0] == log[k] && part[1] == log[k + 1] && part[2] == log[k + 2] && part[3] == log[k + 3];
    }
  }

  /** The claim of a crashed worker is handed back: without hibernation, once the sandbox is
      claimed, its tags name the worker, the lookup finds the claim, the delete succeeds, and
      no live replacement is listed. */
  lemma CrashIsHandedBack(log: Log, k: nat, info: Info, worker: WorkerId, request: RequestId, tags: Info)
    requires RecycleTail(log, k, info, false, true) && ClaimedAt(log, k + 4, info.id)
    requires log[k + 1].state.Dead? || (log[k + 1].state.Exited? && log[k + 1].state.code != 0)
    requires |log| > k + 8 && log[k + 8] == InfoRead(info.id, Some(tags))
    requires tags.worker == Some(worker) && !IsSuperseded(tags.worker)
    requires |log| > k + 9 && log[k + 9] == ClaimLookedUp(worker, true, Some(request))
    ensures |log| > k + 10 && log[k + 10].Killed? && log[k + 10].id == info.id
    ensures log[k + 10].ok && info.worker == Some(worker) ==> |log| > k + 11 && log[k + 11].Listed?
    ensures log[k + 10].ok && info.worker == Some(worker) && log[k + 11].infos.Some?
            && NoOther(log[k + 11].infos.value, Some(info.id)) ==>
              |log| == k + 13 && log[k + 12].Released? && log[k + 12].request == request
  {
    OneClaim(log, k, info, false, true);
    var tail := log[k + 8..];
    assert tail[0] == log[k + 8];
    assert tail[1..][0] == log[k + 9] && tail[1..][1..] == log[k + 10..];
    var deleted := log[k + 10..];
    assert deleted != [] ==> deleted[0] == log[k + 10];
    assert |deleted| > 1 ==> deleted[1] == log[k + 11] && deleted[2..] == log[k + 12..];
  }

  /** With hibernation a sandbox that ever got a supervisor is paused and never deleted. */
  lemma HibernationKeeps(log: Log, k: nat, info: Info, keyed: bool)
    requires RecycleTail(log, k, info, true, keyed) && ClaimedAt(log, k + 4, info.id) && !log[k + 1].state.NoSupervisor?
    ensures |log| > k + 8 && log[k + 8].PauseRan? && log[k + 8].id == info.id
    ensures forall i :: k <= i < |log| ==> !log[i].Killed? && !log[i].Released?
  {
    OneClaim(log, k, info, true, keyed);
    var tail := log[k + 8..];
    assert forall i :: k + 8 <= i < |log| ==> log[i] == tail[i - k - 8];
    var part := log[k..k + 4];
    assert part[0] == log[k] && part[1] == log[k + 1] && part[2] == log[k + 2] && part[3] == log[k + 3];
  }

  // ---------------------------------------------------------------------------
  // Waking
  // ---------------------------------------------------------------------------

  /** A relaunch marker that is fresh and not of this attempt. */
  predicate OthersMarker(tags: Info, stamp: nat, now: nat) {
    tags.launching.Some? && tags.launching != Some(stamp) && Fresh(now, tags.launching)
  }

  /** One reading of the marker: whether another launcher owns the sandbox, or None when
      the tags cannot be read. */
  ghost predicate OwnerRead(tail: Log, id: Id, stamp: nat, owned: Option<bool>) {
    && tail != [] && tail[0].InfoRead? && tail[0].id == id
    && (if tail[0].found.None? then owned == None && |tail| == 1
        else |tail| == 2 && tail[1].ClockRead? && owned == Some(OthersMarker(tail[0].found.value, stamp, tail[1].ms)))
  }

  /** Nothing is stopped over another launcher's fresh marker: a stop comes third, behind a
      reading that showed none. */
  ghost predicate StopUnowned(tail: Log, id: Id, stamp: nat) {
    forall k :: 0 <= k < |tail| && tail[k].StopRan? ==> k == 2 && OwnerRead(tail[..2], id, stamp, Some(false))
  }

  /** Such a stop succeeded and a later probe found no worker; and the last calls read the
      marker again, still without another launcher's, and probed again, without a worker. */
  ghost predicate WakeStopped(tail: Log, id: Id, stamp: nat) {
    && StopUnowned(tail, id, stamp) && StopConfirmed(tail, 0, id)
    && |tail| >= 3 && OwnerRead(tail[|tail| - 3..|tail| - 1], id, stamp, Some(false))
    && tail[|tail| - 1].Probed? && tail[|tail| - 1].id == id && !tail[|tail| - 1].state.Running?
  }

  /** Since that call, only this request is released, behind a launch that left no worker
      running and a stop confirmed after that launch. */
  ghost predicate ReleasesStopped(log: Log, from: nat, id: Id, request: RequestId, stamp: nat) {
    forall k :: from <= k < |log| && log[k].Released? ==>
      log[k].request == request && StopEarned(log[..k], from, id, stamp)
  }

  ghost predicate StopEarned(log: Log, from: nat, id: Id, stamp: nat) {
    exists j: nat :: from <= j < |log| && StoppedSince(log[j..], id, stamp)
  }

  ghost predicate StoppedSince(part: Log, id: Id, stamp: nat) {
    part != [] && part[0] == LaunchRan(id, NotRunning) && WakeStopped(part[1..], id, stamp)
  }

  /** The stamp of a wake is the clock reading its relaunch marker was written with. */
  ghost predicate WakeReleases(log: Log, from: nat, id: Id, request: RequestId) {
    NoRelease(log, from)
    || (|log| > from + 2 && log[from + 2].ClockRead? && ReleasesStopped(log, from, id, request, log[from + 2].ms))
  }

  /** Why the claim is kept, as the last calls tell: unreadable tags, another launcher's
      marker, a failed stop, or a worker that is not confirmed to be gone. */
  ghost predicate Doubt(tail: Log, id: Id, stamp: nat) {
    && tail != []
    && var last := tail[|tail| - 1];
       || last == InfoRead(id, None)
       || last == StopRan(id, false)
       || (last.Probed? && last.id == id
           && (last.state.Running? || (!StoppedState(last.state) && !StopConfirmed(tail[..|tail| - 1], 0, id))))
       || (last.ClockRead? && |tail| >= 2 && OwnerRead(tail[|tail| - 2..], id, stamp, Some(true)))
  }

  /** A listing showed the sandbox without a fresh relaunch marker, and this attempt's own
      marker was written, as far as the calls go. */
  ghost predicate WakeMarked(tail: Log, id: Id, worker: WorkerId) {
    && tail != [] && tail[0].Listed? && tail[0].worker == worker
    && (tail[0].infos.None? || WithId(tail[0].infos.value, id).None? ==> |tail| == 1)
    && (|tail| > 1 ==>
          && tail[1].ClockRead? && tail[0].infos.Some? && WithId(tail[0].infos.value, id).Some?
          && (|tail| == 2 <==> Fresh(tail[1].ms, WithId(tail[0].infos.value, id).value.launching)))
    && (|tail| > 2 ==>
          && |tail| >= 4 && tail[2].ClockRead? && tail[3].Tagged? && tail[3].id == id
          && tail[3].write == Relaunch(tail[2].ms))
  }

  /** Nothing is activated before that; then activation follows. */
  ghost predicate MarkedBeforeWake(tail: Log, id: Id, worker: WorkerId) {
    && WakeMarked(tail, id, worker)
    && (|tail| > 2 ==> (|tail| == 4 <==> !tail[3].ok))
    && (|tail| > 4 ==> tail[4].Connected? && tail[4].id == id)
  }

  // What a wake does behind its marker, call by call, from call k to the end of the log.

  /** The launch; when it left no worker running, the request is released, or the last calls
      tell why it is kept. */
  ghost predicate LaunchTail(log: Log, k: nat, id: Id, request: RequestId, stamp: nat) {
    && k < |log| && log[k].LaunchRan? && log[k].id == id
    && (if !log[k].result.NotRunning? then |log| == k + 1
        else
          || (exists j :: k < j < |log| && log[j].Released? && log[j].request == request)
          || Doubt(log[k + 1..], id, stamp))
  }

  /** A paused sandbox is resumed first, and launched in if it is up. */
  ghost predicate ResumeTail(log: Log, k: nat, id: Id, paused: bool, request: RequestId, stamp: nat) {
    if !paused then LaunchTail(log, k, id, request, stamp)
    else
      && k < |log| && log[k].ResumeRan? && log[k].id == id
      && (if log[k].answer.Up? then LaunchTail(log, k + 1, id, request, stamp) else |log| == k + 1)
  }

  /** What was connected to is resumed and launched in; the marker is taken back last, and
      behind a failed connect by way of a listing. */
  ghost predicate ActivateTail(log: Log, k: nat, id: Id, worker: WorkerId, request: RequestId, stamp: nat) {
    && k < |log| && log[k].Connected? && log[k].id == id
    && (if log[k].answer.Up? then
          exists m :: k < m <= |log| && ClearTail(log[m..], id, stamp)
                      && ResumeTail(log[..m], k + 1, id, log[k].answer.info.status.Paused?, request, stamp)
        else ListedClearTail(log[k + 1..], id, worker, stamp))
  }

  ghost predicate ListedClearTail(tail: Log, id: Id, worker: WorkerId, stamp: nat) {
    && tail != [] && tail[0].Listed? && tail[0].worker == worker
    && (|tail| == 1 || (|tail| == 2 && tail[1].Tagged? && tail[1].id == id && tail[1].write == ClearRelaunch))
    && (|tail| == 2 <==> tail[0].infos.Some? && WithId(tail[0].infos.value, id).Some?
                         && WithId(tail[0].infos.value, id).value.launching == Some(stamp))
  }

  /** A listed sandbox without a fresh relaunch marker is marked, and once the marker is
      written it is activated. */
  ghost predicate WakeTail(log: Log, k: nat, id: Id, worker: WorkerId, request: RequestId) {
    && k < |log| && log[k].Listed? && log[k].worker == worker
    && (if log[k].infos.None? || WithId(log[k].infos.value, id).None? then |log| == k + 1
        else
          && |log| > k + 1 && log[k + 1].ClockRead?
          && (if Fresh(log[k + 1].ms, WithId(log[k].infos.value, id).value.launching) then |log| == k + 2
              else
                && |log| > k + 3 && log[k + 2].ClockRead?
                && log[k + 3].Tagged? && log[k + 3].id == id && log[k + 3].write == Relaunch(log[k + 2].ms)
                && (if log[k + 3].ok then ActivateTail(log, k + 4, id, worker, request, log[k + 2].ms)
                    else |log| == k + 4)))
  }

  /** Where connect, and resume for a paused sandbox, answer that it is up, a launch follows. */
  lemma WakeLaunches(log: Log, k: nat, id: Id, worker: WorkerId, request: RequestId)
    requires WakeTail(log, k, id, worker, request)
    requires |log| > k + 4 && log[k + 4].answer.Up?
    ensures if log[k + 4].answer.info.status.Paused?
            then |log| > k + 5 && log[k + 5].ResumeRan?
                 && (log[k + 5].answer.Up? ==> |log| > k + 6 && log[k + 6].LaunchRan? && log[k + 6].id == id)
            else |log| > k + 5 && log[k + 5].LaunchRan? && log[k + 5].id == id
  {
    var stamp := log[k + 2].ms;
    var m :| k + 4 < m <= |log| && ClearTail(log[m..], id, stamp)
             && ResumeTail(log[..m], k + 5, id, log[k + 4].answer.info.status.Paused?, request, stamp);
    assert forall i :: 0 <= i < m ==> log[..m][i] == log[i];
  }
}
