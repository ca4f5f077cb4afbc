/**
 The monitor: recycle sandboxes whose worker ended, reap failed ones, and wake
 hibernated ones.  An exception ends the method here, as it does there; sweep catches it
 and goes on with the next sandbox.
 */
module Monitor {
  import opened Options
  import opened Markers
  import opened FleetApi
  import opened MonitorRules
  import Spawn

  class Watcher {
    const api: Api
    const hibernate: bool
    const keyed: bool         // CURSOR_API_KEY is set
    var waking: set<Id>

    constructor (api: Api, hibernate: bool, keyed: bool)
      ensures this.api == api && this.hibernate == hibernate && this.keyed == keyed && waking == {}
    {
      this.api := api;
      this.hibernate := hibernate;
      this.keyed := keyed;
      waking := {};
    }

    // -------------------------------------------------------------------------
    // Recycling
    // -------------------------------------------------------------------------

    /** Delete, then hand the request back unless a live replacement carries the worker id. */
    method KillAndHandBack(info: Info, request: Option<RequestId>, allowed: bool)
      modifies api
      ensures old(api.log) <= api.log
      ensures DeleteTail(api.log[|old(api.log)|..], info.id, info.worker, request, allowed)
    {
      var killed := api.Kill(info.id);
      if killed && request.Some? {
        HandBackAfterKill(info.id, info.worker, request.value, allowed);
      }
    }

    method HandBackAfterKill(id: Id, worker: Option<WorkerId>, request: RequestId, allowed: bool)
      requires api.log != [] && api.log[|api.log| - 1] == Killed(id, true)
      modifies api
      ensures old(api.log) <= api.log
      ensures DeleteTail(api.log[|old(api.log)| - 1..], id, worker, Some(request), allowed)
    {
      if worker.Some? {
        var replaced := Spawn.ReplacementExists(api, worker.value, Some(id));
        if replaced {
          return;
        }
      }
      if allowed {
        var _ := api.Release(request);
      }
    }

    /** The worker is not running and no relaunch is under way: a probe found a terminal
        state, and tags read behind it carry no fresh relaunch marker. */
    method ProbeIdle(id: Id) returns (state: Option<WorkerState>)
      modifies api
      ensures old(api.log) <= api.log && NoDestroys(api.log, |old(api.log)|) && NoRelease(api.log, |old(api.log)|)
      ensures state.Some? <==> SeenIdle(api.log[|old(api.log)|..], id)
      ensures state.Some? ==> api.log[|old(api.log)|..][1] == Probed(id, state.value)
      ensures Attempted(api.log[|old(api.log)|..], id)
      ensures state.None? ==> BusyTail(api.log, |old(api.log)|, id)
    {
      ghost var start := |api.log|;
      state := None;
      var up := api.Connect(id);
      if !up.Up? {
        return;
      }
      var probed := api.Probe(id);
      if !TerminalState(probed) {
        return;
      }
      var current := api.GetInfo(id);
      if current.None? {
        return;
      }
      var now := api.Now();
      assert api.log[start..] == [Connected(id, up), Probed(id, probed), InfoRead(id, current), ClockRead(now)];
      if !Fresh(now, current.value.launching) {
        state := Some(probed);
      }
    }

    /** Write the recycle marker, then check for a relaunch and probe again. */
    method Claim(id: Id) returns (recheck: Option<Info>)
      modifies api
      ensures old(api.log) <= api.log && NoDestroys(api.log, |old(api.log)|) && NoRelease(api.log, |old(api.log)|)
      ensures recheck.Some? <==> |api.log| == |old(api.log)| + 4 && ClaimedAt(api.log, |old(api.log)|, id)
      ensures recheck.Some? ==> api.log[|old(api.log)| + 1] == InfoRead(id, recheck)
      ensures recheck.None? && |api.log| > |old(api.log)| + 4 ==>
                |api.log| == |old(api.log)| + 5 && api.log[|old(api.log)| + 4].Tagged?
                && api.log[|old(api.log)| + 4].id == id && api.log[|old(api.log)| + 4].write == ClearRecycling
      ensures recheck.None? ==> BackedOffTail(api.log, |old(api.log)|, id)
    {
      var marked := api.Tag(id, Recycling);
      if !marked {
        return None;
      }
      recheck := api.GetInfo(id);
      if recheck.None? {
        return;
      }
      var stateNow := api.Probe(id);
      var now := api.Now();
      if Fresh(now, recheck.value.launching) || !TerminalState(stateNow) {
        var _ := api.Tag(id, ClearRecycling);
        return None;
      }
    }

    /** Recycle a sandbox whose worker ended: what is seen idle is claimed, a claim that stands
        leads to the disposal, and any other one is taken back. */
    method Recycle(info: Info)
      modifies api
      ensures old(api.log) <= api.log
      ensures DestroysOnlyClaimed(api.log, |old(api.log)|, info.id)
      ensures ReleasesEntitled(api.log, |old(api.log)|, info)
      ensures Attempted(api.log[|old(api.log)|..], info.id)
      ensures NoDestroys(api.log, |old(api.log)|)
              || exists k :: |old(api.log)| <= k <= |api.log|
                             && DisposedAt(api.log, |old(api.log)|, k, info, hibernate, keyed)
      ensures RecycleTail(api.log, |old(api.log)|, info, hibernate, keyed)
      ensures var k := |old(api.log)|;
              |api.log| >= k + 4 && SeenIdle(api.log[k..k + 4], info.id) ==>
                |api.log| > k + 4 && api.log[k + 4].Tagged? && api.log[k + 4].id == info.id
                && api.log[k + 4].write == Recycling
      ensures Claimed(api.log, |old(api.log)|, info.id) ==>
                exists k :: |old(api.log)| <= k <= |api.log|
                            && DisposedAt(api.log, |old(api.log)|, k, info, hibernate, keyed)
    {
      ghost var start := |api.log|;
      var probed := ProbeIdle(info.id);
      if probed.None? {
        RecycleActs(api.log, start, info, hibernate, keyed);
        return;
      }
      ghost var seen := api.log;
      var recheck := Claim(info.id);
      if recheck.None? {
        BackedOff(seen, api.log, start, info);
        RecycleActs(api.log, start, info, hibernate, keyed);
        return;
      }
      ghost var claimed := api.log;
      Decide(info, probed.value, recheck.value, start);
      ClaimCovers(seen, claimed, api.log, start, info.id);
      ClaimIsActedOn(seen, claimed, api.log, start, info, probed.value, recheck.value);
      RecycleActs(api.log, start, info, hibernate, keyed);
    }

    lemma BackedOff(seen: Log, log: Log, from: nat, info: Info)
      requires from <= |seen| && seen <= log && SeenIdle(seen[from..], info.id) && BackedOffTail(log, |seen|, info.id)
      ensures RecycleTail(log, from, info, hibernate, keyed) && Attempted(log[from..], info.id)
    {
      assert log[from..from + 4] == seen[from..];
      assert log[from..][0] == seen[from..][0];
    }

    lemma ClaimIsActedOn(seen: Log, claimed: Log, log: Log, from: nat, info: Info, state: WorkerState, recheck: Info)
      requires from <= |seen| && seen <= claimed <= log && |claimed| == |seen| + 4
      requires SeenIdle(seen[from..], info.id) && seen[from..][1] == Probed(info.id, state)
      requires ClaimedAt(claimed, |seen|, info.id) && claimed[|seen| + 1] == InfoRead(info.id, Some(recheck))
      requires Disposed(log[|claimed|..], info, state, recheck, hibernate, keyed)
      ensures RecycleTail(log, from, info, hibernate, keyed) && Attempted(log[from..], info.id)
      ensures DisposedAt(log, from, |claimed|, info, hibernate, keyed)
    {
      assert log[from..from + 4] == seen[from..];
      assert log[from..][0] == seen[from..][0];
      assert log[from + 1] == seen[from..][1] && log[from + 5] == claimed[|seen| + 1];
      assert forall i :: |seen| <= i < |claimed| ==> log[i] == claimed[i];
      assert log[from..|claimed|][1] == log[from + 1] && log[from..|claimed|][5] == log[from + 5];
    }

    lemma ClaimCovers(seen: Log, claimed: Log, log: Log, from: nat, id: Id)
      requires from <= |seen| && seen <= claimed <= log && |claimed| == |seen| + 4 && ClaimedAt(claimed, |seen|, id)
      requires NoDestroys(claimed, from) && OnlyDestroys(log, |claimed|, id)
      ensures DestroysOnlyClaimed(log, from, id)
    {
      assert forall k :: from <= k < |claimed| ==> log[k] == claimed[k];
      forall k | from <= k < |log| && Destroys(log[k])
        ensures log[k].id == id && Claimed(log[..k], from, id)
      {
        assert log[..k][..|claimed|] == claimed;
        assert ClaimedAt(log[..k], |seen|, id);
      }
    }

    /** What becomes of a claimed sandbox. */
    method Decide(info: Info, state: WorkerState, recheck: Info, ghost from: nat)
      requires TerminalState(state)
      requires from <= |api.log| && NoRelease(api.log, from) && InfoRead(info.id, Some(recheck)) in api.log[from..]
      modifies api
      ensures old(api.log) <= api.log
      ensures OnlyDestroys(api.log, |old(api.log)|, info.id)
      ensures ReleasesEntitled(api.log, from, info)
      ensures Disposed(api.log[|old(api.log)|..], info, state, recheck, hibernate, keyed)
    {
      if state.NoSupervisor? || (state.NoPidfile? && !hibernate) {
        DeleteAbandoned(info, recheck, from);
      } else if hibernate {
        ghost var before := api.log;
        Pause(info.id);
        assert forall k :: |before| <= k < |api.log| ==> api.log[k] == api.log[|before|..][k - |before|];
      } else {
        DeleteExited(info, state, recheck, from);
      }
    }

    /** Nothing is left to run in it: delete it and hand back the request in its last tags. */
    method DeleteAbandoned(info: Info, recheck: Info, ghost from: nat)
      requires from <= |api.log| && NoRelease(api.log, from) && InfoRead(info.id, Some(recheck)) in api.log[from..]
      modifies api
      ensures old(api.log) <= api.log && OnlyDestroys(api.log, |old(api.log)|, info.id)
      ensures ReleasesEntitled(api.log, from, info)
      ensures AbandonedTail(api.log[|old(api.log)|..], info, recheck, keyed)
    {
      ghost var start := api.log;
      var read := api.GetInfo(info.id);
      var latest := LatestOf(read, recheck);
      ghost var before := api.log;
      var request := if IsSuperseded(latest.worker) then None else latest.request;
      KillAndHandBack(info, request, keyed);
      assert api.log[|start|..][0] == InfoRead(info.id, read);
      assert api.log[|start|..][1..] == api.log[|before|..];
      LatestIsSeen(start, api.log, from, info, read, recheck);
      DeleteIsEntitled(before, api.log, from, info, latest, request, keyed);
    }

    /** The tags used for the decision were read since that call. */
    lemma LatestIsSeen(start: Log, log: Log, from: nat, info: Info, read: Option<Info>, recheck: Info)
      requires from <= |start| && start + [InfoRead(info.id, read)] <= log
      requires InfoRead(info.id, Some(recheck)) in start[from..]
      ensures TagsSeen(log, from, |start| + 1, info, LatestOf(read, recheck))
    {
      var part := log[from..|start| + 1];
      assert part[|start| - from] == InfoRead(info.id, read);
      assert part[..|start| - from] == start[from..];
    }

    lemma DeleteIsEntitled(before: Log, log: Log, from: nat, info: Info, tags: Info, request: Option<RequestId>,
                           allowed: bool)
      requires from <= |before| && before <= log && NoRelease(before, from)
      requires DeleteTail(log[|before|..], info.id, info.worker, request, allowed)
      requires TagsSeen(log, from, |before|, info, tags)
      requires request.Some? ==> NamedBy(log[from..|before|], tags, request.value)
      ensures ReleasesEntitled(log, from, info) && OnlyDestroys(log, |before|, info.id)
    {
      assert forall i :: 0 <= i < |before| ==> log[i] == before[i];
      assert forall i :: |before| <= i < |log| ==> log[i] == log[|before|..][i - |before|];
      TailIsEntitled(log, from, |before|, info, request, allowed);
    }

    /** pause, then drop the recycle marker from tags read afterwards. */
    method Pause(id: Id)
      modifies api
      ensures old(api.log) <= api.log && PauseTail(api.log[|old(api.log)|..], id)
    {
      var paused := api.Pause(id);
      if paused {
        var latest := api.GetInfo(id);
        if latest.Some? {
          var _ := api.Tag(id, ClearRecycling);
        }
      }
    }

    /** The worker exited or crashed and nothing is hibernated: delete the sandbox.  The
        claim of a crashed worker is looked up before the delete; an inconclusive lookup
        puts the delete off. */
    method DeleteExited(info: Info, state: WorkerState, recheck: Info, ghost from: nat)
      requires from <= |api.log| && NoRelease(api.log, from) && InfoRead(info.id, Some(recheck)) in api.log[from..]
      modifies api
      ensures old(api.log) <= api.log && OnlyDestroys(api.log, |old(api.log)|, info.id)
      ensures ReleasesEntitled(api.log, from, info)
      ensures ExitedTail(api.log[|old(api.log)|..], info, state, recheck, keyed)
    {
      ghost var start := api.log;
      var read := api.GetInfo(info.id);
      var latest := LatestOf(read, recheck);
      ghost var before := api.log;
      if Crashed(state) && !IsSuperseded(latest.worker) {
        LookUpAndDelete(info, latest, keyed);
      } else {
        KillAndHandBack(info, None, keyed);
      }
      assert api.log[|start|..][0] == InfoRead(info.id, read);
      assert api.log[|start|..][1..] == api.log[|before|..];
      LatestIsSeen(start, api.log, from, info, read, recheck);
      if Crashed(state) && !IsSuperseded(latest.worker) {
        LookupIsEntitled(before, api.log, from, info, latest, keyed);
      } else {
        DeleteIsEntitled(before, api.log, from, info, latest, None, keyed);
      }
    }

    /** Resolve the claim first; then delete, and hand it back. */
    method LookUpAndDelete(info: Info, tags: Info, allowed: bool)
      modifies api
      ensures old(api.log) <= api.log && LookupTail(api.log[|old(api.log)|..], tags, keyed, info, allowed)
    {
      ghost var start := api.log;
      var ok, request := ClaimedRequestFor(tags.worker, tags.request);
      if ok {
        ghost var before := api.log;
        KillAndHandBack(info, request, allowed);
        assert |before| > |start| ==> api.log[|start|..][1..] == api.log[|before|..];
      }
    }

    lemma LookupIsEntitled(before: Log, log: Log, from: nat, info: Info, tags: Info, allowed: bool)
      requires from <= |before| && before <= log && NoRelease(before, from)
      requires LookupTail(log[|before|..], tags, keyed, info, allowed) && TagsSeen(log, from, |before|, info, tags)
      ensures ReleasesEntitled(log, from, info) && OnlyDestroys(log, |before|, info.id)
    {
      var tail := log[|before|..];
      if tags.worker.None? || !keyed {
        DeleteIsEntitled(before, log, from, info, tags, tags.request, allowed);
      } else {
        var looked := before + [tail[0]];
        assert looked <= log && log[|before|] == tail[0];
        assert log[from..|looked|][|before| - from] == tail[0];
        assert log[from..|looked|][..|before| - from] == log[from..|before|];
        if tail[0].ok {
          var request := if tail[0].claim.Some? then tail[0].claim else tags.request;
          assert tail[1..] == log[|looked|..];
          DeleteIsEntitled(looked, log, from, info, tags, request, allowed);
        } else {
          assert log == looked;
        }
      }
    }

    method ClaimedRequestFor(worker: Option<WorkerId>, fallback: Option<RequestId>)
      returns (ok: bool, request: Option<RequestId>)
      modifies api
      ensures worker.None? || !keyed ==> ok && request == fallback && api.log == old(api.log)
      ensures worker.Some? && keyed ==>
                exists claim :: api.log == old(api.log) + [ClaimLookedUp(worker.value, ok, claim)]
                                && request == if !ok then None else if claim.Some? then claim else fallback
    {
      if worker.None? || !keyed {
        return true, fallback;
      }
      ok, request := api.LookUpClaim(worker.value);
      request := if !ok then None else if request.Some? then request else fallback;
    }

    /** Delete the record of a failed sandbox and hand its claim back. */
    method ReapFailed(info: Info)
      modifies api
      ensures old(api.log) <= api.log && OnlyDestroys(api.log, |old(api.log)|, info.id)
      ensures ReleasesEntitled(api.log, |old(api.log)|, info)
      ensures var tail := api.log[|old(api.log)|..];
              if IsSuperseded(info.worker) then DeleteTail(tail, info.id, info.worker, None, true)
              else LookupTail(tail, info, keyed, info, true)
    {
      ghost var start := api.log;
      if IsSuperseded(info.worker) {
        KillAndHandBack(info, None, true);
        DeleteIsEntitled(start, api.log, |start|, info, info, None, true);
      } else {
        LookUpAndDelete(info, info, true);
        LookupIsEntitled(start, api.log, |start|, info, info, true);
      }
    }

    // -------------------------------------------------------------------------
    // Sweeping
    // -------------------------------------------------------------------------

    /** The sweep acts on a sandbox that failed, or on an active one that is past the grace
        period of its creation, not being woken, and past that of its relaunch marker. */
    predicate InScope(info: Info, begun: nat, now: nat)
      reads this
    {
      || info.status.Failed?
      || (info.status.Active? && begun >= info.createdAt + GRACE && info.id !in waking && !Fresh(now, info.launching))
    }

    /** The sandbox failed; or it was in scope by the clock the sweep read first and one it
        read before this call, and had been claimed. */
    ghost predicate Sanctioned(log: Log, from: nat, k: nat, info: Info)
      requires from < k <= |log|
      reads this
    {
      && log[from].ClockRead?
      && (info.status.Failed?
          || (Claimed(log[..k], from, info.id)
              && exists j :: from < j < k && log[j].ClockRead? && InScope(info, log[from].ms, log[j].ms)))
    }

    ghost predicate DestroySanctioned(infos: seq<Info>, log: Log, from: nat, k: nat)
      requires from < k < |log| && Destroys(log[k])
      reads this
    {
      exists i :: i in infos && i.id == log[k].id && Sanctioned(log, from, k, i)
    }

    /** Some sandbox of the list was handled from a later call on, and the release is of its
        request, behind its delete. */
    ghost predicate ReleaseEarned(infos: seq<Info>, log: Log, from: nat, k: nat)
      requires from < k < |log| && log[k].Released?
    {
      exists i, start :: i in infos && from < start <= k && Entitled(log, start, k, i, log[k].request)
    }

    ghost predicate EarnedFrom(log: Log, from: nat, k: nat, info: Info)
      requires from <= k < |log| && log[k].Released?
    {
      exists start :: from <= start <= k && Entitled(log, start, k, info, log[k].request)
    }

    ghost predicate ReleasesEarned(log: Log, from: nat, info: Info) {
      forall k :: from <= k < |log| && log[k].Released? ==> EarnedFrom(log, from, k, info)
    }

    ghost predicate SweepSafe(infos: seq<Info>, log: Log, from: nat)
      reads this
    {
      forall k :: from < k < |log| ==>
        && (Destroys(log[k]) ==> DestroySanctioned(infos, log, from, k))
        && (log[k].Released? ==> ReleaseEarned(infos, log, from, k))
    }

    /** A failed sandbox was deleted or the lookup of its claim failed; an active one past
        its grace period and not being woken was connected to, unless its marker was fresh. */
    ghost predicate Attended(log: Log, from: nat, info: Info)
      requires from < |log|
      reads this
    {
      && log[from].ClockRead?
      && (info.status.Failed? ==> exists k :: from < k < |log| && Reaped(log[k], info))
      && (info.status.Active? && log[from].ms >= info.createdAt + GRACE && info.id !in waking ==>
            exists k :: from < k < |log| && Visited(log[k], info))
    }

    ghost predicate Reaped(e: Event, info: Info) {
      || (e.Killed? && e.id == info.id)
      || (e.ClaimLookedUp? && !e.ok && Some(e.worker) == info.worker)
    }

    ghost predicate Visited(e: Event, info: Info) {
      || (e.Connected? && e.id == info.id)
      || (e.ClockRead? && Fresh(e.ms, info.launching))
    }

    /** Every call for one sandbox, from call k to the end of the log: a failed one is reaped,
        one in scope is recycled, and any other is left alone. */
    ghost predicate StepTail(log: Log, k: nat, begun: nat, info: Info)
      requires k <= |log|
      reads this
    {
      if info.status.Failed? then
        if IsSuperseded(info.worker) then DeleteTail(log[k..], info.id, info.worker, None, true)
        else LookupTail(log[k..], info, keyed, info, true)
      else if !info.status.Active? || begun < info.createdAt + GRACE then |log| == k
      else
        && k < |log| && log[k].ClockRead?
        && (if Fresh(log[k].ms, info.launching) || info.id in waking then |log| == k + 1
            else RecycleTail(log, k + 1, info, hibernate, keyed))
    }

    /** The calls between two points of the log are those for this sandbox. */
    ghost predicate Served(log: Log, from: nat, info: Info)
      requires from < |log|
      reads this
    {
      && log[from].ClockRead?
      && exists a, b :: from < a <= b <= |log| && StepTail(log[..b], a, log[from].ms, info)
    }

    lemma ServedLasts(before: Log, log: Log, from: nat, info: Info)
      requires from < |before| && before <= log && Served(before, from, info)
      ensures Served(log, from, info)
    {
      var a, b :| from < a <= b <= |before| && StepTail(before[..b], a, before[from].ms, info);
      assert log[..b] == before[..b];
      assert log[from] == before[from];
    }

    lemma ServedNow(before: Log, log: Log, from: nat, info: Info)
      requires from < |before| && before <= log && before[from].ClockRead?
      requires StepTail(log, |before|, before[from].ms, info)
      ensures Served(log, from, info)
    {
      assert log[..|log|] == log;
      assert StepTail(log[..|log|], |before|, log[from].ms, info);
    }

    /** One sweep: only sandboxes in scope are paused or deleted, every release is of the
        request of a sandbox of the list behind its delete, and none in scope is skipped. */
    method Sweep(infos: seq<Info>)
      modifies api
      ensures old(api.log) <= api.log && |api.log| > |old(api.log)|
      ensures SweepSafe(infos, api.log, |old(api.log)|)
      ensures forall i :: i in infos ==> Attended(api.log, |old(api.log)|, i)
      ensures forall i :: i in infos ==> Served(api.log, |old(api.log)|, i)
    {
      ghost var from := |api.log|;
      var begun := api.Now();
      var n := 0;
      while n < |infos|
        invariant 0 <= n <= |infos|
        invariant old(api.log) + [ClockRead(begun)] <= api.log
        invariant SweepSafe(infos, api.log, from)
        invariant forall i :: i in infos[..n] ==> Attended(api.log, from, i)
        invariant forall i :: i in infos[..n] ==> Served(api.log, from, i)
      {
        ghost var before := api.log;
        SweepStep(infos[n], begun);
        StepIsSafe(infos, before, api.log, from, infos[n]);
        NoneIsSkipped(infos, n, before, api.log, from);
        n := n + 1;
      }
      assert infos[..n] == infos;
    }

    lemma NoneIsSkipped(infos: seq<Info>, n: nat, before: Log, log: Log, from: nat)
      requires n < |infos| && from < |before| && before <= log && before[from].ClockRead?
      requires forall i :: i in infos[..n] ==> Attended(before, from, i) && Served(before, from, i)
      requires StepDone(log[|before|..], before[from].ms, infos[n])
      requires StepTail(log, |before|, before[from].ms, infos[n])
      ensures forall i :: i in infos[..n + 1] ==> Attended(log, from, i) && Served(log, from, i)
    {
      forall i | i in infos[..n] ensures Attended(log, from, i) && Served(log, from, i) {
        AttendedLasts(before, log, from, i);
        ServedLasts(before, log, from, i);
      }
      AttendedNow(before, log, from, infos[n]);
      ServedNow(before, log, from, infos[n]);
      assert infos[..n + 1] == infos[..n] + [infos[n]];
    }

    /** What one sandbox of the list may have added to the log. */
    ghost predicate StepDone(tail: Log, begun: nat, info: Info)
      reads this
    {
      if info.status.Failed? then
        && (forall k :: 0 <= k < |tail| && Destroys(tail[k]) ==> tail[k].id == info.id)
        && (exists k :: 0 <= k < |tail| && Reaped(tail[k], info))
      else if !info.status.Active? || begun < info.createdAt + GRACE then tail == []
      else
        && tail != [] && tail[0].ClockRead?
        && (if Fresh(tail[0].ms, info.launching) || info.id in waking then |tail| == 1
            else |tail| > 1 && tail[1].Connected? && tail[1].id == info.id
                 && forall k :: 0 <= k < |tail| && Destroys(tail[k]) ==> tail[k].id == info.id)
    }

    method SweepStep(info: Info, begun: nat)
      modifies api
      ensures old(api.log) <= api.log && ReleasesEarned(api.log, |old(api.log)|, info)
      ensures !info.status.Failed? ==> DestroysOnlyClaimed(api.log, |old(api.log)|, info.id)
      ensures StepDone(api.log[|old(api.log)|..], begun, info)
      ensures StepTail(api.log, |old(api.log)|, begun, info)
    {
      if info.status.Failed? {
        ReapStep(info, begun);
      } else if info.status.Active? && begun >= info.createdAt + GRACE {
        RecycleStep(info, begun);
      }
    }

    method ReapStep(info: Info, begun: nat)
      requires info.status.Failed?
      modifies api
      ensures old(api.log) <= api.log && ReleasesEarned(api.log, |old(api.log)|, info)
      ensures StepDone(api.log[|old(api.log)|..], begun, info)
      ensures StepTail(api.log, |old(api.log)|, begun, info)
    {
      ghost var start := api.log;
      ReapFailed(info);
      ReapIsSeen(start, api.log, info);
      assert forall k :: |start| <= k < |api.log| && api.log[k].Released? ==>
        Entitled(api.log, |start|, k, info, api.log[k].request);
    }

    /** Nothing for a sandbox that is being relaunched or woken. */
    method RecycleStep(info: Info, begun: nat)
      requires info.status.Active? && begun >= info.createdAt + GRACE
      modifies api
      ensures old(api.log) <= api.log && ReleasesEarned(api.log, |old(api.log)|, info)
      ensures DestroysOnlyClaimed(api.log, |old(api.log)|, info.id)
      ensures StepDone(api.log[|old(api.log)|..], begun, info)
      ensures StepTail(api.log, |old(api.log)|, begun, info)
    {
      ghost var start := api.log;
      var now := api.Now();
      if Fresh(now, info.launching) || info.id in waking {
        assert api.log[|start|..] == [ClockRead(now)];
        return;
      }
      ghost var before := api.log;
      Recycle(info);
      RecycleIsSeen(start, before, api.log, info);
      assert api.log[|start|] == before[|start|];
    }

    lemma ReapIsSeen(start: Log, log: Log, info: Info)
      requires start <= log && OnlyDestroys(log, |start|, info.id)
      requires var tail := log[|start|..];
               if IsSuperseded(info.worker) then DeleteTail(tail, info.id, info.worker, None, true)
               else LookupTail(tail, info, keyed, info, true)
      ensures var tail := log[|start|..];
              && (forall k :: 0 <= k < |tail| && Destroys(tail[k]) ==> tail[k].id == info.id)
              && (exists k :: 0 <= k < |tail| && Reaped(tail[k], info))
    {
      var tail := log[|start|..];
      assert forall k :: 0 <= k < |tail| ==> tail[k] == log[|start| + k];
      if tail[0].Killed? {
        assert Reaped(tail[0], info);
      } else if !tail[0].ok {
        assert Reaped(tail[0], info);
      } else {
        assert Reaped(tail[1], info) by { assert tail[1..][0] == tail[1]; }
      }
    }

    lemma RecycleIsSeen(start: Log, before: Log, log: Log, info: Info)
      requires start <= before <= log && |before| == |start| + 1 && before[|start|].ClockRead?
      requires !Fresh(before[|start|].ms, info.launching) && info.id !in waking && !info.status.Failed?
      requires DestroysOnlyClaimed(log, |before|, info.id) && ReleasesEntitled(log, |before|, info)
      requires Attempted(log[|before|..], info.id)
      ensures DestroysOnlyClaimed(log, |start|, info.id)
      ensures ReleasesEarned(log, |start|, info)
      ensures var tail := log[|start|..];
              && tail != [] && tail[0] == before[|start|] && |tail| > 1 && tail[1].Connected? && tail[1].id == info.id
              && forall k :: 0 <= k < |tail| && Destroys(tail[k]) ==> tail[k].id == info.id
    {
      var tail := log[|start|..];
      assert forall k :: 0 <= k < |tail| ==> tail[k] == log[|start| + k];
      assert tail[0] == before[|start|] && tail[1] == log[|before|..][0];
      forall k | |start| <= k < |log| && log[k].Released? ensures EarnedFrom(log, |start|, k, info) {
        assert log[|start|] == before[|start|];
        assert Entitled(log, |before|, k, info, log[k].request);
      }
    }

    lemma StepIsSafe(infos: seq<Info>, before: Log, log: Log, from: nat, info: Info)
      requires from < |before| && before <= log && before[from].ClockRead? && info in infos
      requires SweepSafe(infos, before, from)
      requires ReleasesEarned(log, |before|, info) && StepDone(log[|before|..], before[from].ms, info)
      requires !info.status.Failed? ==> DestroysOnlyClaimed(log, |before|, info.id)
      ensures SweepSafe(infos, log, from)
    {
      forall k | from < k < |log|
        ensures Destroys(log[k]) ==> DestroySanctioned(infos, log, from, k)
        ensures log[k].Released? ==> ReleaseEarned(infos, log, from, k)
      {
        if k < |before| {
          assert log[k] == before[k];
          SafeLasts(infos, before, log, from, k);
        } else {
          assert log[k] == log[|before|..][k - |before|];
          if Destroys(log[k]) {
            assert !info.status.Failed? ==> log[|before|] == log[|before|..][0];
            assert Sanctioned(log, from, k, info);
          }
          if log[k].Released? {
            var start :| |before| <= start <= k && Entitled(log, start, k, info, log[k].request);
          }
        }
      }
    }

    lemma SafeLasts(infos: seq<Info>, before: Log, log: Log, from: nat, k: nat)
      requires from < k < |before| && before <= log && log[k] == before[k]
      requires Destroys(before[k]) ==> DestroySanctioned(infos, before, from, k)
      requires before[k].Released? ==> ReleaseEarned(infos, before, from, k)
      ensures Destroys(log[k]) ==> DestroySanctioned(infos, log, from, k)
      ensures log[k].Released? ==> ReleaseEarned(infos, log, from, k)
    {
      assert forall j :: 0 <= j < |before| ==> log[j] == before[j];
      assert log[..k] == before[..k];
      if Destroys(log[k]) {
        var i :| i in infos && i.id == before[k].id && Sanctioned(before, from, k, i);
        assert Sanctioned(log, from, k, i);
      }
      if log[k].Released? {
        var i, start :| i in infos && from < start <= k && Entitled(before, start, k, i, before[k].request);
        EntitledLasts(before, log, start, k, i, before[k].request);
      }
    }

    lemma EntitledLasts(before: Log, log: Log, start: nat, k: nat, info: Info, request: RequestId)
      requires start <= k <= |before| && before <= log && Entitled(before, start, k, info, request)
      ensures Entitled(log, start, k, info, request)
    {
      assert log[..k] == before[..k] && log[start..k] == before[start..k];
      assert forall j :: 0 <= j < |before| ==> log[j] == before[j];
      var tags :| TagsSeen(before, start, k, info, tags) && NamedBy(before[start..k], tags, request);
      assert TagsSeen(log, start, k, info, tags);
    }

    lemma AttendedLasts(before: Log, log: Log, from: nat, info: Info)
      requires from < |before| && before <= log && Attended(before, from, info)
      ensures Attended(log, from, info)
    {
      assert forall j :: 0 <= j < |before| ==> log[j] == before[j];
      if info.status.Failed? {
        var k :| from < k < |before| && Reaped(before[k], info);
        assert Reaped(log[k], info);
      }
      if info.status.Active? && before[from].ms >= info.createdAt + GRACE && info.id !in waking {
        var k :| from < k < |before| && Visited(before[k], info);
        assert Visited(log[k], info);
      }
    }

    lemma AttendedNow(before: Log, log: Log, from: nat, info: Info)
      requires from < |before| && before <= log && before[from].ClockRead?
      requires StepDone(log[|before|..], before[from].ms, info)
      ensures Attended(log, from, info)
    {
      var tail := log[|before|..];
      assert forall k :: 0 <= k < |tail| ==> tail[k] == log[|before| + k];
      assert log[from] == before[from];
      if info.status.Failed? {
        var k :| 0 <= k < |tail| && Reaped(tail[k], info);
        assert Reaped(log[|before| + k], info);
      } else if info.status.Active? && before[from].ms >= info.createdAt + GRACE && info.id !in waking {
        assert Visited(log[|before|], info) || Visited(log[|before| + 1], info);
      }
    }

    // -------------------------------------------------------------------------
    // Waking
    // -------------------------------------------------------------------------

    /** Wake a hibernated sandbox for a follow-up request.  A failed wake hands the request
        back only after a stop confirmed since its launch. */
    method WakeOne(info: Info, worker: WorkerId, request: RequestId)
      modifies this`waking, api
      ensures old(api.log) <= api.log && NoDestroys(api.log, |old(api.log)|)
      ensures waking == old(waking) - {info.id}
      ensures WakeReleases(api.log, |old(api.log)|, info.id, request)
      ensures MarkedBeforeWake(api.log[|old(api.log)|..], info.id, worker)
      ensures WakeTail(api.log, |old(api.log)|, info.id, worker, request)
    {
      waking := waking + {info.id};
      MarkAndLaunch(info, worker, request);
      waking := waking - {info.id};
    }

    /** Mark the sandbox for relaunch before anything activates it. */
    method MarkAndLaunch(info: Info, worker: WorkerId, request: RequestId)
      modifies api
      ensures old(api.log) <= api.log && NoDestroys(api.log, |old(api.log)|)
      ensures WakeReleases(api.log, |old(api.log)|, info.id, request)
      ensures MarkedBeforeWake(api.log[|old(api.log)|..], info.id, worker)
      ensures WakeTail(api.log, |old(api.log)|, info.id, worker, request)
    {
      ghost var start := api.log;
      var stamp := MarkForWake(info.id, worker);
      if stamp.Some? {
        ghost var before := api.log;
        ConnectAndLaunch(info.id, worker, request, stamp.value);
        MarkStands(start, before, api.log, info.id, worker);
        ReleasesFrom(before, api.log, |start|, info.id, request, stamp.value);
        assert api.log[|start| + 2] == before[|start|..][2];
      }
    }

    /** The stamp of the marker, once it is written to a listed sandbox without a fresh one. */
    method MarkForWake(id: Id, worker: WorkerId) returns (stamp: Option<nat>)
      modifies api
      ensures old(api.log) <= api.log && NoDestroys(api.log, |old(api.log)|) && NoRelease(api.log, |old(api.log)|)
      ensures WakeMarked(api.log[|old(api.log)|..], id, worker)
      ensures var tail := api.log[|old(api.log)|..];
              if stamp.Some? then |tail| == 4 && tail[2] == ClockRead(stamp.value) && tail[3].ok
              else MarkedBeforeWake(tail, id, worker)
      ensures stamp.None? ==> forall request :: WakeTail(api.log, |old(api.log)|, id, worker, request)
    {
      ghost var start := |api.log|;
      var infos := api.List(worker);
      if infos.None? {
        return None;
      }
      var listed := WithId(infos.value, id);
      if listed.None? {
        return None;
      }
      var now := api.Now();
      assert api.log[start..] == [Listed(worker, infos), ClockRead(now)];
      if Fresh(now, listed.value.launching) {
        return None;
      }
      var at := api.Now();
      var marked := api.Tag(id, Relaunch(at));
      assert api.log[start..] ==
             [Listed(worker, infos), ClockRead(now), ClockRead(at), Tagged(id, Relaunch(at), marked)];
      stamp := if marked then Some(at) else None;
    }

    lemma MarkStands(start: Log, before: Log, log: Log, id: Id, worker: WorkerId)
      requires start <= before <= log && |before| == |start| + 4 && WakeMarked(before[|start|..], id, worker)
      requires before[|start|..][3].ok
      requires Attempted(log[|before|..], id)
      ensures MarkedBeforeWake(log[|start|..], id, worker)
    {
      var part, tail := before[|start|..], log[|start|..];
      assert forall k :: 0 <= k < 4 ==> tail[k] == part[k];
      assert tail[4] == log[|before|..][0];
    }

    lemma ReleasesFrom(before: Log, log: Log, from: nat, id: Id, request: RequestId, stamp: nat)
      requires from <= |before| && before <= log && NoRelease(before, from)
      requires ReleasesStopped(log, |before|, id, request, stamp)
      ensures ReleasesStopped(log, from, id, request, stamp)
    {
      assert forall k :: from <= k < |before| ==> log[k] == before[k];
    }

    method ConnectAndLaunch(id: Id, worker: WorkerId, request: RequestId, stamp: nat)
      modifies api
      ensures old(api.log) <= api.log && NoDestroys(api.log, |old(api.log)|)
      ensures ReleasesStopped(api.log, |old(api.log)|, id, request, stamp)
      ensures Attempted(api.log[|old(api.log)|..], id)
      ensures ActivateTail(api.log, |old(api.log)|, id, worker, request, stamp)
    {
      ghost var start := |api.log|;
      var up := api.Connect(id);
      ghost var first := api.log;
      if up.Up? {
        ResumeAndLaunch(id, request, stamp, up.info.status.Paused?);
        ghost var handled := api.log;
        Spawn.ClearOwnMarker(api, id, stamp);
        ClearIsQuiet(handled, api.log, id, stamp);
        ReleasesLast(handled, api.log, |first|, id, request, stamp);
        assert api.log[..|handled|] == handled;
      } else {
        ClearOwnMarkerListed(id, worker, stamp);
      }
      assert api.log[start..][0] == first[start];
    }

    /** A paused sandbox that cannot be resumed is left to the next sweep. */
    method ResumeAndLaunch(id: Id, request: RequestId, stamp: nat, paused: bool)
      modifies api
      ensures old(api.log) <= api.log && NoDestroys(api.log, |old(api.log)|)
      ensures ReleasesStopped(api.log, |old(api.log)|, id, request, stamp)
      ensures ResumeTail(api.log, |old(api.log)|, id, paused, request, stamp)
    {
      if paused {
        var up := api.Resume(id);
        if !up.Up? {
          return;
        }
      }
      var _ := LaunchOrHandBack(id, request, stamp);
    }

    lemma ClearIsQuiet(log: Log, longer: Log, id: Id, stamp: nat)
      requires log <= longer && ClearTail(longer[|log|..], id, stamp)
      ensures NoDestroys(longer, |log|)
    {
      assert forall k :: |log| <= k < |longer| ==> longer[k] == longer[|log|..][k - |log|];
    }

    lemma ReleasesLast(log: Log, longer: Log, from: nat, id: Id, request: RequestId, stamp: nat)
      requires log <= longer && ReleasesStopped(log, from, id, request, stamp) && NoRelease(longer, |log|)
      ensures ReleasesStopped(longer, from, id, request, stamp)
    {
      forall k: nat | from <= k < |longer| && longer[k].Released?
        ensures longer[k].request == request && StopEarned(longer[..k], from, id, stamp)
      {
        assert k < |log| && longer[k] == log[k];
        assert longer[..k] == log[..k];
      }
    }

    /** A launch that raised is left to the next sweep; one that left no worker running is
        stopped for certain before its request is handed back. */
    method LaunchOrHandBack(id: Id, request: RequestId, stamp: nat) returns (handedBack: bool)
      modifies api
      ensures old(api.log) <= api.log && NoDestroys(api.log, |old(api.log)|)
      ensures ReleasesStopped(api.log, |old(api.log)|, id, request, stamp)
      ensures handedBack <==> !NoRelease(api.log, |old(api.log)|)
      ensures var k := |old(api.log)|;
              && |api.log| > k && api.log[k].LaunchRan? && api.log[k].id == id
              && (if !api.log[k].result.NotRunning? then |api.log| == k + 1
                  else !handedBack ==> Doubt(api.log[k + 1..], id, stamp))
      ensures LaunchTail(api.log, |old(api.log)|, id, request, stamp)
    {
      ghost var start := |api.log|;
      var result := api.Launch(id);
      ghost var launched := api.log;
      handedBack := false;
      if result.NotRunning? {
        handedBack := HandBackAfterStop(id, request, stamp);
        StopIsSince(launched, api.log, start, id, request, stamp);
        assert api.log[start] == launched[start];
      }
    }

    lemma StopIsEarned(log: Log, start: nat, id: Id, stamp: nat, tail: Log)
      requires start < |log| && log[start] == LaunchRan(id, NotRunning)
      requires tail == log[start + 1..] && WakeStopped(tail, id, stamp)
      ensures StopEarned(log, start, id, stamp)
    {
      assert log[start..][1..] == tail;
      assert StoppedSince(log[start..], id, stamp);
    }

    lemma StopIsSince(launched: Log, log: Log, start: nat, id: Id, request: RequestId, stamp: nat)
      requires start + 1 == |launched| && launched <= log && launched[start] == LaunchRan(id, NotRunning)
      requires forall k :: |launched| <= k < |log| && log[k].Released? ==>
                 log[k].request == request && WakeStopped(log[|launched|..k], id, stamp)
      ensures ReleasesStopped(log, start, id, request, stamp)
    {
      forall k: nat | start <= k < |log| && log[k].Released?
        ensures log[k].request == request && StopEarned(log[..k], start, id, stamp)
      {
        assert log[start] == launched[start];
        StopIsEarned(log[..k], start, id, stamp, log[|launched|..k]);
      }
    }

    /** After a failed activation the marker is read through a listing, which does not
        wake the sandbox. */
    method ClearOwnMarkerListed(id: Id, worker: WorkerId, stamp: nat)
      modifies api
      ensures old(api.log) <= api.log && NoDestroys(api.log, |old(api.log)|) && NoRelease(api.log, |old(api.log)|)
      ensures ListedClearTail(api.log[|old(api.log)|..], id, worker, stamp)
    {
      var infos := api.List(worker);
      if infos.Some? {
        var listed := WithId(infos.value, id);
        if listed.Some? && listed.value.launching == Some(stamp) {
          var _ := api.Tag(id, ClearRelaunch);
        }
      }
    }

    /** Whether another launcher's fresh marker is stored; None when it cannot be read. */
    method OwnedByAnother(id: Id, stamp: nat) returns (owned: Option<bool>)
      modifies api
      ensures old(api.log) <= api.log && OwnerRead(api.log[|old(api.log)|..], id, stamp, owned)
    {
      var found := api.GetInfo(id);
      if found.None? {
        return None;
      }
      var now := api.Now();
      owned := Some(OthersMarker(found.value, stamp, now));
    }

    /** Stop what survived a failed launch, unless another launcher owns the sandbox. */
    method ConfirmStop(id: Id, stamp: nat) returns (confirmed: bool)
      modifies api
      ensures old(api.log) <= api.log && NoDestroys(api.log, |old(api.log)|) && NoRelease(api.log, |old(api.log)|)
      ensures confirmed <==> StopConfirmed(api.log[|old(api.log)|..], 0, id)
      ensures StopUnowned(api.log[|old(api.log)|..], id, stamp)
      ensures !confirmed ==> Doubt(api.log[|old(api.log)|..], id, stamp)
    {
      ghost var start := api.log;
      var owned := OwnedByAnother(id, stamp);
      ghost var read := api.log[|start|..];
      ReadIsQuiet(start, api.log, id, stamp, owned);
      if owned != Some(false) {
        return false;
      }
      ghost var unowned := api.log;
      confirmed := StopAndProbe(id);
      assert api.log[|start|..] == read + api.log[|unowned|..];
      StopFacts(read, api.log[|unowned|..], id, stamp, confirmed);
    }

    /** A reading changes nothing, and one that shows another launcher keeps the claim. */
    lemma ReadIsQuiet(start: Log, log: Log, id: Id, stamp: nat, owned: Option<bool>)
      requires start <= log && OwnerRead(log[|start|..], id, stamp, owned)
      ensures NoDestroys(log, |start|) && NoRelease(log, |start|)
      ensures var read := log[|start|..];
              && StopUnowned(read, id, stamp) && !StopConfirmed(read, 0, id)
              && (owned != Some(false) ==> Doubt(read, id, stamp))
    {
      var read := log[|start|..];
      assert forall k :: |start| <= k < |log| ==> log[k] == read[k - |start|];
      assert read[|read| - |read|..] == read;
    }

    /** stop.sh, and a probe behind it if it succeeds. */
    ghost predicate StopTail(tail: Log, id: Id, confirmed: bool) {
      || (tail == [StopRan(id, false)] && !confirmed)
      || (|tail| == 2 && tail[0] == StopRan(id, true) && tail[1].Probed? && tail[1].id == id
          && confirmed == StoppedState(tail[1].state))
    }

    method StopAndProbe(id: Id) returns (confirmed: bool)
      modifies api
      ensures old(api.log) <= api.log && NoDestroys(api.log, |old(api.log)|) && NoRelease(api.log, |old(api.log)|)
      ensures StopTail(api.log[|old(api.log)|..], id, confirmed)
    {
      ghost var start := |api.log|;
      var stopped := api.Stop(id);
      assert api.log[start..] == [StopRan(id, stopped)];
      if !stopped {
        return false;
      }
      var after := api.Probe(id);
      assert api.log[start..] == [StopRan(id, true), Probed(id, after)];
      confirmed := StoppedState(after);
    }

    lemma StopFacts(read: Log, stop: Log, id: Id, stamp: nat, confirmed: bool)
      requires OwnerRead(read, id, stamp, Some(false)) && StopTail(stop, id, confirmed)
      ensures confirmed <==> StopConfirmed(read + stop, 0, id)
      ensures StopUnowned(read + stop, id, stamp) && (!confirmed ==> Doubt(read + stop, id, stamp))
    {
      var tail := read + stop;
      assert tail[..2] == read && tail[2] == stop[0];
      if |stop| == 2 {
        assert tail[3] == stop[1];
        if confirmed { assert tail[2] == StopRan(id, true) && FoundStopped(tail[3], id); }
      }
    }

    /** Make sure nothing runs, then hand the request of a failed wake back. */
    method HandBackAfterStop(id: Id, request: RequestId, stamp: nat) returns (handedBack: bool)
      modifies api
      ensures old(api.log) <= api.log && NoDestroys(api.log, |old(api.log)|)
      ensures handedBack <==> !NoRelease(api.log, |old(api.log)|)
      ensures forall k :: |old(api.log)| <= k < |api.log| && api.log[k].Released? ==>
                api.log[k].request == request && WakeStopped(api.log[|old(api.log)|..k], id, stamp)
      ensures !handedBack ==> Doubt(api.log[|old(api.log)|..], id, stamp)
      ensures StopUnowned(api.log[|old(api.log)|..], id, stamp)
    {
      ghost var start := api.log;
      var confirmed := ConfirmStop(id, stamp);
      if !confirmed {
        return false;
      }
      ghost var stopped := api.log;
      var clear := Revalidate(id, stamp);
      StopLasts(stopped, api.log, start, id, stamp);
      if !clear {
        DoubtLasts(stopped, api.log, start, id, stamp);
        return false;
      }
      ghost var before := api.log;
      ClearIsStopped(stopped, before, start, id, stamp);
      ReleaseAndForget(id, request);
      assert api.log[|start|..|before|] == before[|start|..];
      ReleaseStopsNothing(before, api.log, start, id, stamp);
      handedBack := true;
    }

    lemma ReleaseStopsNothing(before: Log, log: Log, start: Log, id: Id, stamp: nat)
      requires start <= before <= log && StopUnowned(before[|start|..], id, stamp)
      requires forall k :: |before| <= k < |log| ==> !log[k].StopRan?
      ensures StopUnowned(log[|start|..], id, stamp)
    {
      var part, tail := before[|start|..], log[|start|..];
      forall k | 0 <= k < |tail| && tail[k].StopRan? ensures k == 2 && OwnerRead(tail[..2], id, stamp, Some(false)) {
        assert tail[k] == log[|start| + k];
        assert part[k] == tail[k];
        assert tail[..2] == part[..2];
      }
    }

    lemma ClearIsStopped(stopped: Log, log: Log, start: Log, id: Id, stamp: nat)
      requires start <= stopped <= log && |log| == |stopped| + 3
      requires StopUnowned(log[|start|..], id, stamp) && StopConfirmed(log[|start|..], 0, id)
      requires Cleared(log[|stopped|..], id, stamp)
      ensures WakeStopped(log[|start|..], id, stamp)
    {
      var part, tail := log[|stopped|..], log[|start|..];
      assert tail[|tail| - 3..|tail| - 1] == part[..2];
      assert tail[|tail| - 1] == part[2];
    }

    /** One more reading without another launcher's marker, and one more probe without a worker. */
    ghost predicate Cleared(tail: Log, id: Id, stamp: nat) {
      && |tail| == 3 && OwnerRead(tail[..2], id, stamp, Some(false))
      && tail[2].Probed? && tail[2].id == id && !tail[2].state.Running?
    }

    lemma StopLasts(stopped: Log, log: Log, start: Log, id: Id, stamp: nat)
      requires start <= stopped <= log && StopConfirmed(stopped[|start|..], 0, id)
      requires StopUnowned(stopped[|start|..], id, stamp) && forall k :: |stopped| <= k < |log| ==> !log[k].StopRan?
      ensures StopConfirmed(log[|start|..], 0, id) && StopUnowned(log[|start|..], id, stamp)
    {
      var part, tail := stopped[|start|..], log[|start|..];
      var i, j :| 0 <= i < j < |part| && part[i] == StopRan(id, true) && FoundStopped(part[j], id);
      assert tail[i] == part[i] && tail[j] == part[j];
      ReleaseStopsNothing(stopped, log, start, id, stamp);
    }

    lemma DoubtLasts(stopped: Log, log: Log, start: Log, id: Id, stamp: nat)
      requires start <= stopped <= log && |stopped| < |log| && Contested(log[|stopped|..], id, stamp)
      ensures Doubt(log[|start|..], id, stamp)
    {
      var part, tail := log[|stopped|..], log[|start|..];
      assert tail[|tail| - 1] == part[|part| - 1];
      if part[|part| - 1].ClockRead? {
        assert tail[|tail| - 2..] == part[|part| - 2..];
      }
    }

    /** Another launcher's marker, unreadable tags, or a worker that started meanwhile. */
    ghost predicate Contested(tail: Log, id: Id, stamp: nat) {
      && tail != []
      && var last := tail[|tail| - 1];
         || last == InfoRead(id, None)
         || (last.Probed? && last.id == id && last.state.Running?)
         || (last.ClockRead? && |tail| >= 2 && OwnerRead(tail[|tail| - 2..], id, stamp, Some(true)))
    }

    /** Right before the release: no other launcher, and no worker that started meanwhile. */
    method Revalidate(id: Id, stamp: nat) returns (clear: bool)
      modifies api
      ensures old(api.log) <= api.log && NoDestroys(api.log, |old(api.log)|) && NoRelease(api.log, |old(api.log)|)
      ensures |api.log| > |old(api.log)| && forall k :: |old(api.log)| <= k < |api.log| ==> !api.log[k].StopRan?
      ensures var tail := api.log[|old(api.log)|..];
              if clear then Cleared(tail, id, stamp) else Contested(tail, id, stamp)
    {
      ghost var start := api.log;
      var owned := OwnedByAnother(id, stamp);
      ghost var read := api.log[|start|..];
      assert forall k :: |start| <= k < |api.log| ==> api.log[k] == read[k - |start|];
      if owned != Some(false) {
        assert read[|read| - |read|..] == read;
        return false;
      }
      var again := api.Probe(id);
      assert api.log[|start|..][..2] == read;
      clear := !again.Running?;
    }

    /** A released request is dropped from the tags, or a sweep would release it once more. */
    method ReleaseAndForget(id: Id, request: RequestId)
      modifies api
      ensures var k := |old(api.log)|;
              && old(api.log) <= api.log && k < |api.log| && api.log[k].Released? && api.log[k].request == request
              && (if api.log[k].ok
                  then |api.log| == k + 2 && api.log[k + 1].Tagged? && api.log[k + 1].id == id
                       && api.log[k + 1].write == ForgetRequest
                  else |api.log| == k + 1)
    {
      var ok := api.Release(request);
      if ok {
        var _ := api.Tag(id, ForgetRequest);
      }
    }
  }
}
