/**
 The spawn hook: reuse the worker's sandbox, or supersede it and create a new one,
 elect among rivals, launch, and tear down what this attempt started when something
 fails.  An exception of main is a failed answer here, and its outer handler is
 HandleError.
 */
module Spawn {
  import opened Options
  import opened Markers
  import opened FleetApi

  /** rivals.sort(key=(created_at, id)) and its first element. */
  function Oldest(infos: seq<Info>): (r: Option<Info>)
    ensures r.None? <==> NoOther(infos, None)
    ensures r.Some? ==> r.value in infos && Live(r.value.status)
    ensures r.Some? ==> forall i :: i in infos && Live(i.status) ==> NotYounger(r.value, i)
  {
    if infos == [] then None
    else
      var rest := Oldest(infos[1..]);
      assert infos == [infos[0]] + infos[1..];
      if !Live(infos[0].status) then rest
      else if rest.None? || NotYounger(infos[0], rest.value) then Some(infos[0])
      else rest
  }

  predicate NotYounger(a: Info, b: Info) {
    a.createdAt < b.createdAt || (a.createdAt == b.createdAt && a.id <= b.id)
  }

  /** Another live sandbox of the worker may be serving the request. */
  method ReplacementExists(api: Api, worker: WorkerId, exclude: Option<Id>) returns (found: bool)
    modifies api
    ensures old(api.log) <= api.log
    ensures SpawnSafe(old(api.log), worker) ==> SpawnSafe(api.log, worker)
    ensures var k := |old(api.log)|; |api.log| == k + 1 && api.log[k].Listed? && api.log[k].worker == worker
    ensures !found <==> NoReplacement(api.log, worker, exclude)
  {
    var infos := api.List(worker);
    found := infos.None? || !NoOtherLive(infos.value, exclude);
  }

  predicate NoOtherLive(infos: seq<Info>, exclude: Option<Id>)
    ensures NoOtherLive(infos, exclude) <==> NoOther(infos, exclude)
  {
    if infos == [] then true
    else
      assert infos == [infos[0]] + infos[1..];
      (Live(infos[0].status) ==> exclude == Some(infos[0].id)) && NoOtherLive(infos[1..], exclude)
  }

  predicate Shown(infos: seq<Info>, id: Id)
    ensures Shown(infos, id) <==> ShownIn(infos, id)
  {
    if infos == [] then false
    else
      assert infos == [infos[0]] + infos[1..];
      (infos[0].id == id && !infos[0].status.Deleted?) || Shown(infos[1..], id)
  }

  ghost predicate ReleasesOnly(log: Log, from: nat, request: RequestId) {
    forall i :: from <= i < |log| && log[i].Released? ==> log[i].request == request
  }

  ghost predicate NoCreateOrLaunch(log: Log, from: nat) {
    forall i :: from <= i < |log| ==> !log[i].Created? && !log[i].LaunchRan?
  }

  /** Delete the sandbox this attempt created, or stop the worker in one it found. */
  method Quell(api: Api, s: Info, created: bool) returns (down: bool)
    modifies api
    ensures old(api.log) <= api.log && NoRelease(api.log, |old(api.log)|) && NoCreateOrLaunch(api.log, |old(api.log)|)
    ensures forall w :: SpawnSafe(old(api.log), w) ==> SpawnSafe(api.log, w)
    ensures forall i :: |old(api.log)| <= i < |api.log| ==> !api.log[i].Listed?
    ensures down <==> KillDone(api.log, |old(api.log)|, s.id) || StopConfirmed(api.log, |old(api.log)|, s.id)
    ensures Quelled(api.log, |old(api.log)|, s.id, created)
  {
    ghost var start := |api.log|;
    if created {
      down := api.Kill(s.id);
      assert api.log[start] == Killed(s.id, down);
      assert !StopConfirmed(api.log, start, s.id);
    } else {
      down := api.Stop(s.id);
      assert api.log[start] == StopRan(s.id, down);
      if down {
        var after := api.Probe(s.id);
        down := StoppedState(after);
        assert api.log[start] == StopRan(s.id, true) && api.log[start + 1] == Probed(s.id, after);
        assert down <==> FoundStopped(api.log[start + 1], s.id);
      }
      assert !KillDone(api.log, start, s.id);
    }
  }

  /** From that call on: a sandbox of its own is deleted; in one it found the worker is
      stopped, and a stop that succeeds is checked by a probe. */
  ghost predicate Quelled(log: Log, k: nat, id: Id, created: bool) {
    && k < |log|
    && (if created then log[k].Killed? && log[k].id == id
        else
          && log[k].StopRan? && log[k].id == id
          && (log[k].ok ==> |log| > k + 1 && log[k + 1].Probed? && log[k + 1].id == id))
  }

  /** Tear the sandbox down.  It counts as torn down when its delete succeeded, when a
      stop is confirmed by a probe, or when a listing under its own worker id no longer
      shows it; and, with no listing at all, when it carries no worker id. */
  method TearDown(api: Api, s: Info, created: bool) returns (down: bool)
    modifies api
    ensures old(api.log) <= api.log && NoRelease(api.log, |old(api.log)|) && NoCreateOrLaunch(api.log, |old(api.log)|)
    ensures forall w :: SpawnSafe(old(api.log), w) ==> SpawnSafe(api.log, w)
    ensures down <==> TornDown(api.log, |old(api.log)|, s) || s.worker.None?
    ensures !down ==> |api.log| > |old(api.log)| && Blocks(api.log[|api.log| - 1], s.id)
    ensures Quelled(api.log, |old(api.log)|, s.id, created)
  {
    ghost var start := |api.log|;
    down := Quell(api, s, created);
    if !down {
      if s.worker.None? {
        down := true;
      } else {
        ghost var quelled := api.log;
        var listing := api.List(s.worker.value);
        ghost var last := api.log[|quelled|];
        assert last == Listed(s.worker.value, listing);
        down := listing.Some? && !Shown(listing.value, s.id);
        assert down <==> ListedWithout(last, s.worker.value, s.id);
        assert down <==> Vanished(api.log, start, s.worker.value, s.id);
        assert !KillDone(api.log, start, s.id) && !StopConfirmed(api.log, start, s.id) by {
          assert !FoundStopped(last, s.id);
        }
      }
    }
  }

  /** Tear down, then hand the request back: last, never on a guess, and whenever the
      evidence is complete. */
  method Abandon(api: Api, sandbox: Option<Info>, created: bool, worker: WorkerId, request: Option<RequestId>,
                 ghost at: nat)
    returns (done: bool, handedBack: bool)
    requires sandbox.Some? ==> HandledAt(api.log, at, sandbox.value)
    requires sandbox.None? ==> NothingHandled(api.log) && AbsenceConfirmed(api.log, worker)
    modifies api
    ensures old(api.log) <= api.log && NoCreateOrLaunch(api.log, |old(api.log)|)
    ensures SpawnSafe(old(api.log), worker) ==> SpawnSafe(api.log, worker)
    ensures !done <==> sandbox.Some? && sandbox.value.worker.Some? && !TornDown(api.log, |old(api.log)|, sandbox.value)
    ensures handedBack <==> !NoRelease(api.log, |old(api.log)|)
    ensures handedBack ==> request.Some? && ReleasesOnly(api.log, |old(api.log)|, request.value)
    ensures NoRelease(old(api.log), 0) ==> OneRelease(api.log, request)
    ensures sandbox.Some? && !TornDown(api.log, |old(api.log)|, sandbox.value) ==>
              (done <==> sandbox.value.worker.None?)
    ensures !done ==> |api.log| > |old(api.log)| && Blocks(api.log[|api.log| - 1], sandbox.value.id)
    ensures done && request.Some? && !handedBack ==>
              |api.log| > |old(api.log)| && api.log[|api.log| - 1].Listed? && api.log[|api.log| - 1].worker == worker
              && !NoReplacement(api.log, worker, if sandbox.Some? then Some(sandbox.value.id) else None)
    ensures sandbox.Some? ==> Quelled(api.log, |old(api.log)|, sandbox.value.id, created)
    ensures sandbox.None? ==>
              if request.None? then api.log == old(api.log)
              else HandBackTail(api.log, |old(api.log)|, worker, None, request.value, false)
  {
    ghost var start := api.log;
    handedBack := false;
    if sandbox.Some? {
      done := TearDown(api, sandbox.value, created);
      if !done {
        return;
      }
    }
    done := true;
    ghost var torn := api.log;
    if request.Some? {
      if sandbox.Some? {
        assert at <= |start| && HandledAt(torn, at, sandbox.value);
        assert QuietSince(torn, |start|, sandbox.value);
      }
      handedBack := HandBack(api, sandbox, created, worker, request.value, |start|);
      if sandbox.Some? && sandbox.value.worker.Some? {
        EvidenceLasts(torn, api.log, |start|, sandbox.value);
      }
    }
  }

  /** Release the claim unless a replacement may be serving it, and forget the request. */
  method HandBack(api: Api, sandbox: Option<Info>, created: bool, worker: WorkerId, request: RequestId, ghost from: nat)
    returns (handedBack: bool)
    requires sandbox.Some? ==> QuietSince(api.log, from, sandbox.value)
    requires sandbox.None? ==> NothingHandled(api.log) && AbsenceConfirmed(api.log, worker)
    modifies api
    ensures old(api.log) <= api.log && NoCreateOrLaunch(api.log, |old(api.log)|)
    ensures SpawnSafe(old(api.log), worker) ==> SpawnSafe(api.log, worker)
    ensures handedBack <==> !NoRelease(api.log, |old(api.log)|)
    ensures ReleasesOnly(api.log, |old(api.log)|, request)
    ensures NoRelease(old(api.log), 0) ==> OneRelease(api.log, Some(request))
    ensures !handedBack ==>
              |api.log| > |old(api.log)| && api.log[|api.log| - 1].Listed? && api.log[|api.log| - 1].worker == worker
              && !NoReplacement(api.log, worker, if sandbox.Some? then Some(sandbox.value.id) else None)
    ensures HandBackTail(api.log, |old(api.log)|, worker, if sandbox.Some? then Some(sandbox.value.id) else None,
                         request, sandbox.Some? && !created)
  {
    ghost var torn := api.log;
    var exclude := if sandbox.Some? then Some(sandbox.value.id) else None;
    var replaced := ReplacementExists(api, worker, exclude);
    if replaced {
      return false;
    }
    ghost var cleared := api.log;
    assert MayRelease(cleared, worker) by {
      if sandbox.Some? {
        QuietLasts(torn, cleared, from, sandbox.value);
      } else {
        AbsenceLasts(torn, cleared, worker);
      }
    }
    var released := api.Release(request);
    handedBack := true;
    ghost var k := |cleared|;
    assert api.log[k].Released?;
    if SpawnSafe(torn, worker) {
      KeepSpawnSafe(cleared, Released(request, released), worker);
    }
    if released && sandbox.Some? && !created {
      var _ := api.Tag(sandbox.value.id, ForgetRequest);
      assert api.log[k].Released?;
    }
  }

  /** From that call on: a listing, a release exactly if it shows no live replacement, and
      behind a release that succeeded the request is forgotten in a sandbox that stays. */
  ghost predicate HandBackTail(log: Log, k: nat, worker: WorkerId, exclude: Option<Id>, request: RequestId,
                               stays: bool)
  {
    && k < |log| && log[k].Listed? && log[k].worker == worker
    && (if log[k].infos.None? || !NoOther(log[k].infos.value, exclude) then |log| == k + 1
        else
          && |log| >= k + 2 && log[k + 1].Released? && log[k + 1].request == request
          && (if log[k + 1].ok && stays && exclude.Some? then
                && |log| == k + 3 && log[k + 2].Tagged? && log[k + 2].id == exclude.value
                && log[k + 2].write == ForgetRequest
              else |log| == k + 2))
  }

  /** However a teardown ends, the request was handed back or a listing stood against it. */
  lemma AbandonHandles(before: Log, log: Log, longer: Log, s: Info, worker: WorkerId, request: Option<RequestId>,
                       done: bool, handedBack: bool)
    requires before != [] && before <= log <= longer
    requires handedBack ==> !NoRelease(log, |before|) && request.Some? && ReleasesOnly(log, |before|, request.value)
    requires !done ==> |log| > |before| && Blocks(log[|log| - 1], s.id)
    requires done && request.Some? && !handedBack ==>
               |log| > |before| && log[|log| - 1].Listed? && log[|log| - 1].worker == worker
               && !NoReplacement(log, worker, Some(s.id))
    ensures Handled(longer, |before| - 1, s.id, request)
  {
    if handedBack {
      var i :| |before| <= i < |log| && log[i].Released?;
      assert longer[i] == log[i];
    } else if request.Some? {
      assert Blocks(log[|log| - 1], s.id) && longer[|log| - 1] == log[|log| - 1];
    }
  }

  lemma OnlyLaunchHandled(launched: Log, log: Log, request: Option<RequestId>)
    requires launched != [] && launched <= log && launched[|launched| - 1].LaunchRan?
    requires NoCreateOrLaunch(log, |launched|) && forall i :: 0 <= i < |launched| - 1 ==> !log[i].LaunchRan?
    requires !launched[|launched| - 1].result.Started? ==>
               Handled(log, |launched| - 1, launched[|launched| - 1].id, request)
    ensures LaunchFailuresHandled(log, request)
  {
    assert log[|launched| - 1] == launched[|launched| - 1];
  }

  lemma EvidenceLasts(log: Log, longer: Log, from: nat, s: Info)
    requires log <= longer && TornDown(log, from, s)
    ensures TornDown(longer, from, s)
  {
    if StopConfirmed(log, from, s.id) {
      var i, j :| from <= i < j < |log| && log[i] == StopRan(s.id, true) && FoundStopped(log[j], s.id);
      assert longer[i] == log[i] && longer[j] == log[j];
    }
    if s.worker.Some? && Vanished(log, from, s.worker.value, s.id) {
      VanishedLasts(log, longer, from, s.worker.value, s.id);
    }
  }

  lemma QuietLasts(log: Log, longer: Log, from: nat, s: Info)
    requires log <= longer && QuietSince(log, from, s) && NoLaunch(longer, |log|)
    ensures QuietSince(longer, from, s)
  {
    var at: nat :| at <= from && HandledAt(log, at, s);
    assert HandledAt(longer, at, s);
    assert forall i :: 0 <= i < |log| ==> longer[i] == log[i];
    if TornDown(log, from, s) { EvidenceLasts(log, longer, from, s); }
  }

  lemma VanishedLasts(log: Log, longer: Log, from: nat, worker: WorkerId, id: Id)
    requires log <= longer && Vanished(log, from, worker, id)
    ensures Vanished(longer, from, worker, id)
  {
    var i :| from <= i < |log| && ListedWithout(log[i], worker, id);
    assert longer[i] == log[i];
  }

  lemma AbsenceLasts(log: Log, longer: Log, worker: WorkerId)
    requires log <= longer && AbsenceConfirmed(log, worker)
    ensures AbsenceConfirmed(longer, worker)
  {
    if !NoOther(log[0].infos.value, None) {
      var id :| Sighted(log, worker, id) && (Superseded(id, true) in log || Vanished(log, 1, worker, id));
      assert Sighted(longer, worker, id);
      if Vanished(log, 1, worker, id) {
        VanishedLasts(log, longer, 1, worker, id);
      }
    }
  }

  // ---------------------------------------------------------------------------
  // The hook
  // ---------------------------------------------------------------------------

  /** The outer exception handler of main. */
  method HandleError(api: Api, sandbox: Option<Info>, created: bool, absent: bool, worker: WorkerId,
                     request: Option<RequestId>, stamp: nat, ghost at: nat)
    requires SpawnSafe(api.log, worker)
    requires sandbox.Some? ==> HandledAt(api.log, at, sandbox.value)
    requires sandbox.None? ==> NothingHandled(api.log)
    requires absent ==> AbsenceConfirmed(api.log, worker)
    modifies api
    ensures old(api.log) <= api.log && SpawnSafe(api.log, worker)
    ensures NoCreateOrLaunch(api.log, |old(api.log)|)
    ensures sandbox.None? && !absent ==> api.log == old(api.log)
    ensures NoRelease(old(api.log), 0) ==> OneRelease(api.log, request)
    ensures sandbox.Some? && old(api.log) != [] ==> Handled(api.log, |old(api.log)| - 1, sandbox.value.id, request)
    ensures sandbox.Some? ==> Quelled(api.log, |old(api.log)|, sandbox.value.id, created)
    ensures sandbox.Some? && !created ==> EndsCleared(api.log, |old(api.log)|, sandbox.value.id, stamp)
    ensures sandbox.None? && absent ==>
              if request.None? then api.log == old(api.log)
              else HandBackTail(api.log, |old(api.log)|, worker, None, request.value, false)
  {
    if sandbox.None? && !absent {
      return; // it is open whether the worker already runs: keep the claim
    }
    ghost var before := api.log;
    var done, handedBack := Abandon(api, sandbox, created, worker, request, at);
    ghost var abandoned := api.log;
    if sandbox.Some? && !created {
      ClearOwnMarker(api, sandbox.value.id, stamp);
      assert ClearTail(api.log[|abandoned|..], sandbox.value.id, stamp);
    }
    if sandbox.Some? && before != [] {
      AbandonHandles(before, abandoned, api.log, sandbox.value, worker, request, done, handedBack);
    }
  }

  /** Last of all, the marker of this attempt is taken back. */
  ghost predicate EndsCleared(log: Log, from: nat, id: Id, stamp: nat) {
    exists m :: from <= m <= |log| && ClearTail(log[m..], id, stamp)
  }

  /** One read; a write only when the marker is still this attempt's. */
  method ClearOwnMarker(api: Api, id: Id, stamp: nat)
    modifies api
    ensures old(api.log) <= api.log && ClearTail(api.log[|old(api.log)|..], id, stamp)
    ensures NoRelease(api.log, |old(api.log)|) && NoCreateOrLaunch(api.log, |old(api.log)|)
    ensures forall w :: SpawnSafe(old(api.log), w) ==> SpawnSafe(api.log, w)
  {
    var found := api.GetInfo(id);
    if found.Some? && found.value.launching == Some(stamp) {
      var _ := api.Tag(id, ClearRelaunch);
    }
  }

  datatype Verdict =
    | Unreadable  // the listing raised
    | Ours        // listed, with no fresh recycle marker
    | Retired     // gone, or retagged so that no listing shows it
    | Stuck       // being recycled, and the retag failed

  /** Read the recycle marker of the sandbox; retire it if the monitor is at it. */
  method ReadRecycling(api: Api, worker: WorkerId, id: Id) returns (v: Verdict)
    requires api.log != []
    modifies api
    ensures old(api.log) <= api.log && NoRelease(api.log, |old(api.log)|) && NoCreateOrLaunch(api.log, |old(api.log)|)
    ensures forall w :: SpawnSafe(old(api.log), w) ==> SpawnSafe(api.log, w)
    ensures NothingHandled(old(api.log)) ==> NothingHandled(api.log)
    ensures v.Retired? ==> Superseded(id, true) in api.log || Vanished(api.log, 1, worker, id)
    ensures Read(api.log[|old(api.log)|..], worker, id, v)
  {
    ghost var k := |api.log|;
    var infos := api.List(worker);
    assert api.log[k] == Listed(worker, infos);
    if infos.None? {
      return Unreadable;
    }
    var info := WithId(infos.value, id);
    if info.None? {
      assert ListedWithout(api.log[k], worker, id);
      return Retired;
    }
    var now := api.Now();
    if !Fresh(now, info.value.recycling) {
      return Ours;
    }
    var ok := api.Supersede(id);
    assert api.log[k + 2] == Superseded(id, ok);
    v := if ok then Retired else Stuck;
  }

  /** The verdict is decided by one listing and the time: a sandbox that is listed stays
      ours exactly if its recycle marker is not fresh, and is retired only by a retag. */
  ghost predicate Read(tail: Log, worker: WorkerId, id: Id, v: Verdict) {
    && tail != [] && tail[0].Listed? && tail[0].worker == worker
    && (v.Unreadable? <==> tail[0].infos.None?)
    && (v.Unreadable? ==> |tail| == 1)
    && (tail[0].infos.Some? ==>
          var found := WithId(tail[0].infos.value, id);
          if found.None? then v.Retired? && |tail| == 1
          else
            && |tail| >= 2 && tail[1].ClockRead?
            && (v.Ours? <==> !Fresh(tail[1].ms, found.value.recycling))
            && (v.Ours? ==> |tail| == 2)
            && (!v.Ours? ==> |tail| == 3 && tail[2] == Superseded(id, v.Retired?)))
  }

  /** Own sandbox created: keep it only if no older live rival is listed. */
  method Elect(api: Api, worker: WorkerId, own: Info) returns (listed: bool, won: bool)
    modifies api
    ensures old(api.log) <= api.log && NoRelease(api.log, |old(api.log)|) && NoCreateOrLaunch(api.log, |old(api.log)|)
    ensures forall w :: SpawnSafe(old(api.log), w) ==> SpawnSafe(api.log, w)
    ensures var k := |old(api.log)|;
            && k < |api.log| && api.log[k].Listed? && api.log[k].worker == worker
            && (listed <==> api.log[k].infos.Some?)
            && (listed ==> (won <==> !OlderRival(api.log[k].infos.value, own.id)))
    ensures !listed || won ==> |api.log| == |old(api.log)| + 1
    ensures listed && !won ==> Discarded(api.log[|old(api.log)| + 1..], own.id)
  {
    ghost var k := |api.log|;
    var infos := api.List(worker);
    assert api.log[k] == Listed(worker, infos);
    if infos.None? {
      return false, false;
    }
    var oldest := Oldest(infos.value);
    if oldest.Some? && oldest.value.id != own.id {
      var retagged := api.Supersede(own.id);
      if retagged {
        var _ := api.Kill(own.id);
      }
      return true, false;
    }
    return true, true;
  }

  /** The loser is retagged first, so that no listing shows it, and then deleted. */
  ghost predicate Discarded(tail: Log, own: Id) {
    && tail != [] && tail[0].Superseded? && tail[0].id == own
    && (if tail[0].ok then |tail| == 2 && tail[1].Killed? && tail[1].id == own else |tail| == 1)
  }

  /** The oldest live sandbox of a listing is not the given one. */
  ghost predicate OlderRival(infos: seq<Info>, own: Id) {
    Oldest(infos).Some? && Oldest(infos).value.id != own
  }

  /** The hook created a sandbox and then listed an older rival. */
  ghost predicate ElectionLost(log: Log, worker: WorkerId) {
    exists k :: 0 < k < |log| && LostAt(log, k, worker)
  }

  ghost predicate LostAt(log: Log, k: nat, worker: WorkerId)
    requires 0 < k < |log|
  {
    && log[k - 1].Created? && log[k - 1].info.Some?
    && log[k].Listed? && log[k].worker == worker && log[k].infos.Some?
    && OlderRival(log[k].infos.value, log[k - 1].info.value.id)
  }

  /** A new sandbox is created only when nothing else can be serving the worker id. */
  ghost predicate CreatesOnlyWhenAbsent(log: Log, worker: WorkerId) {
    forall i :: 0 <= i < |log| && log[i].Created? ==> AbsenceConfirmed(log[..i], worker)
  }

  ghost predicate WorkerSeenUp(log: Log) {
    exists i ::
      0 <= i < |log| && ((log[i].LaunchRan? && log[i].result.Started?) || (log[i].Probed? && log[i].state.Running?))
  }

  /** What holds of the log of a whole invocation, and of every prefix of it that ends
      before a sandbox is created. */
  ghost predicate Before(log: Log, worker: WorkerId) {
    && log != [] && SpawnSafe(log, worker)
    && (forall i :: 0 <= i < |log| ==> !log[i].Created?)
  }

  datatype Prepared =
    | Ended(code: int)
    | Reuse(sandbox: Info)
    | Replace(left: Option<Info>)

  // What each answer leads to, call by call.  The calls of a step stand in the log from k on.

  /** The first listing failed, showed no live sandbox, or showed one, whose relaunch marker
      is then written; a marker that cannot be written ends the invocation. */
  ghost predicate Prepares(log: Log, worker: WorkerId, request: Option<RequestId>, stamp: nat, r: Prepared) {
    && log != [] && log[0].Listed? && log[0].worker == worker && NoLaunch(log, 0)
    && (if log[0].infos.None? then |log| == 1 && r == Ended(1)
        else if NoOther(log[0].infos.value, None) then |log| == 1 && r == Replace(None)
        else
          && |log| >= 2 && FirstLive(log[0].infos.value).Some?
          && log[1].Tagged? && log[1].id == FirstLive(log[0].infos.value).value.id && log[1].write == Relaunch(stamp)
          && (if !log[1].ok then |log| == 2 && r == Ended(1)
              else MarkedLeads(log, worker, log[1].id, request, stamp, r)))
  }

  /** The marker was written: a failed listing or retag ends the invocation, a sandbox that is
      gone or was retagged is replaced, and one that stays ours is activated. */
  ghost predicate MarkedLeads(log: Log, worker: WorkerId, id: Id, request: Option<RequestId>, stamp: nat, r: Prepared)
    requires |log| >= 2
  {
    || (Read(log[2..], worker, id, Unreadable) && r == Ended(1))
    || (Read(log[2..], worker, id, Stuck) && r == Ended(1))
    || (Read(log[2..], worker, id, Retired) && r == Replace(None))
    || (|log| > 4 && Read(log[2..4], worker, id, Ours) && ActivationLeads(log, 4, worker, id, request, stamp, r))
  }

  /** connect, and resume for a paused sandbox: what is up is reused, a conflict is read
      again, and behind an answer that was lost the sandbox is probed. */
  ghost predicate ActivationLeads(log: Log, k: nat, worker: WorkerId, id: Id, request: Option<RequestId>, stamp: nat,
                                  r: Prepared)
  {
    && k < |log| && log[k].Connected? && log[k].id == id
    && var answer := log[k].answer;
       if !answer.Up? then AnswerLeads(log, k + 1, worker, id, request, stamp, None, answer, r)
       else if !answer.info.status.Paused? then |log| == k + 1 && r == Reuse(answer.info)
       else
         && k + 1 < |log| && log[k + 1].ResumeRan? && log[k + 1].id == id
         && AnswerLeads(log, k + 2, worker, id, request, stamp, Some(answer.info), log[k + 1].answer, r)
  }

  /** What the last answer of the activation leads to. */
  ghost predicate AnswerLeads(log: Log, k: nat, worker: WorkerId, id: Id, request: Option<RequestId>, stamp: nat,
                              sandbox: Option<Info>, answer: Activation, r: Prepared)
  {
    match answer
    case Up(_) => |log| == k && sandbox.Some? && r == Reuse(sandbox.value)
    case Broken => r == Ended(1) && LostLeads(log, k, id, request)
    case Conflict => ContendLeads(log, k, worker, id, request, stamp, sandbox, r)
  }

  /** A conflict: the sandbox is replaced exactly if the reading retired it.  Where the listing
      failed, a sandbox that was connected to is given up; otherwise it is left alone. */
  ghost predicate ContendLeads(log: Log, k: nat, worker: WorkerId, id: Id, request: Option<RequestId>, stamp: nat,
                               left: Option<Info>, r: Prepared)
  {
    && k < |log|
    && (if Read(log[k..], worker, id, Retired) then r == Replace(left)
        else
          && Kept(log[k..], worker, id) && r == Ended(1)
          && (log[k] == Listed(worker, None) ==>
                if left.Some? then GivenUp(log, k + 1, left.value.id, false, request, stamp) else |log| == k + 1))
  }

  /** From that call on the sandbox is torn down, the claim dealt with, and in a sandbox that
      stays the marker of this attempt is taken back last. */
  ghost predicate GivenUp(log: Log, k: nat, id: Id, created: bool, request: Option<RequestId>, stamp: nat) {
    && k > 0 && NoLaunch(log, k) && Quelled(log, k, id, created) && Handled(log, k - 1, id, request)
    && (!created ==> EndsCleared(log, k, id, stamp))
  }

  /** A lost answer: nothing more happens unless the sandbox is reached and its probe finds
      no worker; then the worker is stopped for certain and the claim dealt with. */
  ghost predicate LostLeads(log: Log, k: nat, id: Id, request: Option<RequestId>) {
    && k < |log| && log[k].Connected? && log[k].id == id
    && (if !log[k].answer.Up? then |log| == k + 1
        else
          && k + 1 < |log| && log[k + 1].Probed? && log[k + 1].id == id
          && (if log[k + 1].state.Running? || log[k + 1].state.Unknown? then |log| == k + 2
              else Quelled(log, k + 2, id, false) && Handled(log, k + 1, id, request)))
  }

  /** The first half of main: mark the sandbox that was found, make sure the monitor is
      not recycling it, and resume it. */
  method Prepare(api: Api, worker: WorkerId, request: Option<RequestId>, stamp: nat)
    returns (r: Prepared, ghost at: nat)
    requires api.log == []
    modifies api
    ensures Before(api.log, worker)
    ensures r.Ended? ==> r.code == 1 && OneRelease(api.log, request)
    ensures !r.Ended? ==> NoRelease(api.log, 0)
    ensures r.Reuse? ==> HandledAt(api.log, at, r.sandbox)
    ensures r.Replace? ==> AbsenceConfirmed(api.log, worker)
    ensures r.Replace? ==> if r.left.Some? then HandledAt(api.log, at, r.left.value) else NothingHandled(api.log)
    ensures NoLaunch(api.log, 0)
    ensures r.Reuse? ==> MarkedFirst(api.log, worker, r.sandbox.id, stamp)
    ensures Prepares(api.log, worker, request, stamp, r)
  {
    at := 0;
    var infos := api.List(worker);
    if infos.None? {
      return Ended(1), 0;
    }
    var existing := FirstLive(infos.value);
    if existing.None? {
      return Replace(None), 0;
    }
    var id := existing.value.id;
    assert Sighted(api.log, worker, id);
    var v := MarkAndRead(api, worker, stamp, id);
    match v {
      case Unreadable => r := Ended(1);
      case Stuck => r := Ended(1);
      case Retired => r := Replace(None);
      case Ours =>
        ghost var read := api.log;
        r, at := Activate(api, worker, request, stamp, id);
        MarkedLasts(read, api.log, worker, id, stamp);
        assert api.log[2..4] == read[2..];
    }
  }

  /** Write the relaunch marker, then read the recycle marker; a marker that cannot be
      written ends the invocation like a listing that fails. */
  method MarkAndRead(api: Api, worker: WorkerId, stamp: nat, id: Id) returns (v: Verdict)
    requires |api.log| == 1 && Before(api.log, worker) && NothingHandled(api.log) && Sighted(api.log, worker, id)
    modifies api
    ensures old(api.log) <= api.log && Before(api.log, worker) && NothingHandled(api.log)
    ensures NoRelease(api.log, 0) && NoLaunch(api.log, 0)
    ensures v.Retired? ==> AbsenceConfirmed(api.log, worker)
    ensures v.Ours? ==>
              |api.log| == 4 && api.log[1] == Tagged(id, Relaunch(stamp), true) && Read(api.log[2..], worker, id, Ours)
    ensures Sighted(api.log, worker, id)
    ensures |api.log| >= 2 && api.log[1].Tagged? && api.log[1].id == id && api.log[1].write == Relaunch(stamp)
    ensures if api.log[1].ok then Read(api.log[2..], worker, id, v) else |api.log| == 2 && v.Unreadable?
  {
    var marked := api.Tag(id, Relaunch(stamp));
    ghost var before := api.log;
    if !marked {
      return Unreadable;
    }
    v := ReadRecycling(api, worker, id);
    assert api.log[2..] == api.log[|before|..];
    assert before <= api.log && before[1] == Tagged(id, Relaunch(stamp), true);
  }

  lemma MarkedLasts(read: Log, log: Log, worker: WorkerId, id: Id, stamp: nat)
    requires |read| == 4 && read <= log && Sighted(read, worker, id) && read[1] == Tagged(id, Relaunch(stamp), true)
    requires Read(read[2..], worker, id, Ours)
    ensures |log| > 4 && log[4].Connected? && log[4].id == id ==> MarkedFirst(log, worker, id, stamp)
  {
    if |log| > 4 { assert log[2..4] == read[2..]; }
  }

  /** Before the sandbox is resumed: this attempt's marker was written, and a later listing
      showed the sandbox without a fresh recycle marker. */
  ghost predicate MarkedFirst(log: Log, worker: WorkerId, id: Id, stamp: nat) {
    && |log| >= 5 && Sighted(log, worker, id) && log[1] == Tagged(id, Relaunch(stamp), true)
    && Read(log[2..4], worker, id, Ours)
    && log[4].Connected? && log[4].id == id
  }

  /** connect, and resume when paused. */
  method Activate(api: Api, worker: WorkerId, request: Option<RequestId>, stamp: nat, id: Id)
    returns (r: Prepared, ghost at: nat)
    requires Before(api.log, worker) && NothingHandled(api.log) && Sighted(api.log, worker, id)
    requires NoLaunch(api.log, 0) && NoRelease(api.log, 0)
    modifies api
    ensures old(api.log) <= api.log && Before(api.log, worker)
    ensures !r.Ended? ==> NoRelease(api.log, 0)
    ensures r.Ended? ==> r.code == 1 && OneRelease(api.log, request)
    ensures r.Reuse? ==> HandledAt(api.log, at, r.sandbox)
    ensures r.Replace? ==> AbsenceConfirmed(api.log, worker)
    ensures r.Replace? ==> if r.left.Some? then HandledAt(api.log, at, r.left.value) else NothingHandled(api.log)
    ensures NoLaunch(api.log, 0)
    ensures r.Reuse? ==>
              r.sandbox.id == id && |api.log| > |old(api.log)|
              && api.log[|old(api.log)|].Connected? && api.log[|old(api.log)|].id == id
    ensures ActivationLeads(api.log, |old(api.log)|, worker, id, request, stamp, r)
  {
    at := |api.log|;
    var answer := api.Connect(id);
    var sandbox := if answer.Up? then Some(answer.info) else None;
    if answer.Up? && answer.info.status.Paused? {
      answer := api.Resume(id);
    }
    assert sandbox.Some? ==> HandledAt(api.log, at, sandbox.value);
    r := AfterAnswer(api, worker, request, stamp, id, sandbox, answer, at);
  }

  /** Resumed, lost, or contended. */
  method AfterAnswer(api: Api, worker: WorkerId, request: Option<RequestId>, stamp: nat, id: Id,
                     sandbox: Option<Info>, answer: Activation, ghost at: nat)
    returns (r: Prepared)
    requires Before(api.log, worker) && Sighted(api.log, worker, id) && NoLaunch(api.log, 0) && NoRelease(api.log, 0)
    requires if sandbox.Some? then HandledAt(api.log, at, sandbox.value) else NothingHandled(api.log)
    requires answer.Up? ==> sandbox.Some?
    modifies api
    ensures old(api.log) <= api.log && Before(api.log, worker) && NoLaunch(api.log, 0)
    ensures r.Ended? ==> r.code == 1 && OneRelease(api.log, request)
    ensures r.Reuse? ==> sandbox == Some(r.sandbox) && api.log == old(api.log)
    ensures r.Replace? ==> r.left == sandbox && NoRelease(api.log, 0) && AbsenceConfirmed(api.log, worker)
    ensures r.Replace? ==> if sandbox.Some? then HandledAt(api.log, at, sandbox.value) else NothingHandled(api.log)
    ensures AnswerLeads(api.log, |old(api.log)|, worker, id, request, stamp, sandbox, answer, r)
  {
    match answer {
      case Up(_) => r := Reuse(sandbox.value);
      case Broken =>
        ProbeAndAbandon(api, worker, request, id);
        r := Ended(1);
      case Conflict =>
        r := Contended(api, worker, request, stamp, id, sandbox, at);
    }
  }

  /** Someone else is at the sandbox: a wake keeps it, a recycle gives it up. */
  method Contended(api: Api, worker: WorkerId, request: Option<RequestId>, stamp: nat, id: Id, sandbox: Option<Info>,
                   ghost at: nat)
    returns (r: Prepared)
    requires Before(api.log, worker) && Sighted(api.log, worker, id) && NoLaunch(api.log, 0) && NoRelease(api.log, 0)
    requires if sandbox.Some? then HandledAt(api.log, at, sandbox.value) else NothingHandled(api.log)
    modifies api
    ensures old(api.log) <= api.log && Before(api.log, worker) && NoLaunch(api.log, 0)
    ensures r.Replace? ==> r.left == sandbox && NoRelease(api.log, 0) && AbsenceConfirmed(api.log, worker)
    ensures r.Replace? ==> if sandbox.Some? then HandledAt(api.log, at, sandbox.value) else NothingHandled(api.log)
    ensures !r.Replace? ==> r == Ended(1) && OneRelease(api.log, request)
    ensures r.Replace? ==> Read(api.log[|old(api.log)|..], worker, id, Retired)
    ensures r.Ended? ==> Kept(api.log[|old(api.log)|..], worker, id)
    ensures ContendLeads(api.log, |old(api.log)|, worker, id, request, stamp, sandbox, r)
  {
    ghost var k := |api.log|;
    var v := ReadRecycling(api, worker, id);
    ghost var seen := api.log;
    assert sandbox.Some? ==> HandledAt(api.log, at, sandbox.value);
    match v {
      case Unreadable =>
        HandleError(api, sandbox, false, false, worker, request, stamp, at);
        assert api.log[k..][0] == seen[k..][0];
        r := Ended(1);
      case Ours => r := Ended(1);
      case Stuck => r := Ended(1);
      case Retired =>
        assert Sighted(api.log, worker, id);
        r := Replace(sandbox);
    }
  }

  /** No replacement is started: the listing failed, it showed a sandbox that is not being
      recycled, or the retag failed; only the first of them leads to more calls. */
  ghost predicate Kept(tail: Log, worker: WorkerId, id: Id) {
    || (tail != [] && tail[0] == Listed(worker, None))
    || Read(tail, worker, id, Ours)
    || Read(tail, worker, id, Stuck)
  }

  /** The sandbox was reached, and the probe neither found a worker nor failed. */
  ghost predicate FoundIdle(tail: Log, id: Id) {
    && |tail| >= 2 && tail[0].Connected? && tail[0].id == id && tail[0].answer.Up?
    && tail[1].Probed? && tail[1].id == id && !tail[1].state.Running? && !tail[1].state.Unknown?
  }

  /** The activation answer was lost: release only once a probe finds nothing running. */
  method ProbeAndAbandon(api: Api, worker: WorkerId, request: Option<RequestId>, id: Id)
    requires Before(api.log, worker) && NoRelease(api.log, 0)
    modifies api
    ensures old(api.log) <= api.log && Before(api.log, worker) && NoCreateOrLaunch(api.log, |old(api.log)|)
    ensures OneRelease(api.log, request)
    ensures NoRelease(api.log, 0) || FoundIdle(api.log[|old(api.log)|..], id)
    ensures LostLeads(api.log, |old(api.log)|, id, request)
  {
    ghost var at := |api.log|;
    var probed := api.Connect(id);
    if !probed.Up? {
      return;
    }
    var state := api.Probe(id);
    if state.Running? || state.Unknown? {
      return;
    }
    assert HandledAt(api.log, at, probed.info);
    ghost var before := api.log;
    var done, handedBack := Abandon(api, Some(probed.info), false, worker, request, at);
    AbandonHandles(before, api.log, api.log, probed.info, worker, request, done, handedBack);
  }

  /** The whole invocation, without the host lock.  Claims are never handed back on a
      guess; exit code 0 means a worker was seen up; a hook that lost the election
      neither launches nor releases; and a sandbox is created only when no other one
      can be serving the worker id. */
  method Invocation(api: Api, worker: WorkerId, request: Option<RequestId>, stamp: nat) returns (code: int)
    requires api.log == []
    modifies api
    ensures SpawnSafe(api.log, worker)
    ensures CreatesOnlyWhenAbsent(api.log, worker)
    ensures code == 0 ==> WorkerSeenUp(api.log) && NoRelease(api.log, 0)
    ensures ElectionLost(api.log, worker) ==> code == 1 && NoRelease(api.log, 0) && NoLaunch(api.log, 0)
    ensures LaunchFailuresHandled(api.log, request)
    ensures OneRelease(api.log, request)
    ensures Conforms(api.log, worker, request, stamp, code)
  {
    var prepared, at := Prepare(api, worker, request, stamp);
    ghost var half := api.log;
    match prepared {
      case Ended(c) =>
        NoElection(api.log, worker);
        code := c;
      case Reuse(sandbox) => code := RunReused(api, worker, request, stamp, sandbox, at);
      case Replace(left) => code := RunCreated(api, worker, request, stamp, left, at);
    }
    assert api.log[..|half|] == half;
    assert Follows(api.log, |half|, prepared, worker, request, stamp, code);
  }

  lemma NoElection(log: Log, worker: WorkerId)
    requires forall i :: 0 <= i < |log| ==> !log[i].Created?
    ensures !ElectionLost(log, worker)
  {
  }

  /** Every call of an invocation, and its exit code, by the answers of the calls before. */
  ghost predicate Conforms(log: Log, worker: WorkerId, request: Option<RequestId>, stamp: nat, code: int) {
    exists n: nat, r: Prepared ::
      n <= |log| && Prepares(log[..n], worker, request, stamp, r) && Follows(log, n, r, worker, request, stamp, code)
  }

  /** A worker id without a live sandbox gets one, which is launched unless an older rival is
      listed behind it. */
  lemma NewWorkerIsServed(log: Log, worker: WorkerId, request: Option<RequestId>, stamp: nat, code: int)
    requires Conforms(log, worker, request, stamp, code)
    requires log[0].infos.Some? && NoOther(log[0].infos.value, None)
    ensures |log| > 1 && log[1].Created?
    ensures log[1].info.Some? ==>
              && |log| > 2 && log[2].Listed? && log[2].worker == worker
              && (log[2].infos.Some? && !OlderRival(log[2].infos.value, log[1].info.value.id) ==>
                    |log| > 3 && log[3].LaunchRan? && log[3].id == log[1].info.value.id)
  {
    var n: nat, r: Prepared :| n <= |log| && Prepares(log[..n], worker, request, stamp, r)
                               && Follows(log, n, r, worker, request, stamp, code);
    assert log[..n][0] == log[0];
  }

  /** The activation of the sandbox that was marked ended at call k: it is up. */
  ghost predicate ResumedAt(log: Log, k: nat) {
    && 1 < |log| && k < |log| && log[1].Tagged? && log[1].ok
    && k >= 4 && log[4].Connected? && log[4].answer.Up?
    && if log[4].answer.info.status.Paused? then k == 5 && log[5].ResumeRan? && log[5].answer.Up? else k == 4
  }

  /** The probe right behind the activation found a worker. */
  ghost predicate FoundRunning(log: Log, k: nat) {
    0 < k < |log| && log[k].Probed? && log[k].state.Running? && ResumedAt(log, k - 1)
  }

  ghost predicate LaunchStarted(log: Log, k: nat) { k < |log| && log[k].LaunchRan? && log[k].result.Started? }

  /** Exit code 0 exactly for a launch that started, or a worker found running in the sandbox
      that was resumed. */
  lemma ExitZeroIff(log: Log, worker: WorkerId, request: Option<RequestId>, stamp: nat, code: int)
    requires Conforms(log, worker, request, stamp, code)
    ensures code == 0 <==> (exists k :: LaunchStarted(log, k)) || (exists k :: FoundRunning(log, k))
  {
    var n: nat, r: Prepared :| n <= |log| && Prepares(log[..n], worker, request, stamp, r)
                               && Follows(log, n, r, worker, request, stamp, code);
    var half := log[..n];
    assert forall i :: 0 <= i < n ==> half[i] == log[i];
    ReusedIffResumed(half, worker, request, stamp, r);
    match r
    case Ended(_) => assert half == log;
    case Reuse(s) =>
      ReusedExit(log, n, s.id, request, stamp, code);
      OneResume(log, half);
      assert FoundRunning(log, n) <==> log[n].state.Running?;
    case Replace(left) =>
      CreatedExit(log, n, left, worker, request, stamp, code);
      NoLateResume(log, half, worker, request, stamp, left, code);
  }

  lemma OneResume(log: Log, half: Log)
    requires half <= log && half != [] && ResumedAt(half, |half| - 1)
    ensures forall k :: ResumedAt(log, k) <==> k == |half| - 1
  {
    assert forall i :: 0 <= i < |half| ==> half[i] == log[i];
  }

  lemma ReusedIffResumed(half: Log, worker: WorkerId, request: Option<RequestId>, stamp: nat, r: Prepared)
    requires Prepares(half, worker, request, stamp, r)
    ensures r.Reuse? <==> half != [] && ResumedAt(half, |half| - 1)
    ensures !r.Reuse? ==> forall k :: !ResumedAt(half, k)
    ensures r.Ended? ==> r.code == 1
  {
    if |half| > 4 {
      assert forall i :: 0 <= i < |half| - 2 ==> half[2..][i] == half[i + 2];
    }
  }

  /** A replacement is no sandbox that was resumed. */
  lemma NoLateResume(log: Log, half: Log, worker: WorkerId, request: Option<RequestId>, stamp: nat,
                     left: Option<Info>, code: int)
    requires half <= log && Prepares(half, worker, request, stamp, Replace(left))
    requires CreateLeads(log, |half|, left, worker, request, stamp, code)
    ensures forall k: nat :: !ResumedAt(log, k)
  {
    ReusedIffResumed(half, worker, request, stamp, Replace(left));
    ReplaceShape(half, worker, request, stamp, left);
    forall k: nat
      ensures !ResumedAt(log, k)
    {
      if k < |half| { assert !ResumedAt(half, k); }
    }
  }

  lemma ReplaceShape(half: Log, worker: WorkerId, request: Option<RequestId>, stamp: nat, left: Option<Info>)
    requires Prepares(half, worker, request, stamp, Replace(left))
    ensures |half| == 1 || |half| == 3 || |half| > 5 || (|half| == 5 && !half[4].Connected?)
    ensures |half| == 3 ==> left.None?
  {
    if |half| > 2 {
      assert forall i :: 0 <= i < |half| - 2 ==> half[2..][i] == half[i + 2];
    }
  }

  lemma ReusedExit(log: Log, k: nat, id: Id, request: Option<RequestId>, stamp: nat, code: int)
    requires ReuseLeads(log, k, id, request, stamp, code) && NoLaunch(log[..k], 0)
    ensures code == 0 <==> log[k].state.Running? || (exists i :: LaunchStarted(log, i))
    ensures k < |log| && log[k].Probed?
  {
    assert forall i :: 0 <= i < k ==> log[..k][i] == log[i];
    assert log[k].state.Running? || LaunchStarted(log, k + 1) || !LaunchStarted(log, k + 1);
  }

  lemma CreatedExit(log: Log, k: nat, left: Option<Info>, worker: WorkerId, request: Option<RequestId>, stamp: nat,
                    code: int)
    requires CreateLeads(log, k, left, worker, request, stamp, code) && NoLaunch(log[..k], 0)
    ensures code == 0 <==> exists i :: LaunchStarted(log, i)
  {
    assert forall i :: 0 <= i < k ==> log[..k][i] == log[i];
    assert LaunchStarted(log, k + 2) || !LaunchStarted(log, k + 2);
  }

  /** The second half of main, from call k on, by what the first half came to. */
  ghost predicate Follows(log: Log, k: nat, r: Prepared, worker: WorkerId, request: Option<RequestId>, stamp: nat,
                          code: int)
  {
    match r
    case Ended(c) => |log| == k && code == c
    case Reuse(sandbox) => ReuseLeads(log, k, sandbox.id, request, stamp, code)
    case Replace(left) => CreateLeads(log, k, left, worker, request, stamp, code)
  }

  /** A worker that is already running is left to run; otherwise one is launched. */
  ghost predicate ReuseLeads(log: Log, k: nat, id: Id, request: Option<RequestId>, stamp: nat, code: int) {
    && k < |log| && log[k].Probed? && log[k].id == id
    && (if log[k].state.Running? then code == 0 && ClearTail(log[k + 1..], id, stamp)
        else LaunchLeads(log, k + 1, id, false, request, stamp, code))
  }

  /** Exit code 0 for a launch that started, and behind any other one the sandbox is given up. */
  ghost predicate LaunchLeads(log: Log, k: nat, id: Id, created: bool, request: Option<RequestId>, stamp: nat,
                              code: int)
  {
    && k < |log| && log[k].LaunchRan? && log[k].id == id
    && (if log[k].result.Started? then
          code == 0 && if created then |log| == k + 1 else ClearTail(log[k + 1..], id, stamp)
        else code == 1 && GivenUp(log, k + 1, id, created, request, stamp))
  }

  /** A sandbox is created, and launched in exactly if the next listing shows no older rival. */
  ghost predicate CreateLeads(log: Log, k: nat, left: Option<Info>, worker: WorkerId, request: Option<RequestId>,
                              stamp: nat, code: int)
  {
    && k < |log| && log[k].Created?
    && (if log[k].info.None? then
          && code == 1
          && if left.Some? then GivenUp(log, k + 1, left.value.id, false, request, stamp)
             else if request.None? then |log| == k + 1
             else HandBackTail(log, k + 1, worker, None, request.value, false)
        else ElectionLeads(log, k + 1, log[k].info.value.id, worker, request, stamp, code))
  }

  ghost predicate ElectionLeads(log: Log, k: nat, own: Id, worker: WorkerId, request: Option<RequestId>, stamp: nat,
                                code: int)
  {
    && k < |log| && log[k].Listed? && log[k].worker == worker
    && (if log[k].infos.None? then code == 1 && GivenUp(log, k + 1, own, true, request, stamp)
        else if OlderRival(log[k].infos.value, own) then code == 1 && Discarded(log[k + 1..], own)
        else LaunchLeads(log, k + 1, own, true, request, stamp, code))
  }

  /** main with the sandbox of an earlier launch resumed. */
  method RunReused(api: Api, worker: WorkerId, request: Option<RequestId>, stamp: nat, sandbox: Info, ghost at: nat)
    returns (code: int)
    requires Before(api.log, worker) && HandledAt(api.log, at, sandbox) && NoRelease(api.log, 0) && NoLaunch(api.log, 0)
    modifies api
    ensures SpawnSafe(api.log, worker) && forall i :: 0 <= i < |api.log| ==> !api.log[i].Created?
    ensures code == 0 ==> WorkerSeenUp(api.log) && NoRelease(api.log, 0)
    ensures !ElectionLost(api.log, worker)
    ensures LaunchFailuresHandled(api.log, request) && OneRelease(api.log, request)
    ensures old(api.log) <= api.log && ReuseLeads(api.log, |old(api.log)|, sandbox.id, request, stamp, code)
  {
    ghost var k := |api.log|;
    var state := api.Probe(sandbox.id);
    if state.Running? {
      ClearOwnMarker(api, sandbox.id, stamp);
      assert api.log[k] == Probed(sandbox.id, Running);
      NoElection(api.log, worker);
      return 0;
    }
    code := LaunchIn(api, worker, request, stamp, sandbox, false, at);
    NoElection(api.log, worker);
  }

  /** main with a sandbox of its own. */
  method RunCreated(api: Api, worker: WorkerId, request: Option<RequestId>, stamp: nat, left: Option<Info>,
                    ghost at: nat)
    returns (code: int)
    requires Before(api.log, worker) && AbsenceConfirmed(api.log, worker)
    requires NoRelease(api.log, 0) && NoLaunch(api.log, 0)
    requires if left.Some? then HandledAt(api.log, at, left.value) else NothingHandled(api.log)
    modifies api
    ensures SpawnSafe(api.log, worker) && CreatesOnlyWhenAbsent(api.log, worker)
    ensures code == 0 ==> WorkerSeenUp(api.log) && NoRelease(api.log, 0)
    ensures ElectionLost(api.log, worker) ==> code == 1 && NoRelease(api.log, 0) && NoLaunch(api.log, 0)
    ensures LaunchFailuresHandled(api.log, request) && OneRelease(api.log, request)
    ensures old(api.log) <= api.log && CreateLeads(api.log, |old(api.log)|, left, worker, request, stamp, code)
  {
    ghost var k := |api.log|;
    ghost var prior := api.log;
    var own := api.Create();
    ghost var created := api.log;
    assert created[..k] == prior;
    AbsenceLasts(prior, created, worker);
    if own.None? {
      assert left.Some? ==> HandledAt(created, at, left.value);
      HandleError(api, left, false, true, worker, request, stamp, at);
      OneCreation(prior, created, api.log, worker);
      return 1;
    }
    code := RunOwn(api, worker, request, stamp, own.value);
    OneCreation(prior, created, api.log, worker);
  }

  /** Elect and launch, behind the creation of an own sandbox. */
  method RunOwn(api: Api, worker: WorkerId, request: Option<RequestId>, stamp: nat, own: Info) returns (code: int)
    requires api.log != [] && api.log[|api.log| - 1] == Created(Some(own)) && AbsenceConfirmed(api.log, worker)
    requires SpawnSafe(api.log, worker) && NoRelease(api.log, 0) && NoLaunch(api.log, 0)
    modifies api
    ensures old(api.log) <= api.log && SpawnSafe(api.log, worker)
    ensures forall i :: |old(api.log)| <= i < |api.log| ==> !api.log[i].Created?
    ensures code == 0 ==> WorkerSeenUp(api.log) && NoRelease(api.log, 0)
    ensures |api.log| > |old(api.log)|
    ensures LostAt(api.log, |old(api.log)|, worker) ==> code == 1 && NoRelease(api.log, 0) && NoLaunch(api.log, 0)
    ensures LaunchFailuresHandled(api.log, request) && OneRelease(api.log, request)
    ensures ElectionLeads(api.log, |old(api.log)|, own.id, worker, request, stamp, code)
  {
    ghost var created := api.log;
    ghost var k := |created| - 1;
    assert HandledAt(created, k, own);
    var listed, won := Elect(api, worker, own);
    ghost var elected := api.log;
    assert HandledAt(elected, k, own);
    AbsenceLasts(created, elected, worker);
    if !listed {
      HandleError(api, Some(own), true, true, worker, request, stamp, k);
      return 1;
    }
    if !won {
      return 1;
    }
    code := LaunchIn(api, worker, request, stamp, own, true, k);
  }

  /** The launch, in the sandbox that was resumed or in the one that won the election. */
  method LaunchIn(api: Api, worker: WorkerId, request: Option<RequestId>, stamp: nat, sandbox: Info, created: bool,
                  ghost at: nat)
    returns (code: int)
    requires HandledAt(api.log, at, sandbox) && (created ==> AbsenceConfirmed(api.log, worker))
    requires SpawnSafe(api.log, worker) && NoRelease(api.log, 0) && NoLaunch(api.log, 0)
    modifies api
    ensures old(api.log) <= api.log && SpawnSafe(api.log, worker)
    ensures forall i :: |old(api.log)| <= i < |api.log| ==> !api.log[i].Created?
    ensures var k := |old(api.log)|; |api.log| > k && api.log[k].LaunchRan? && api.log[k].id == sandbox.id
    ensures code == 0 ==> WorkerSeenUp(api.log) && NoRelease(api.log, 0)
    ensures LaunchFailuresHandled(api.log, request) && OneRelease(api.log, request)
    ensures LaunchLeads(api.log, |old(api.log)|, sandbox.id, created, request, stamp, code)
  {
    ghost var before := api.log;
    var result := api.Launch(sandbox.id);
    ghost var launched := api.log;
    assert launched[|before|] == LaunchRan(sandbox.id, result);
    if created { AbsenceLasts(before, launched, worker); }
    match result {
      case Raised =>
        HandleError(api, Some(sandbox), created, created, worker, request, stamp, at);
        code := 1;
      case NotRunning =>
        AbandonLaunch(api, worker, request, stamp, sandbox, created, at);
        code := 1;
      case Started =>
        if !created { ClearOwnMarker(api, sandbox.id, stamp); }
        code := 0;
    }
    assert launched <= api.log;
    OnlyLaunchHandled(launched, api.log, request);
  }

  /** Tear down first and then clear the marker, which keeps the monitor off meanwhile. */
  method AbandonLaunch(api: Api, worker: WorkerId, request: Option<RequestId>, stamp: nat, sandbox: Info, created: bool,
                       ghost at: nat)
    requires HandledAt(api.log, at, sandbox) && SpawnSafe(api.log, worker) && NoRelease(api.log, 0)
    modifies api
    ensures old(api.log) <= api.log && SpawnSafe(api.log, worker) && NoCreateOrLaunch(api.log, |old(api.log)|)
    ensures OneRelease(api.log, request) && Handled(api.log, |old(api.log)| - 1, sandbox.id, request)
    ensures GivenUp(api.log, |old(api.log)|, sandbox.id, created, request, stamp)
  {
    ghost var before := api.log;
    var done, handedBack := Abandon(api, Some(sandbox), created, worker, request, at);
    ghost var abandoned := api.log;
    if !created {
      ClearOwnMarker(api, sandbox.id, stamp);
      assert ClearTail(api.log[|abandoned|..], sandbox.id, stamp);
    }
    AbandonHandles(before, abandoned, api.log, sandbox, worker, request, done, handedBack);
  }

  /** The log holds a single creation, right after the given prefix. */
  lemma OneCreation(prior: Log, created: Log, log: Log, worker: WorkerId)
    requires |created| == |prior| + 1 && prior <= created <= log && created[|prior|].Created?
    requires AbsenceConfirmed(prior, worker) && forall i :: 0 <= i < |prior| ==> !prior[i].Created?
    requires forall i :: |created| <= i < |log| ==> !log[i].Created?
    ensures CreatesOnlyWhenAbsent(log, worker)
    ensures ElectionLost(log, worker) ==> |created| < |log| && LostAt(log, |created|, worker)
  {
    var k := |prior|;
    assert log[..k] == prior;
    assert log[k] == created[k];
    assert forall i :: 0 <= i < k ==> log[i] == prior[i];
  }
}
