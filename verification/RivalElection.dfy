/**
 The election between spawn hooks that created a sandbox each for the same worker
 id, on one host after the other or on several at once.  Every hook lists the live
 sandboxes of the worker after creating its own; the oldest wins, every other hook
 retags and deletes its own sandbox.

 Hooks interleave freely; creations, listings, retags and kills are atomic at the
 server and may fail; a creation may succeed without its hook hearing of it.
 */
module RivalElection {
  type Hook = nat
  type BoxId = nat

  /** Sandboxes are compared by creation time, then by id. */
  datatype Key = Key(createdAt: int, id: BoxId)

  predicate Older(a: Key, b: Key) {
    a.createdAt < b.createdAt || (a.createdAt == b.createdAt && a.id < b.id)
  }

  datatype Phase =
    | Created(id: BoxId)   // create answered, the rivals are not listed yet
    | Won(id: BoxId)       // own sandbox was the oldest: launch the worker
    | Serving(id: BoxId)   // the worker was launched
    | Failed(id: BoxId)    // the launch failed: delete the sandbox, then release the claim
    | Lost(id: BoxId)      // an older rival was listed: retag own sandbox
    | Retagged(id: BoxId)  // then delete it
    | Exited

  datatype State = State(
    boxes: map<BoxId, Key>, // every sandbox ever created for the worker id
    shown: set<BoxId>,      // those a listing by worker id still shows as live
    hooks: map<Hook, Phase>
  )

  datatype Action =
    | Create(hook: Hook, createdAt: int, id: BoxId, answered: bool)
    | Look(hook: Hook)
    | Launch(hook: Hook, ok: bool)
    | TearDown(hook: Hook, ok: bool)
    | Retag(hook: Hook, ok: bool)
    | Discard(hook: Hook, ok: bool)
    | Lose(id: BoxId)       // the sandbox fails or somebody else deletes it

  const INIT := State(map[], {}, map[])

  /** rivals[0] of the sorted listing. */
  predicate Oldest(s: State, id: BoxId) {
    id in s.shown && id in s.boxes
    && forall other :: other in s.shown && other in s.boxes && other != id ==> Older(s.boxes[id], s.boxes[other])
  }

  /** The check of spawn.py: an empty listing passes as well. */
  predicate Passes(s: State, id: BoxId) { s.shown == {} || Oldest(s, id) }

  function Apply(s: State, a: Action): State {
    match a
    case Create(h, t, id, answered) =>
      if h in s.hooks || id in s.boxes then s
      else State(s.boxes[id := Key(t, id)], s.shown + {id}, s.hooks[h := if answered then Created(id) else Exited])
    case Lose(id) => s.(shown := s.shown - {id})
    case _ =>
      if a.hook !in s.hooks then s
      else
        var h := a.hook;
        match (a, s.hooks[h])
        case (Look(_), Created(id)) => s.(hooks := s.hooks[h := if Passes(s, id) then Won(id) else Lost(id)])
        case (Launch(_, ok), Won(id)) => s.(hooks := s.hooks[h := if ok then Serving(id) else Failed(id)])
        case (TearDown(_, ok), Failed(id)) =>
          State(s.boxes, if ok then s.shown - {id} else s.shown, s.hooks[h := Exited])
        case (Retag(_, ok), Lost(id)) =>
          if ok then State(s.boxes, s.shown - {id}, s.hooks[h := Retagged(id)]) else s.(hooks := s.hooks[h := Exited])
        case (Discard(_, ok), Retagged(id)) => s.(hooks := s.hooks[h := Exited])
        case _ => s
  }

  function Run(s: State, run: seq<Action>): State
    decreases |run|
  {
    if run == [] then s else Run(Apply(s, run[0]), run[1..])
  }

  // ---------------------------------------------------------------------------
  // The assumption: a new sandbox sorts behind those already listed
  // ---------------------------------------------------------------------------

  predicate Behind(s: State, k: Key) {
    forall id :: id in s.boxes ==> Older(s.boxes[id], k)
  }

  predicate InOrder(s: State, a: Action) { a.Create? ==> Behind(s, Key(a.createdAt, a.id)) }

  predicate OrderedRun(s: State, run: seq<Action>)
    decreases |run|
  {
    run == [] || (InOrder(s, run[0]) && OrderedRun(Apply(s, run[0]), run[1..]))
  }

  // ---------------------------------------------------------------------------
  // At most one winner
  // ---------------------------------------------------------------------------

  /** The hook passed the check and has not given its sandbox up. */
  predicate Winning(p: Phase) { p.Won? || p.Serving? || p.Failed? }

  predicate Winner(s: State, h: Hook) {
    h in s.hooks && Winning(s.hooks[h]) && s.hooks[h].id in s.shown
  }

  ghost predicate AtMostOneWinner(s: State) {
    forall h, g :: Winner(s, h) && Winner(s, g) ==> h == g
  }

  predicate Holds(s: State, h: Hook) { h in s.hooks && !s.hooks[h].Exited? }

  ghost predicate WellFormed(s: State) {
    && (forall id :: id in s.boxes ==> s.boxes[id].id == id)
    && s.shown <= s.boxes.Keys
    && (forall h :: Holds(s, h) ==> s.hooks[h].id in s.boxes)
    && (forall h, g :: Holds(s, h) && Holds(s, g) && s.hooks[h].id == s.hooks[g].id ==> h == g)
  }

  ghost predicate Inv(s: State) {
    WellFormed(s) && forall h :: Winner(s, h) ==> Oldest(s, s.hooks[h].id)
  }

  lemma StepKeepsWellFormed(s: State, a: Action)
    requires WellFormed(s)
    ensures WellFormed(Apply(s, a))
  {
    var t := Apply(s, a);
    forall h | Holds(t, h)
      ensures t.hooks[h].id in t.boxes
      ensures forall g :: Holds(t, g) && t.hooks[h].id == t.hooks[g].id ==> h == g
    {
    }
  }

  lemma StepKeepsInv(s: State, a: Action)
    requires Inv(s) && InOrder(s, a)
    ensures Inv(Apply(s, a))
  {
    var t := Apply(s, a);
    StepKeepsWellFormed(s, a);
    forall h | Winner(t, h)
      ensures Oldest(t, t.hooks[h].id)
    {
      if a.Create? && h !in s.hooks {
      } else if !Winner(s, h) {
        assert a.Look? && a.hook == h;
      } else {
        assert Oldest(s, s.hooks[h].id) && s.hooks[h].id == t.hooks[h].id;
      }
    }
  }

  lemma InvMeansOneWinner(s: State)
    requires Inv(s)
    ensures AtMostOneWinner(s)
  {
    forall h, g | Winner(s, h) && Winner(s, g)
      ensures h == g
    {
      assert Oldest(s, s.hooks[h].id) && Oldest(s, s.hooks[g].id);
    }
  }

  lemma {:induction false} RunKeepsInv(s: State, run: seq<Action>)
    requires Inv(s) && OrderedRun(s, run)
    ensures Inv(Run(s, run))
    decreases |run|
  {
    if run != [] {
      StepKeepsInv(s, run[0]);
      RunKeepsInv(Apply(s, run[0]), run[1..]);
    }
  }

  /** However many hooks create a sandbox for one worker id, and whatever fails,
      at most one of them holds a live sandbox that passed the check. */
  lemma NeverTwoWinners(run: seq<Action>)
    requires OrderedRun(INIT, run)
    ensures AtMostOneWinner(Run(INIT, run))
  {
    RunKeepsInv(INIT, run);
    InvMeansOneWinner(Run(INIT, run));
  }

  // ---------------------------------------------------------------------------
  // The assumption is exact
  // ---------------------------------------------------------------------------

  /** With a winner in place, the hook of a newly created sandbox that lists at once
      becomes a second winner if and only if its sandbox sorts before the winner's. */
  lemma SecondWinnerIffOlder(s: State, w: Hook, h: Hook, createdAt: int, id: BoxId)
    requires Inv(s) && Winner(s, w) && h !in s.hooks && id !in s.boxes
    ensures var t := Apply(Apply(s, Create(h, createdAt, id, true)), Look(h));
            Winner(t, h) && Winner(t, w) <==> Older(Key(createdAt, id), s.boxes[s.hooks[w].id])
  {
    var c := Apply(s, Create(h, createdAt, id, true));
    var t := Apply(c, Look(h));
    var best := s.hooks[w].id;
    assert Oldest(s, best);
    assert c.hooks[h] == Created(id) && best in c.shown && id in c.shown && id != best;
    assert Winner(t, h) <==> Oldest(c, id);
    if Older(Key(createdAt, id), s.boxes[best]) {
      forall other | other in c.shown && other in c.boxes && other != id
        ensures Older(c.boxes[id], c.boxes[other])
      {
        assert other == best || Older(s.boxes[best], s.boxes[other]);
      }
    }
  }

  /** Two sandboxes of one creation time are enough: ids do not grow with time. */
  lemma EqualTimesBreakIt()
    ensures !AtMostOneWinner(Run(INIT, [Create(0, 5, 1, true), Look(0), Create(1, 5, 0, true), Look(1)]))
  {
    var s := Run(INIT, [Create(0, 5, 1, true), Look(0)]);
    var s0 := Apply(INIT, Create(0, 5, 1, true));
    assert s0 == State(map[1 := Key(5, 1)], {1}, map[0 := Created(1)]);
    var s1 := Apply(s0, Look(0));
    assert Oldest(s0, 1);
    assert s1 == State(map[1 := Key(5, 1)], {1}, map[0 := Won(1)]);
    SecondWinnerIffOlder(s1, 0, 1, 5, 0);
    var s2 := Apply(s1, Create(1, 5, 0, true));
    var s3 := Apply(s2, Look(1));
    var all := [Create(0, 5, 1, true), Look(0), Create(1, 5, 0, true), Look(1)];
    assert Run(s3, all[4..]) == s3;
    assert Run(s2, all[3..]) == s3;
    assert Run(s1, all[2..]) == s3;
    assert Run(s0, all[1..]) == s3;
    assert Winner(s3, 0) && Winner(s3, 1);
  }

  // ---------------------------------------------------------------------------
  // The first sandbox decides
  // ---------------------------------------------------------------------------

  predicate Undisturbed(a: Action) { !a.Lose? && !a.TearDown? }

  ghost predicate First(s: State, id: BoxId) {
    id in s.boxes && forall other :: other in s.boxes && other != id ==> Older(s.boxes[id], s.boxes[other])
  }

  /** The first sandbox is still listed, its hook has not lost, and every hook that
      passed the check is the one that created it. */
  ghost predicate FirstDecides(s: State) { WellFormed(s) && FirstStands(s) }

  ghost predicate FirstStands(s: State) {
    && (forall id :: First(s, id) ==> id in s.shown)
    && (forall h :: h in s.hooks && (s.hooks[h].Lost? || s.hooks[h].Retagged?) ==> !First(s, s.hooks[h].id))
    && (forall h :: h in s.hooks && Winning(s.hooks[h]) ==> First(s, s.hooks[h].id))
  }

  lemma HasFirst(s: State, ids: set<BoxId>) returns (first: BoxId)
    requires ids != {} && ids <= s.boxes.Keys && forall id :: id in s.boxes ==> s.boxes[id].id == id
    ensures first in ids && forall other :: other in ids && other != first ==> Older(s.boxes[first], s.boxes[other])
    decreases ids
  {
    var id :| id in ids;
    if ids == {id} {
      first := id;
    } else {
      var rest := HasFirst(s, ids - {id});
      assert ids == (ids - {id}) + {id};
      first := if Older(s.boxes[id], s.boxes[rest]) then id else rest;
    }
  }

  lemma CreationKeepsFirst(s: State, a: Action)
    requires FirstDecides(s) && a.Create? && InOrder(s, a) && a.hook !in s.hooks && a.id !in s.boxes
    ensures FirstDecides(Apply(s, a))
  {
    var t := Apply(s, a);
    StepKeepsWellFormed(s, a);
    forall id | id in s.boxes
      ensures First(t, id) <==> First(s, id)
    {
      assert Older(t.boxes[id], t.boxes[a.id]);
      assert forall other :: other in s.boxes ==> t.boxes[other] == s.boxes[other] && other in t.boxes;
    }
    forall h | h in s.hooks
      ensures t.hooks[h] == s.hooks[h]
    {
    }
  }

  lemma LookKeepsFirst(s: State, h: Hook)
    requires FirstDecides(s) && h in s.hooks && s.hooks[h].Created?
    ensures FirstDecides(Apply(s, Look(h)))
  {
    var t := Apply(s, Look(h));
    var id := s.hooks[h].id;
    var first := HasFirst(s, s.boxes.Keys);
    assert First(s, first) && first in s.shown;
    assert Oldest(s, id) <==> id == first;
    assert forall i :: First(t, i) <==> First(s, i);
  }

  lemma StepKeepsFirst(s: State, a: Action)
    requires FirstDecides(s) && InOrder(s, a) && Undisturbed(a)
    ensures FirstDecides(Apply(s, a))
  {
    var t := Apply(s, a);
    StepKeepsWellFormed(s, a);
    if t != s {
      if a.Create? {
        CreationKeepsFirst(s, a);
      } else if a.Look? {
        LookKeepsFirst(s, a.hook);
      } else {
        match a {
          case Launch(h, ok) => LaunchKeepsFirst(s, h, ok);
          case Retag(h, ok) => RetagKeepsFirst(s, h, ok);
          case Discard(h, ok) => DiscardKeepsFirst(s, h, ok);
        }
      }
    }
  }

  lemma SameFirst(s: State, t: State)
    requires s.boxes == t.boxes
    ensures forall id :: First(t, id) <==> First(s, id)
  {
  }

  lemma LaunchKeepsFirst(s: State, h: Hook, ok: bool)
    requires FirstStands(s)
    ensures FirstStands(Apply(s, Launch(h, ok)))
  {
    SameFirst(s, Apply(s, Launch(h, ok)));
  }

  lemma RetagKeepsFirst(s: State, h: Hook, ok: bool)
    requires FirstStands(s)
    ensures FirstStands(Apply(s, Retag(h, ok)))
  {
    var t := Apply(s, Retag(h, ok));
    SameFirst(s, t);
    if h in s.hooks && s.hooks[h].Lost? {
      assert !First(s, s.hooks[h].id);
      assert t.hooks == s.hooks[h := t.hooks[h]] && t.shown >= s.shown - {s.hooks[h].id};
      assert t.hooks[h].Exited? || t.hooks[h] == Retagged(s.hooks[h].id);
    }
  }

  lemma DiscardKeepsFirst(s: State, h: Hook, ok: bool)
    requires FirstStands(s)
    ensures FirstStands(Apply(s, Discard(h, ok)))
  {
    SameFirst(s, Apply(s, Discard(h, ok)));
  }

  lemma {:induction false} RunKeepsFirst(s: State, run: seq<Action>)
    requires FirstDecides(s) && OrderedRun(s, run) && forall a :: a in run ==> Undisturbed(a)
    ensures FirstDecides(Run(s, run))
    decreases |run|
  {
    if run != [] {
      StepKeepsFirst(s, run[0]);
      RunKeepsFirst(Apply(s, run[0]), run[1..]);
    }
  }

  /** No listing shows a sandbox that sorts before this one. */
  ghost predicate OlderGone(s: State, id: BoxId) {
    forall other :: other in s.shown && other in s.boxes && id in s.boxes ==> !Older(s.boxes[other], s.boxes[id])
  }

  ghost predicate WinnersOldest(s: State) {
    WellFormed(s) && forall h :: h in s.hooks && Winning(s.hooks[h]) ==> OlderGone(s, s.hooks[h].id)
  }

  lemma StepKeepsOldest(s: State, a: Action)
    requires WinnersOldest(s) && InOrder(s, a)
    ensures WinnersOldest(Apply(s, a))
  {
    var t := Apply(s, a);
    StepKeepsWellFormed(s, a);
    forall h | h in t.hooks && Winning(t.hooks[h])
      ensures OlderGone(t, t.hooks[h].id)
    {
      if h in s.hooks && Winning(s.hooks[h]) {
        assert t.hooks[h].id == s.hooks[h].id && OlderGone(s, s.hooks[h].id) && Holds(s, h);
      }
    }
  }

  /** The hook of the first sandbox has not lost, and while it has yet to look its sandbox
      is listed. */
  ghost predicate FirstSafe(s: State) {
    && WellFormed(s)
    && forall h :: Holds(s, h) && First(s, s.hooks[h].id) ==>
         !s.hooks[h].Lost? && !s.hooks[h].Retagged? && (s.hooks[h].Created? ==> s.hooks[h].id in s.shown)
  }

  lemma StepKeepsFirstSafe(s: State, a: Action)
    requires FirstSafe(s) && InOrder(s, a) && !a.Lose?
    ensures FirstSafe(Apply(s, a))
  {
    var t := Apply(s, a);
    StepKeepsWellFormed(s, a);
    forall h | Holds(t, h) && First(t, t.hooks[h].id)
      ensures !t.hooks[h].Lost? && !t.hooks[h].Retagged? && (t.hooks[h].Created? ==> t.hooks[h].id in t.shown)
    {
      if Holds(s, h) {
        assert t.hooks[h].id == s.hooks[h].id;
        assert First(s, s.hooks[h].id) by {
          assert forall other :: other in s.boxes ==> other in t.boxes && t.boxes[other] == s.boxes[other];
        }
        if a.Look? && a.hook == h && s.hooks[h].Created? {
          assert Oldest(s, s.hooks[h].id);
        }
      }
    }
  }

  lemma {:induction false} RunKeepsFirstSafe(s: State, run: seq<Action>)
    requires OrderedRun(s, run)
    ensures WinnersOldest(s) ==> WinnersOldest(Run(s, run))
    ensures FirstSafe(s) && (forall a :: a in run ==> !a.Lose?) ==> FirstSafe(Run(s, run))
    decreases |run|
  {
    if run != [] {
      if WinnersOldest(s) { StepKeepsOldest(s, run[0]); }
      if FirstSafe(s) && !run[0].Lose? { StepKeepsFirstSafe(s, run[0]); }
      RunKeepsFirstSafe(Apply(s, run[0]), run[1..]);
    }
  }

  /** Whatever is deleted, torn down or lost: a hook that passed the check outlasted every
      older sandbox, none of which is listed any more.  While nobody else deletes a sandbox
      the first one is never discarded by its own hook, retries after a failed launch
      included; and while nothing is torn down either, only its hook passes. */
  lemma OnlyTheOldestWins(run: seq<Action>, h: Hook)
    requires OrderedRun(INIT, run) && h in Run(INIT, run).hooks
    ensures var s := Run(INIT, run);
            && (Winning(s.hooks[h]) ==> OlderGone(s, s.hooks[h].id))
            && ((forall a :: a in run ==> !a.Lose?) && (s.hooks[h].Lost? || s.hooks[h].Retagged?) ==>
                  !First(s, s.hooks[h].id))
            && ((forall a :: a in run ==> Undisturbed(a)) && Winning(s.hooks[h]) ==> First(s, s.hooks[h].id))
  {
    RunKeepsFirstSafe(INIT, run);
    if forall a :: a in run ==> Undisturbed(a) { RunKeepsFirst(INIT, run); }
    assert !Run(INIT, run).hooks[h].Exited? ==> Holds(Run(INIT, run), h);
  }

  // ---------------------------------------------------------------------------
  // Every hook comes to an end
  // ---------------------------------------------------------------------------

  lemma ThreeSteps(s: State, a: Action, b: Action, c: Action)
    ensures Run(s, [a, b, c]) == Apply(Apply(Apply(s, a), b), c)
  {
    var u := Apply(Apply(s, a), b);
    assert [a, b, c][1..] == [b, c] && [b, c][1..] == [c] && [c][1..] == [];
    assert Run(u, [c]) == Apply(u, c);
    assert Run(Apply(s, a), [b, c]) == Run(u, [c]);
  }

  /** A listing shows the hook no sandbox older than its own. */
  ghost predicate SawNoOlder(s: State, id: BoxId) {
    s.shown == {} || (id in s.shown && OlderGone(s, id))
  }

  lemma PassesIff(s: State, id: BoxId)
    requires WellFormed(s) && id in s.boxes
    ensures Passes(s, id) <==> SawNoOlder(s, id)
  {
    if SawNoOlder(s, id) && s.shown != {} {
      forall other | other in s.shown && other in s.boxes && other != id ensures Older(s.boxes[id], s.boxes[other]) {
        assert s.boxes[other].id == other && s.boxes[id].id == id;
      }
    }
  }

  /** In every run, whoever looks next: a hook that is shown no older sandbox serves as soon
      as its launch succeeds, and removes its sandbox when it does not; any other one hides
      its sandbox and leaves. */
  lemma HookComesThrough(run: seq<Action>, h: Hook, ok: bool)
    requires h in Run(INIT, run).hooks && Run(INIT, run).hooks[h].Created?
    ensures var s := Run(INIT, run);
            var id := s.hooks[h].id;
            var won, lost := [Look(h), Launch(h, ok), TearDown(h, true)], [Look(h), Retag(h, true), Discard(h, ok)];
            if SawNoOlder(s, id) then
              Run(s, won) == (if ok then State(s.boxes, s.shown, s.hooks[h := Serving(id)])
                              else State(s.boxes, s.shown - {id}, s.hooks[h := Exited]))
            else Run(s, lost) == State(s.boxes, s.shown - {id}, s.hooks[h := Exited])
  {
    RunKeepsWellFormed(INIT, run);
    var s := Run(INIT, run);
    assert Holds(s, h);
    var id := s.hooks[h].id;
    PassesIff(s, id);
    if SawNoOlder(s, id) {
      ThreeSteps(s, Look(h), Launch(h, ok), TearDown(h, true));
      Overwritten(s.hooks, h, Won(id), if ok then Serving(id) else Failed(id));
      Overwritten(s.hooks, h, Failed(id), Exited);
    } else {
      ThreeSteps(s, Look(h), Retag(h, true), Discard(h, ok));
      Overwritten(s.hooks, h, Lost(id), Retagged(id));
      Overwritten(s.hooks, h, Retagged(id), Exited);
    }
  }

  lemma Overwritten(hooks: map<Hook, Phase>, h: Hook, p: Phase, q: Phase)
    ensures hooks[h := p][h := q] == hooks[h := q]
  {
  }

  lemma {:induction false} RunKeepsWellFormed(s: State, run: seq<Action>)
    requires WellFormed(s)
    ensures WellFormed(Run(s, run))
    decreases |run|
  {
    if run != [] {
      StepKeepsWellFormed(s, run[0]);
      RunKeepsWellFormed(Apply(s, run[0]), run[1..]);
    }
  }

  /** The hook of the first sandbox of all is elected, whoever else creates, lists or tears
      down in between, as long as nobody else deletes a sandbox. */
  lemma FirstIsElected(run: seq<Action>, h: Hook)
    requires OrderedRun(INIT, run) && forall a :: a in run ==> !a.Lose?
    requires var s := Run(INIT, run); h in s.hooks && s.hooks[h].Created? && First(s, s.hooks[h].id)
    ensures var s := Run(INIT, run); Winner(Apply(s, Look(h)), h) && OlderGone(s, s.hooks[h].id)
  {
    RunKeepsFirstSafe(INIT, run);
    var s := Run(INIT, run);
    assert Holds(s, h);
    assert Oldest(s, s.hooks[h].id);
  }
}
