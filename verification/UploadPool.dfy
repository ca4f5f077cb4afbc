/**
 The workers of upload: at most eight of them share one counter of the next file,
 counters of what is done, and one abort signal.  A worker runs from one await to the
 next without being interrupted; between awaits the workers interleave freely, and any
 write may succeed or fail at any time, after an abort too.
 */
module UploadPool {

  const CONCURRENCY := 8

  datatype Worker =
    | Ready                 // at the head of the loop
    | Writing(file: nat)    // awaiting the write of that file
    | Done                  // left the loop, or returned on somebody else's abort
    | Threw(file: nat)      // its write failed first: Promise.all rejects with it

  datatype State = State(
    next: nat,
    done: nat,
    bytes: nat,
    aborted: bool,
    workers: seq<Worker>,
    started: seq<nat>,      // the files whose write was started, in order
    written: set<nat>       // the files whose write succeeded
  )

  datatype Action =
    | Take(w: nat)                  // the loop head of a ready worker
    | Finish(w: nat, ok: bool)      // its write settles

  function Init(sizes: seq<nat>): State {
    var n := if |sizes| < CONCURRENCY then |sizes| else CONCURRENCY;
    State(0, 0, 0, false, seq(n, _ => Ready), [], {})
  }

  function Apply(sizes: seq<nat>, s: State, a: Action): State {
    if a.w >= |s.workers| then s
    else
      match (a, s.workers[a.w])
      case (Take(w), Ready) =>
        if !s.aborted && s.next < |sizes| then
          s.(workers := s.workers[w := Writing(s.next)], next := s.next + 1, started := s.started + [s.next])
        else s.(workers := s.workers[w := Done])
      case (Finish(w, ok), Writing(f)) =>
        if ok then
          s.(workers := s.workers[w := Ready], done := s.done + 1,
             bytes := s.bytes + (if f < |sizes| then sizes[f] else 0), written := s.written + {f})
        else if s.aborted then s.(workers := s.workers[w := Done])
        else s.(workers := s.workers[w := Threw(f)], aborted := true)
      case _ => s
  }

  function Run(sizes: seq<nat>, s: State, run: seq<Action>): State
    decreases |run|
  {
    if run == [] then s else Run(sizes, Apply(sizes, s, run[0]), run[1..])
  }

  // ---------------------------------------------------------------------------
  // Invariant
  // ---------------------------------------------------------------------------

  /** The sizes of the first k files that are in the set. */
  function SumOf(sizes: seq<nat>, files: set<nat>, k: nat): nat
    requires k <= |sizes|
  {
    if k == 0 then 0 else SumOf(sizes, files, k - 1) + (if k - 1 in files then sizes[k - 1] else 0)
  }

  function Total(sizes: seq<nat>): nat { if sizes == [] then 0 else sizes[0] + Total(sizes[1..]) }

  predicate InFlight(s: State, w: nat, f: nat) { w < |s.workers| && s.workers[w] == Writing(f) }

  predicate Thrown(s: State, w: nat) { w < |s.workers| && s.workers[w].Threw? }

  predicate Ended(s: State, w: nat) { w < |s.workers| && s.workers[w].Done? }

  ghost predicate Inv(sizes: seq<nat>, s: State) {
    && s.next <= |sizes| && |s.workers| <= CONCURRENCY && (sizes != [] ==> |s.workers| > 0)
    && s.started == seq(s.next, i => i)
    && (forall f :: f in s.written ==> f < s.next)
    && (forall w: nat, f: nat :: InFlight(s, w, f) ==> f < s.next && f !in s.written)
    && (forall w: nat, v: nat, f: nat :: InFlight(s, w, f) && InFlight(s, v, f) ==> w == v)
    && s.done == |s.written| && s.bytes == SumOf(sizes, s.written, |sizes|)
    && (s.aborted <==> exists w: nat :: Thrown(s, w))
    && (!s.aborted ==> forall f :: 0 <= f < s.next && f !in s.written ==> exists w: nat :: InFlight(s, w, f))
    && (forall w: nat :: !s.aborted && Ended(s, w) ==> s.next == |sizes|)
  }

  lemma {:induction false} SumGrows(sizes: seq<nat>, files: set<nat>, f: nat, k: nat)
    requires k <= |sizes| && f < |sizes| && f !in files
    ensures SumOf(sizes, files + {f}, k) == SumOf(sizes, files, k) + (if f < k then sizes[f] else 0)
  {
    if k > 0 {
      SumGrows(sizes, files, f, k - 1);
    }
  }

  lemma TakeKeepsInv(sizes: seq<nat>, s: State, w: nat)
    requires Inv(sizes, s) && w < |s.workers| && s.workers[w].Ready?
    ensures Inv(sizes, Apply(sizes, s, Take(w)))
  {
    var t := Apply(sizes, s, Take(w));
    assert forall v: nat, f: nat :: v != w ==> (InFlight(t, v, f) <==> InFlight(s, v, f));
    assert forall v: nat :: v != w ==> (Thrown(t, v) <==> Thrown(s, v)) && (Ended(t, v) ==> Ended(s, v));
    if !s.aborted && s.next < |sizes| {
      assert InFlight(t, w, s.next);
    }
    forall f | !t.aborted && 0 <= f < t.next && f !in t.written
      ensures exists v: nat :: InFlight(t, v, f)
    {
      if f < s.next {
        var v: nat :| InFlight(s, v, f);
        assert InFlight(t, v, f);
      }
    }
  }

  lemma FinishKeepsInv(sizes: seq<nat>, s: State, w: nat, ok: bool)
    requires Inv(sizes, s) && w < |s.workers| && s.workers[w].Writing?
    ensures Inv(sizes, Apply(sizes, s, Finish(w, ok)))
  {
    var t := Apply(sizes, s, Finish(w, ok));
    var file := s.workers[w].file;
    assert InFlight(s, w, file);
    assert forall v: nat, f: nat :: v != w ==> (InFlight(t, v, f) <==> InFlight(s, v, f));
    assert forall v: nat :: v != w ==> (Thrown(t, v) <==> Thrown(s, v)) && (Ended(t, v) ==> Ended(s, v));
    assert !ok && !s.aborted ==> Thrown(t, w);
    if ok {
      SumGrows(sizes, s.written, file, |sizes|);
    }
    forall f | !t.aborted && 0 <= f < t.next && f !in t.written
      ensures exists v: nat :: InFlight(t, v, f)
    {
      var v: nat :| InFlight(s, v, f);
      assert InFlight(t, v, f);
    }
  }

  lemma {:induction false} RunKeepsInv(sizes: seq<nat>, s: State, run: seq<Action>)
    requires Inv(sizes, s)
    ensures Inv(sizes, Run(sizes, s, run))
    decreases |run|
  {
    if run != [] {
      var a := run[0];
      if a.w < |s.workers| {
        if a.Take? && s.workers[a.w].Ready? {
          TakeKeepsInv(sizes, s, a.w);
        } else if a.Finish? && s.workers[a.w].Writing? {
          FinishKeepsInv(sizes, s, a.w, a.ok);
        }
      }
      RunKeepsInv(sizes, Apply(sizes, s, a), run[1..]);
    }
  }

  lemma {:induction false} SumOfNone(sizes: seq<nat>, k: nat)
    requires k <= |sizes|
    ensures SumOf(sizes, {}, k) == 0
  {
    if k > 0 {
      SumOfNone(sizes, k - 1);
    }
  }

  lemma InvInit(sizes: seq<nat>)
    ensures Inv(sizes, Init(sizes))
  {
    SumOfNone(sizes, |sizes|);
  }

  // ---------------------------------------------------------------------------
  // What a run guarantees
  // ---------------------------------------------------------------------------

  /** In every interleaving each file's write is started at most once, in order, by one
      worker; what is counted is what was written. */
  lemma EachFileStartedOnce(sizes: seq<nat>, run: seq<Action>)
    ensures var s := Run(sizes, Init(sizes), run);
            && s.started == seq(s.next, i => i) && s.next <= |sizes|
            && (forall w: nat, v: nat, f: nat :: InFlight(s, w, f) && InFlight(s, v, f) ==> w == v)
            && (forall w: nat, f: nat :: InFlight(s, w, f) ==> f !in s.written)
            && s.done == |s.written| && s.bytes == SumOf(sizes, s.written, |sizes|)
  {
    InvInit(sizes);
    RunKeepsInv(sizes, Init(sizes), run);
  }

  function FirstN(n: nat): (all: set<nat>)
    ensures |all| == n && forall f: nat :: f in all <==> f < n
  {
    if n == 0 then {} else FirstN(n - 1) + {n - 1}
  }

  ghost predicate AllEnded(s: State) { forall w: nat :: w < |s.workers| ==> Ended(s, w) }

  /** Promise.all resolves only when every file was written, and then the counters show
      every file and every byte. */
  lemma SuccessMeansAllWritten(sizes: seq<nat>, run: seq<Action>)
    requires AllEnded(Run(sizes, Init(sizes), run))
    ensures var s := Run(sizes, Init(sizes), run);
            s.written == FirstN(|sizes|) && s.done == |sizes| && s.bytes == Total(sizes)
  {
    var s := Run(sizes, Init(sizes), run);
    InvInit(sizes);
    RunKeepsInv(sizes, Init(sizes), run);
    if sizes != [] {
      assert Ended(s, 0);
    }
    assert forall w: nat :: Thrown(s, w) ==> !Ended(s, w);
    assert s.next == |sizes|;
    forall f: nat | f < |sizes|
      ensures f in s.written
    {
      assert forall w: nat :: InFlight(s, w, f) ==> !Ended(s, w);
    }
    assert s.written == FirstN(|sizes|);
    SumOfAll(sizes, s.written, |sizes|);
    assert sizes[..|sizes|] == sizes;
  }

  lemma {:induction false} SumOfAll(sizes: seq<nat>, files: set<nat>, k: nat)
    requires k <= |sizes| && forall f :: 0 <= f < |sizes| ==> f in files
    ensures SumOf(sizes, files, k) == Total(sizes[..k])
  {
    if k > 0 {
      SumOfAll(sizes, files, k - 1);
      TotalSnoc(sizes[..k - 1], sizes[k - 1]);
      assert sizes[..k] == sizes[..k - 1] + [sizes[k - 1]];
    }
  }

  lemma {:induction false} TotalSnoc(sizes: seq<nat>, last: nat)
    ensures Total(sizes + [last]) == Total(sizes) + last
  {
    if sizes == [] {
      assert sizes + [last] == [last];
    } else {
      assert (sizes + [last])[1..] == sizes[1..] + [last];
      TotalSnoc(sizes[1..], last);
    }
  }

  /** Fail fast: after the first failure no further write is started. */
  lemma {:induction false} NothingStartsAfterAbort(sizes: seq<nat>, s: State, run: seq<Action>)
    requires s.aborted
    ensures Run(sizes, s, run).aborted && Run(sizes, s, run).started == s.started
    decreases |run|
  {
    if run != [] {
      NothingStartsAfterAbort(sizes, Apply(sizes, s, run[0]), run[1..]);
    }
  }

  // ---------------------------------------------------------------------------
  // What has to happen
  // ---------------------------------------------------------------------------

  lemma {:induction false} SameWorkers(sizes: seq<nat>, s: State, run: seq<Action>)
    ensures |Run(sizes, s, run).workers| == |s.workers|
    decreases |run|
  {
    if run != [] { SameWorkers(sizes, Apply(sizes, s, run[0]), run[1..]); }
  }

  /** A worker ends by throwing exactly as the first failure, and that is what aborts; until
      then no worker leaves while a file is left, one each up to eight. */
  lemma FirstFailureAborts(sizes: seq<nat>, run: seq<Action>, w: nat, f: nat)
    ensures var s := Run(sizes, Init(sizes), run);
            && |s.workers| == (if |sizes| <= 8 then |sizes| else 8)
            && (s.aborted <==> exists v: nat :: Thrown(s, v))
            && (InFlight(s, w, f) ==>
                  var t := Apply(sizes, s, Finish(w, false));
                  t.aborted && t.workers[w] == (if s.aborted then Done else Threw(f)) && f !in t.written)
            && (!s.aborted && s.next < |sizes| && w < |s.workers| ==> s.workers[w].Ready? || s.workers[w].Writing?)
  {
    InvInit(sizes);
    RunKeepsInv(sizes, Init(sizes), run);
    SameWorkers(sizes, Init(sizes), run);
    var s := Run(sizes, Init(sizes), run);
    if !s.aborted && w < |s.workers| { assert !Thrown(s, w) && (Ended(s, w) <==> s.workers[w].Done?); }
  }

  /** Steps left to a worker, and to a file that is not started. */
  function StepsLeft(w: Worker): nat { if w.Ready? then 1 else if w.Writing? then 2 else 0 }

  function AllSteps(workers: seq<Worker>): nat {
    if workers == [] then 0 else StepsLeft(workers[0]) + AllSteps(workers[1..])
  }

  lemma {:induction false} OneWorkerStep(workers: seq<Worker>, w: nat, p: Worker)
    requires w < |workers|
    ensures AllSteps(workers[w := p]) == AllSteps(workers) - StepsLeft(workers[w]) + StepsLeft(p)
    ensures AllSteps(workers) >= StepsLeft(workers[w])
    decreases |workers|
  {
    if w > 0 {
      assert workers[w := p][1..] == workers[1..][w - 1 := p];
      OneWorkerStep(workers[1..], w - 1, p);
    } else {
      assert workers[w := p][1..] == workers[1..];
    }
  }

  /** From wherever it stands without a failure, the upload can be brought to its end. */
  lemma {:induction false} CanFinish(sizes: seq<nat>, s: State) returns (run: seq<Action>)
    requires Inv(sizes, s) && !s.aborted
    ensures AllEnded(Run(sizes, s, run)) && !Run(sizes, s, run).aborted
    decreases 3 * (|sizes| - s.next) + AllSteps(s.workers)
  {
    run := [];
    if w: nat :| w < |s.workers| && !Ended(s, w) {
      assert !Thrown(s, w);
      var a := if s.workers[w].Ready? then Take(w) else Finish(w, true);
      var t := Apply(sizes, s, a);
      OneWorkerStep(s.workers, w, t.workers[w]);
      if a.Take? { TakeKeepsInv(sizes, s, w); } else { FinishKeepsInv(sizes, s, w, true); }
      var rest := CanFinish(sizes, t);
      run := [a] + rest;
      assert run[1..] == rest;
    }
  }

  /** So from every point of an upload whose writes succeeded so far, it can still end with
      every file written. */
  lemma UploadCanComplete(sizes: seq<nat>, run: seq<Action>) returns (more: seq<Action>)
    requires !Run(sizes, Init(sizes), run).aborted
    ensures var s := Run(sizes, Init(sizes), run + more);
            AllEnded(s) && s.written == FirstN(|sizes|) && s.bytes == Total(sizes)
  {
    InvInit(sizes);
    RunKeepsInv(sizes, Init(sizes), run);
    more := CanFinish(sizes, Run(sizes, Init(sizes), run));
    Continued(sizes, Init(sizes), run, more);
    SuccessMeansAllWritten(sizes, run + more);
  }

  lemma {:induction false} Continued(sizes: seq<nat>, s: State, run: seq<Action>, more: seq<Action>)
    ensures Run(sizes, s, run + more) == Run(sizes, Run(sizes, s, run), more)
    decreases |run|
  {
    if run == [] {
      assert run + more == more;
    } else {
      assert (run + more)[1..] == run[1..] + more;
      Continued(sizes, Apply(sizes, s, run[0]), run[1..], more);
    }
  }
}
