/**
 Before a new payment may start, the server is asked whether an earlier checkout of the
 same team and user is still pending.  Questions and answers are asynchronous, the page may
 move to another context in between, and only an answer for the very context shown counts.
 Handlers are those of the latest render, so what was saved last is what they see.
 */
module CheckoutFence {
  import opened Options

  /** One team, actor and flag; every change of them makes a new object. */
  datatype Context = Context(id: nat, team: bool, actor: bool, enabled: bool)

  datatype Phase = Checking | Clear | Pending | Uncertain | Error

  datatype Saved = Saved(context: Context, phase: Phase, purchase: Option<int>, busy: bool)

  /** The refs and the saved state of the hook. */
  datatype Fields = Fields(
    current: Option<Context>,
    running: Option<Context>,
    unsettled: Option<Context>,
    saved: Option<Saved>
  )

  /** What the server says about a checkout; Failed is a lost or broken answer. */
  datatype Answer = NoPending | HasPending(purchase: int) | Recovered | Retryable | Other | Failed

  /** Where a step leaves its operation. */
  datatype Next = Finished | Refresh

  // ---------------------------------------------------------------------------
  // The steps between two waits
  // ---------------------------------------------------------------------------

  predicate Active(c: Context) { c.enabled && c.team && c.actor }

  function Released(f: Fields, c: Context): Fields { if f.running == Some(c) then f.(running := None) else f }

  function Show(f: Fields, c: Context, phase: Phase, purchase: Option<int>, busy: bool): Fields {
    f.(saved := Some(Saved(c, phase, purchase, busy)))
  }

  predicate CheckBegins(f: Fields, c: Context) { Active(c) && f.running != Some(c) }

  function CheckBegun(f: Fields, c: Context): Fields { Show(f.(running := Some(c)), c, Checking, None, true) }

  function CheckFailed(f: Fields, c: Context): Fields {
    Released(if f.current == Some(c) then Show(f, c, Error, None, false) else f, c)
  }

  function CheckAnswered(f: Fields, c: Context, a: Answer): (Fields, Next) {
    if a.Failed? then (CheckFailed(f, c), Finished)
    else if f.current != Some(c) then (Released(f, c), Finished)
    else if a.NoPending? then
      if f.unsettled == Some(c) then (f, Refresh) else (Released(Show(f, c, Clear, None, false), c), Finished)
    else
      var g := f.(unsettled := Some(c));
      (Released(if a.HasPending? then Show(g, c, Pending, Some(a.purchase), false)
                else Show(g, c, Uncertain, None, false), c), Finished)
  }

  function CheckRefreshed(f: Fields, c: Context, ok: bool): Fields {
    if !ok then CheckFailed(f, c)
    else if f.current != Some(c) then Released(f, c)
    else Released(Show(f.(unsettled := None), c, Clear, None, false), c)
  }

  /** The purchase a click on resume or cancel acts on. */
  function Shown(f: Fields, c: Context): Option<int> {
    if f.saved.Some? && f.saved.value.context == c then f.saved.value.purchase else None
  }

  predicate ActBegins(f: Fields, c: Context) {
    Active(c) && Shown(f, c).Some? && f.current == Some(c) && f.running != Some(c)
  }

  function ActBegun(f: Fields, c: Context, purchase: int): Fields {
    Show(f.(running := Some(c)), c, Pending, Some(purchase), true)
  }

  function ActEnds(f: Fields, c: Context, purchase: int): Fields {
    Released(if f.current == Some(c) then Show(f, c, Pending, Some(purchase), false) else f, c)
  }

  function ActAnswered(f: Fields, c: Context, purchase: int, cancel: bool, a: Answer): (Fields, Next) {
    if a.Failed? then (ActEnds(f, c, purchase), Finished)
    else if f.current != Some(c) then (Released(f, c), Finished)
    else if a.Recovered? && !cancel then (Released(f, c), Finished)
    else if a.Retryable? then (f, Refresh)
    else (ActEnds(f, c, purchase), Finished)
  }

  /** Once refreshed, the act checks again before it ends. */
  function ActRefreshed(f: Fields, c: Context, purchase: int, ok: bool): (Fields, bool) {
    if !ok then (ActEnds(f, c, purchase), false)
    else if f.current != Some(c) then (Released(f, c), false)
    else (CheckBegun(f.(unsettled := None, running := None), c), true)
  }

  predicate CanStart(f: Fields, c: Context) {
    !c.enabled
    || (c.team && c.actor && f.current == Some(c) && f.running != Some(c)
        && f.saved.Some? && f.saved.value.context == c && f.saved.value.phase == Clear)
  }

  class Hook {
    var current: Option<Context>
    var running: Option<Context>
    var unsettled: Option<Context>
    var saved: Option<Saved>

    ghost function Now(): Fields reads this { Fields(current, running, unsettled, saved) }

    method Finally(c: Context)
      modifies this`running
      ensures Now() == Released(old(Now()), c)
    {
      if running == Some(c) { running := None; }
    }

    method StartCheck(c: Context) returns (started: bool)
      modifies this
      ensures started == CheckBegins(old(Now()), c)
      ensures Now() == if started then CheckBegun(old(Now()), c) else old(Now())
    {
      if !c.enabled || !c.team || !c.actor || running == Some(c) { return false; }
      running := Some(c);
      saved := Some(Saved(c, Checking, None, true));
      started := true;
    }

    method AnswerCheck(c: Context, a: Answer) returns (next: Next)
      modifies this
      ensures (Now(), next) == CheckAnswered(old(Now()), c, a)
    {
      next := Finished;
      if a.Failed? {
        if current == Some(c) { saved := Some(Saved(c, Error, None, false)); }
      } else if current == Some(c) {
        if a.NoPending? {
          if unsettled == Some(c) { return Refresh; }
        } else {
          unsettled := Some(c);
        }
        var phase := if a.NoPending? then Clear else if a.HasPending? then Pending else Uncertain;
        saved := Some(Saved(c, phase, if a.HasPending? then Some(a.purchase) else None, false));
      }
      Finally(c);
    }

    method RefreshCheck(c: Context, ok: bool)
      modifies this
      ensures Now() == CheckRefreshed(old(Now()), c, ok)
    {
      if current == Some(c) {
        if ok { unsettled := None; }
        saved := Some(Saved(c, if ok then Clear else Error, None, false));
      }
      Finally(c);
    }

    method StartAct(c: Context) returns (purchase: Option<int>)
      modifies this
      ensures purchase == if ActBegins(old(Now()), c) then Shown(old(Now()), c) else None
      ensures Now() == if purchase.Some? then ActBegun(old(Now()), c, purchase.value) else old(Now())
    {
      purchase := if saved.Some? && saved.value.context == c then saved.value.purchase else None;
      if !(c.enabled && c.team && c.actor) || purchase.None? || current != Some(c) || running == Some(c) {
        return None;
      }
      running := Some(c);
      saved := Some(Saved(c, Pending, purchase, true));
    }

    method AnswerAct(c: Context, purchase: int, cancel: bool, a: Answer) returns (next: Next)
      modifies this
      ensures (Now(), next) == ActAnswered(old(Now()), c, purchase, cancel, a)
    {
      next := Finished;
      if current == Some(c) && !(a.Recovered? && !cancel) {
        if a.Retryable? { return Refresh; }
        saved := Some(Saved(c, Pending, Some(purchase), false));
      }
      Finally(c);
    }

    method RefreshAct(c: Context, purchase: int, ok: bool) returns (checking: bool)
      requires Active(c)
      modifies this
      ensures (Now(), checking) == ActRefreshed(old(Now()), c, purchase, ok)
    {
      checking := false;
      if current == Some(c) {
        if ok {
          unsettled := None;
          running := None;
          checking := StartCheck(c);
          return;
        }
        saved := Some(Saved(c, Pending, Some(purchase), false));
      }
      Finally(c);
    }
  }

  // ---------------------------------------------------------------------------
  // Interleaved operations
  // ---------------------------------------------------------------------------

  /** What an operation waits for.  An act whose check has ended still has to return. */
  datatype Stage =
    | CheckAsked
    | CheckRefreshing
    | ActAsked(cancel: bool, purchase: int)
    | ActRefreshing(purchase: int)
    | Returning
    | Done

  datatype Task = Task(c: Context, stage: Stage, nested: bool)

  datatype Event = Answered(c: Context, a: Answer) | Refreshed(c: Context)

  /** The hook, its operations so far, what was recorded for the context current at the
      time, and the identity of the next context. */
  datatype World = World(f: Fields, tasks: seq<Task>, log: seq<Event>, next: nat)

  datatype Action =
    | Render(team: bool, actor: bool, enabled: bool)
    | Unmount
    | Check
    | Act(cancel: bool)
    | Reply(i: nat, a: Answer)
    | RefreshEnds(i: nat, ok: bool)
    | Return(i: nat)

  function Ended(t: Task): Task { t.(stage := if t.nested then Returning else Done) }

  function Apply(w: World, a: Action): World {
    match a
    case Render(team, actor, enabled) =>
      w.(f := w.f.(current := Some(Context(w.next, team, actor, enabled))), next := w.next + 1)
    case Unmount => w.(f := w.f.(current := None))
    case Check =>
      if w.f.current.Some? && CheckBegins(w.f, w.f.current.value)
      then w.(f := CheckBegun(w.f, w.f.current.value), tasks := w.tasks + [Task(w.f.current.value, CheckAsked, false)])
      else w
    case Act(cancel) =>
      if w.f.current.Some? && ActBegins(w.f, w.f.current.value) then
        var c := w.f.current.value;
        var purchase := Shown(w.f, c).value;
        w.(f := ActBegun(w.f, c, purchase), tasks := w.tasks + [Task(c, ActAsked(cancel, purchase), false)])
      else w
    case Reply(i, answer) => if i < |w.tasks| then Replied(w, i, answer) else w
    case RefreshEnds(i, ok) => if i < |w.tasks| then RefreshEnded(w, i, ok) else w
    case Return(i) =>
      if i < |w.tasks| && w.tasks[i].stage.Returning?
      then w.(f := Released(w.f, w.tasks[i].c), tasks := w.tasks[i := w.tasks[i].(stage := Done)])
      else w
  }

  function Replied(w: World, i: nat, a: Answer): World
    requires i < |w.tasks|
  {
    var t := w.tasks[i];
    var log := if w.f.current == Some(t.c) && !a.Failed? then w.log + [Answered(t.c, a)] else w.log;
    match t.stage
    case CheckAsked =>
      var (f, next) := CheckAnswered(w.f, t.c, a);
      w.(f := f, log := log, tasks := w.tasks[i := if next.Refresh? then t.(stage := CheckRefreshing) else Ended(t)])
    case ActAsked(cancel, purchase) =>
      var (f, next) := ActAnswered(w.f, t.c, purchase, cancel, a);
      var stage := if next.Refresh? then ActRefreshing(purchase) else Done;
      w.(f := f, log := log, tasks := w.tasks[i := t.(stage := stage)])
    case _ => w
  }

  function RefreshEnded(w: World, i: nat, ok: bool): World
    requires i < |w.tasks|
  {
    var t := w.tasks[i];
    var log := if w.f.current == Some(t.c) && ok then w.log + [Refreshed(t.c)] else w.log;
    match t.stage
    case CheckRefreshing => w.(f := CheckRefreshed(w.f, t.c, ok), log := log, tasks := w.tasks[i := Ended(t)])
    case ActRefreshing(purchase) =>
      var (f, checking) := ActRefreshed(w.f, t.c, purchase, ok);
      w.(f := f, log := log, tasks := w.tasks[i := if checking then Task(t.c, CheckAsked, true) else t.(stage := Done)])
    case _ => w
  }

  function Run(w: World, run: seq<Action>): World
    decreases |run|
  {
    if run == [] then w else Run(Apply(w, run[0]), run[1..])
  }

  const MOUNTED := World(Fields(None, None, None, None), [], [], 0)

  /** The operation waits for the server or for a refresh. */
  predicate InFlight(w: World, i: nat) {
    i < |w.tasks| && !w.tasks[i].stage.Done? && !w.tasks[i].stage.Returning?
  }

  predicate IsReturning(w: World, i: nat) { i < |w.tasks| && w.tasks[i].stage.Returning? }

  /** An act returns in the turn its check ends in: no handler of its context starts another
      operation in between. */
  ghost predicate PromptStep(w: World, a: Action) {
    a.Check? || a.Act? ==> forall i: nat :: IsReturning(w, i) ==> w.f.current != Some(w.tasks[i].c)
  }

  ghost predicate Prompt(w: World, run: seq<Action>)
    decreases |run|
  {
    run != [] ==> PromptStep(w, run[0]) && Prompt(Apply(w, run[0]), run[1..])
  }

  // ---------------------------------------------------------------------------
  // What was recorded
  // ---------------------------------------------------------------------------

  function LastAnswer(log: seq<Event>, c: Context): Option<Answer> {
    if log == [] then None
    else
      var e := log[|log| - 1];
      if e.Answered? && e.c == c then Some(e.a) else LastAnswer(log[..|log| - 1], c)
  }

  /** Since the last answer other than "no pending checkout", a refresh was completed. */
  predicate Settled(log: seq<Event>, c: Context) {
    log == [] ||
    var e := log[|log| - 1];
    if e == Refreshed(c) then true
    else if e.Answered? && e.c == c && !e.a.NoPending? then false
    else Settled(log[..|log| - 1], c)
  }

  lemma {:induction false} SettledMeans(log: seq<Event>, c: Context, i: nat)
    requires Settled(log, c) && i < |log| && log[i].Answered? && log[i].c == c && !log[i].a.NoPending?
    ensures exists j: nat :: i < j < |log| && log[j] == Refreshed(c)
    decreases |log|
  {
    if log[|log| - 1] == Refreshed(c) {
      assert i < |log| - 1;
    } else {
      SettledMeans(log[..|log| - 1], c, i);
      var j: nat :| i < j < |log| - 1 && log[..|log| - 1][j] == Refreshed(c);
      assert log[j] == Refreshed(c);
    }
  }

  lemma OneMore(log: seq<Event>, e: Event, c: Context)
    ensures LastAnswer(log + [e], c) == if e.Answered? && e.c == c then Some(e.a) else LastAnswer(log, c)
    ensures Settled(log + [e], c) <==>
            e == Refreshed(c) || (!(e.Answered? && e.c == c && !e.a.NoPending?) && Settled(log, c))
  {
    assert (log + [e])[..|log|] == log;
  }

  // ---------------------------------------------------------------------------
  // The invariant
  // ---------------------------------------------------------------------------

  predicate Known(w: World, c: Option<Context>) { c.Some? ==> c.value.id < w.next }

  predicate AllKnown(w: World) {
    && Known(w, w.f.current) && Known(w, w.f.running) && Known(w, w.f.unsettled)
    && (w.f.saved.Some? ==> w.f.saved.value.context.id < w.next)
    && (forall i: nat :: i < |w.tasks| ==> w.tasks[i].c.id < w.next && Active(w.tasks[i].c))
    && (forall i: nat :: i < |w.log| ==> w.log[i].c.id < w.next)
  }

  predicate Asks(w: World, i: nat, c: Context) { InFlight(w, i) && w.tasks[i].c == c }

  /** A waiting operation of the current context holds the ref, shows that it is busy, and
      is alone. */
  ghost predicate Busy(w: World, c: Context) {
    && (forall i: nat :: Asks(w, i, c) ==> Holds(w, i, c))
    && (forall i: nat, j: nat :: Asks(w, i, c) && Asks(w, j, c) ==> i == j)
    && (forall i: nat, j: nat :: Asks(w, i, c) && IsReturning(w, j) ==> w.tasks[j].c != c)
  }

  predicate Holds(w: World, i: nat, c: Context)
    requires Asks(w, i, c)
  {
    && w.f.running == Some(c) && w.f.saved.Some? && w.f.saved.value.context == c
    && (if w.tasks[i].stage.CheckAsked? || w.tasks[i].stage.CheckRefreshing? then w.f.saved.value.phase == Checking
        else w.f.saved.value.phase == Pending && w.f.saved.value.purchase.Some?)
    && (w.tasks[i].stage.CheckRefreshing? ==> LastAnswer(w.log, c) == Some(NoPending))
  }

  /** What is remembered and shown for the current context agrees with what was recorded. */
  predicate Recorded(w: World, c: Context) {
    && (w.f.unsettled == Some(c) <==> !Settled(w.log, c))
    && (w.f.saved.Some? && w.f.saved.value.context == c ==>
          && (w.f.saved.value.purchase.Some? ==> w.f.unsettled == Some(c))
          && (w.f.saved.value.phase == Checking ==> w.f.saved.value.purchase.None?)
          && (w.f.saved.value.phase == Clear ==> LastAnswer(w.log, c) == Some(NoPending) && Settled(w.log, c)))
  }

  ghost predicate Inv(w: World) {
    AllKnown(w) && (w.f.current.Some? ==> Busy(w, w.f.current.value) && Recorded(w, w.f.current.value))
  }

  lemma {:induction false} UnknownIsSettled(log: seq<Event>, c: Context)
    requires forall i: nat :: i < |log| ==> log[i].c.id < c.id
    ensures Settled(log, c)
    decreases |log|
  {
    if log != [] { UnknownIsSettled(log[..|log| - 1], c); }
  }

  lemma RenderKeepsInv(w: World, a: Action)
    requires Inv(w) && (a.Render? || a.Unmount?)
    ensures Inv(Apply(w, a))
  {
    if a.Render? { UnknownIsSettled(w.log, Context(w.next, a.team, a.actor, a.enabled)); }
  }

  lemma StartKeepsInv(w: World, a: Action)
    requires Inv(w) && (a.Check? || a.Act?) && PromptStep(w, a)
    ensures Inv(Apply(w, a))
  {
    var t := Apply(w, a);
    if t != w {
      var c := w.f.current.value;
      assert forall i: nat :: i < |w.tasks| ==> t.tasks[i] == w.tasks[i];
      assert forall i: nat :: IsReturning(t, i) ==> IsReturning(w, i);
      assert forall i: nat :: Asks(t, i, c) && i < |w.tasks| ==> Asks(w, i, c);
    }
  }

  lemma ReturnKeepsInv(w: World, i: nat)
    requires Inv(w)
    ensures Inv(Apply(w, Return(i)))
  {
    var t := Apply(w, Return(i));
    if t != w && w.f.current.Some? {
      var c := w.f.current.value;
      assert IsReturning(w, i);
      assert forall j: nat :: Asks(t, j, c) ==> Asks(w, j, c);
      assert forall j: nat :: IsReturning(t, j) ==> IsReturning(w, j);
    }
  }

  /** Only the operation that took the step changed, and it no longer waits unless the step
      left it waiting. */
  lemma OthersStay(w: World, t: World, i: nat, c: Context)
    requires i < |w.tasks| && InFlight(w, i) && |t.tasks| == |w.tasks| && t.tasks == w.tasks[i := t.tasks[i]]
    requires t.tasks[i].c == w.tasks[i].c
    ensures forall j: nat :: j != i ==> (Asks(t, j, c) <==> Asks(w, j, c)) && (IsReturning(t, j) <==> IsReturning(w, j))
    ensures Asks(t, i, c) ==> Asks(w, i, c)
  {
  }

  lemma ElsewhereKeepsInv(w: World, t: World, i: nat, now: Context)
    requires Busy(w, now) && Recorded(w, now) && i < |w.tasks| && InFlight(w, i) && w.tasks[i].c != now
    requires |t.tasks| == |w.tasks| && t.tasks == w.tasks[i := t.tasks[i]] && t.tasks[i].c == w.tasks[i].c
    requires t.f.saved == w.f.saved && t.f.unsettled == w.f.unsettled && t.log == w.log
    requires t.f.running == Some(now) <==> w.f.running == Some(now)
    ensures Busy(t, now) && Recorded(t, now)
  {
    OthersStay(w, t, i, now);
    forall j: nat | Asks(t, j, now) ensures Holds(t, j, now) {
      assert Asks(w, j, now) && Holds(w, j, now);
    }
  }

  /** The operation of the current context ends. */
  lemma EndKeepsBusy(w: World, t: World, i: nat, c: Context)
    requires Busy(w, c) && Asks(w, i, c)
    requires |t.tasks| == |w.tasks| && t.tasks == w.tasks[i := t.tasks[i]] && t.tasks[i].c == c && !InFlight(t, i)
    ensures Busy(t, c)
  {
    OthersStay(w, t, i, c);
    assert forall j: nat :: !Asks(t, j, c);
  }

  /** It goes on waiting, for something else. */
  lemma NextKeepsBusy(w: World, t: World, i: nat, c: Context)
    requires Busy(w, c) && Asks(w, i, c)
    requires |t.tasks| == |w.tasks| && t.tasks == w.tasks[i := t.tasks[i]] && Asks(t, i, c) && Holds(t, i, c)
    ensures Busy(t, c)
  {
    OthersStay(w, t, i, c);
  }

  lemma ReplyKeepsKnown(w: World, i: nat, a: Answer)
    requires AllKnown(w) && i < |w.tasks| && (w.tasks[i].stage.CheckAsked? || w.tasks[i].stage.ActAsked?)
    ensures AllKnown(Replied(w, i, a))
  {
    if w.tasks[i].stage.CheckAsked? { CheckReplyKeepsKnown(w, i, a); }
  }

  lemma CheckReplyKeepsKnown(w: World, i: nat, a: Answer)
    requires AllKnown(w) && i < |w.tasks| && w.tasks[i].stage.CheckAsked?
    ensures AllKnown(Replied(w, i, a))
  {
  }

  lemma CheckReply(w: World, i: nat, c: Context, a: Answer)
    requires Asks(w, i, c) && w.tasks[i].stage.CheckAsked? && w.f.current == Some(c) && Busy(w, c) && Recorded(w, c)
    ensures Busy(Replied(w, i, a), c) && Recorded(Replied(w, i, a), c)
  {
    var t := Replied(w, i, a);
    assert Holds(w, i, c);
    OneMore(w.log, Answered(c, a), c);
    if InFlight(t, i) { NextKeepsBusy(w, t, i, c); } else { EndKeepsBusy(w, t, i, c); }
  }

  lemma ActReply(w: World, i: nat, c: Context, a: Answer)
    requires Asks(w, i, c) && w.tasks[i].stage.ActAsked? && w.f.current == Some(c) && Busy(w, c) && Recorded(w, c)
    ensures Busy(Replied(w, i, a), c) && Recorded(Replied(w, i, a), c)
  {
    var t := Replied(w, i, a);
    assert Holds(w, i, c);
    OneMore(w.log, Answered(c, a), c);
    if InFlight(t, i) { NextKeepsBusy(w, t, i, c); } else { EndKeepsBusy(w, t, i, c); }
  }

  lemma ReplyKeepsInv(w: World, i: nat, a: Answer)
    requires Inv(w) && i < |w.tasks| && (w.tasks[i].stage.CheckAsked? || w.tasks[i].stage.ActAsked?)
    ensures Inv(Replied(w, i, a))
  {
    ReplyKeepsKnown(w, i, a);
    var c := w.tasks[i].c;
    if w.f.current == Some(c) {
      assert Asks(w, i, c);
      if w.tasks[i].stage.CheckAsked? { CheckReply(w, i, c, a); } else { ActReply(w, i, c, a); }
    } else if w.f.current.Some? {
      ElsewhereKeepsInv(w, Replied(w, i, a), i, w.f.current.value);
    }
  }

  lemma RefreshKeepsKnown(w: World, i: nat, ok: bool)
    requires AllKnown(w) && i < |w.tasks| && (w.tasks[i].stage.CheckRefreshing? || w.tasks[i].stage.ActRefreshing?)
    ensures AllKnown(RefreshEnded(w, i, ok))
  {
    if w.tasks[i].stage.CheckRefreshing? { CheckRefreshKeepsKnown(w, i, ok); }
  }

  lemma CheckRefreshKeepsKnown(w: World, i: nat, ok: bool)
    requires AllKnown(w) && i < |w.tasks| && w.tasks[i].stage.CheckRefreshing?
    ensures AllKnown(RefreshEnded(w, i, ok))
  {
  }

  lemma CheckRefresh(w: World, i: nat, c: Context, ok: bool)
    requires Asks(w, i, c) && w.tasks[i].stage.CheckRefreshing?
    requires w.f.current == Some(c) && Busy(w, c) && Recorded(w, c)
    ensures Busy(RefreshEnded(w, i, ok), c) && Recorded(RefreshEnded(w, i, ok), c)
  {
    assert Holds(w, i, c);
    OneMore(w.log, Refreshed(c), c);
    EndKeepsBusy(w, RefreshEnded(w, i, ok), i, c);
  }

  lemma ActRefresh(w: World, i: nat, c: Context, ok: bool)
    requires Asks(w, i, c) && w.tasks[i].stage.ActRefreshing? && w.f.current == Some(c) && Busy(w, c) && Recorded(w, c)
    ensures Busy(RefreshEnded(w, i, ok), c) && Recorded(RefreshEnded(w, i, ok), c)
  {
    var t := RefreshEnded(w, i, ok);
    assert Holds(w, i, c);
    OneMore(w.log, Refreshed(c), c);
    if ok { NextKeepsBusy(w, t, i, c); } else { EndKeepsBusy(w, t, i, c); }
  }

  lemma RefreshKeepsInv(w: World, i: nat, ok: bool)
    requires Inv(w) && i < |w.tasks| && (w.tasks[i].stage.CheckRefreshing? || w.tasks[i].stage.ActRefreshing?)
    ensures Inv(RefreshEnded(w, i, ok))
  {
    RefreshKeepsKnown(w, i, ok);
    var c := w.tasks[i].c;
    if w.f.current == Some(c) {
      assert Asks(w, i, c);
      if w.tasks[i].stage.CheckRefreshing? { CheckRefresh(w, i, c, ok); } else { ActRefresh(w, i, c, ok); }
    } else if w.f.current.Some? {
      ElsewhereKeepsInv(w, RefreshEnded(w, i, ok), i, w.f.current.value);
    }
  }

  lemma StepKeepsInv(w: World, a: Action)
    requires Inv(w) && PromptStep(w, a)
    ensures Inv(Apply(w, a))
  {
    match a
    case Render(_, _, _) => RenderKeepsInv(w, a);
    case Unmount => RenderKeepsInv(w, a);
    case Check => StartKeepsInv(w, a);
    case Act(_) => StartKeepsInv(w, a);
    case Reply(i, answer) =>
      if i < |w.tasks| && (w.tasks[i].stage.CheckAsked? || w.tasks[i].stage.ActAsked?) { ReplyKeepsInv(w, i, answer); }
    case RefreshEnds(i, ok) =>
      if i < |w.tasks| && (w.tasks[i].stage.CheckRefreshing? || w.tasks[i].stage.ActRefreshing?) {
        RefreshKeepsInv(w, i, ok);
      }
    case Return(i) => ReturnKeepsInv(w, i);
  }

  lemma {:induction false} RunKeepsInv(w: World, run: seq<Action>)
    requires Inv(w) && Prompt(w, run)
    ensures Inv(Run(w, run))
    decreases |run|
  {
    if run != [] {
      StepKeepsInv(w, run[0]);
      RunKeepsInv(Apply(w, run[0]), run[1..]);
    }
  }

  /** Whenever a payment may start with the hook enabled: the last answer recorded for that
      very context was "no pending checkout", nothing waits for it, and every other answer
      recorded for it was followed by a completed refresh. */
  lemma StartsOnlyWhenClear(run: seq<Action>)
    requires Prompt(MOUNTED, run)
    ensures var w := Run(MOUNTED, run);
            w.f.current.Some? && w.f.current.value.enabled && CanStart(w.f, w.f.current.value) ==>
              var c := w.f.current.value;
              && LastAnswer(w.log, c) == Some(NoPending)
              && (forall i: nat :: !Asks(w, i, c))
              && (forall i: nat :: i < |w.log| && w.log[i].Answered? && w.log[i].c == c && !w.log[i].a.NoPending? ==>
                    exists j: nat :: i < j < |w.log| && w.log[j] == Refreshed(c))
  {
    RunKeepsInv(MOUNTED, run);
    var w := Run(MOUNTED, run);
    if w.f.current.Some? && w.f.current.value.enabled && CanStart(w.f, w.f.current.value) {
      var c := w.f.current.value;
      forall i: nat | i < |w.log| && w.log[i].Answered? && w.log[i].c == c && !w.log[i].a.NoPending?
        ensures exists j: nat :: i < j < |w.log| && w.log[j] == Refreshed(c)
      {
        SettledMeans(w.log, c, i);
      }
      assert forall i: nat :: Asks(w, i, c) ==> Holds(w, i, c);
    }
  }

  /** The ref is held for an operation that waits or has yet to return. */
  ghost predicate Owned(w: World) {
    w.f.running.Some? ==> exists i: nat :: Asks(w, i, w.f.running.value)
  }

  lemma StepKeepsOwned(w: World, a: Action)
    requires Owned(w)
    ensures Owned(Apply(w, a))
  {
    var t := Apply(w, a);
    if t.f.running.Some? {
      var c := t.f.running.value;
      if t.f.running == w.f.running {
        var i: nat :| Asks(w, i, c);
        assert Asks(t, i, c);
      } else {
        assert Asks(t, if a.RefreshEnds? then a.i else |w.tasks|, c);
      }
    }
  }

  lemma {:induction false} RunKeepsOwned(w: World, run: seq<Action>)
    requires Owned(w)
    ensures Owned(Run(w, run))
    decreases |run|
  {
    if run != [] {
      StepKeepsOwned(w, run[0]);
      RunKeepsOwned(Apply(w, run[0]), run[1..]);
    }
  }

  /** The fence opens: in every run, where nothing waits for the context shown, a check that
      is answered with "no pending checkout", and a refresh where one is due, let a payment
      start.  A hook that is disabled never holds one back, and one without a team or an actor
      always does. */
  lemma ClearAnswerOpens(run: seq<Action>)
    ensures var w := Run(MOUNTED, run);
            w.f.current.Some? ==>
              var c, n := w.f.current.value, |w.tasks|;
              && (!c.enabled ==> CanStart(w.f, c))
              && (c.enabled && !Active(c) ==> !CanStart(w.f, c))
              && (Active(c) && (forall i: nat :: !Asks(w, i, c)) ==>
                    CanStart(Run(w, [Check, Reply(n, NoPending), RefreshEnds(n, true)]).f, c))
  {
    RunKeepsOwned(MOUNTED, run);
    var w := Run(MOUNTED, run);
    if w.f.current.Some? && Active(w.f.current.value) && forall i: nat :: !Asks(w, i, w.f.current.value) {
      CheckOpens(w, w.f.current.value);
    }
  }

  lemma CheckOpens(w: World, c: Context)
    requires w.f.current == Some(c) && Active(c) && w.f.running != Some(c)
    ensures var n := |w.tasks|; CanStart(Run(w, [Check, Reply(n, NoPending), RefreshEnds(n, true)]).f, c)
  {
    var n := |w.tasks|;
    var asked := Apply(w, Check);
    var told := Apply(asked, Reply(n, NoPending));
    var done := Apply(told, RefreshEnds(n, true));
    assert asked.tasks[n] == Task(c, CheckAsked, false);
    assert [Check, Reply(n, NoPending), RefreshEnds(n, true)][1..] == [Reply(n, NoPending), RefreshEnds(n, true)];
    assert [Reply(n, NoPending), RefreshEnds(n, true)][1..] == [RefreshEnds(n, true)];
    assert [RefreshEnds(n, true)][1..] == [];
    assert Run(done, []) == done;
    assert Run(told, [RefreshEnds(n, true)]) == done;
    assert Run(asked, [Reply(n, NoPending), RefreshEnds(n, true)]) == done;
  }

  lemma TwoSteps(w: World, a: Action, b: Action)
    ensures Run(w, [a, b]) == Apply(Apply(w, a), b)
  {
    assert [a, b][1..] == [b] && [b][1..] == [];
    assert Run(Apply(w, a), [b]) == Apply(Apply(w, a), b);
  }

  /** What a check is told is what is shown: in every run, where nothing waits for the context
      shown.  Only "no pending checkout" with no refresh due lets a payment start; a pending
      checkout can be resumed or cancelled; and behind any other answer a check can be made
      again. */
  lemma AnswerIsShown(run: seq<Action>, a: Answer)
    requires var w := Run(MOUNTED, run); w.f.current.Some? && Active(w.f.current.value)
    requires var w := Run(MOUNTED, run); forall i: nat :: !Asks(w, i, w.f.current.value)
    ensures var w := Run(MOUNTED, run);
            var c := w.f.current.value;
            var f := Run(w, [Check, Reply(|w.tasks|, a)]).f;
            && (CanStart(f, c) <==> a.NoPending? && w.f.unsettled != Some(c))
            && (a.HasPending? ==> Shown(f, c) == Some(a.purchase) && ActBegins(f, c))
            && (!a.HasPending? ==> Shown(f, c).None?)
            && (!a.NoPending? ==>
                  && CheckBegins(f, c) && f.saved.Some?
                  && f.saved.value.phase == (if a.HasPending? then Pending else if a.Failed? then Error else Uncertain))
  {
    RunKeepsOwned(MOUNTED, run);
    var w := Run(MOUNTED, run);
    var asked := Apply(w, Check);
    assert asked.tasks[|w.tasks|] == Task(w.f.current.value, CheckAsked, false);
    TwoSteps(w, Check, Reply(|w.tasks|, a));
  }

  /** An act on an offered checkout that the server answers as over, refreshed and checked
      again, opens the fence; one that fails leaves the checkout offered. */
  lemma ActOpens(run: seq<Action>, cancel: bool)
    requires var w := Run(MOUNTED, run); w.f.current.Some? && ActBegins(w.f, w.f.current.value)
    ensures var w := Run(MOUNTED, run);
            var c, n := w.f.current.value, |w.tasks|;
            var over := Run(Run(w, [Act(cancel), Reply(n, Retryable)]), [RefreshEnds(n, true), Reply(n, NoPending)]);
            var failed := Run(w, [Act(cancel), Reply(n, Failed)]);
            && CanStart(over.f, c) && CanStart(Apply(over, Return(n)).f, c)
            && Shown(failed.f, c) == Shown(w.f, c) && ActBegins(failed.f, c)
  {
    var w := Run(MOUNTED, run);
    var c, n := w.f.current.value, |w.tasks|;
    var purchase := Shown(w.f, c).value;
    var acting := Apply(w, Act(cancel));
    assert acting.tasks[n] == Task(c, ActAsked(cancel, purchase), false);
    TwoSteps(w, Act(cancel), Reply(n, Retryable));
    TwoSteps(w, Act(cancel), Reply(n, Failed));
    var told := Apply(acting, Reply(n, Retryable));
    assert told.tasks[n] == Task(c, ActRefreshing(purchase), false) && told.f == acting.f;
    TwoSteps(told, RefreshEnds(n, true), Reply(n, NoPending));
    var again := Apply(told, RefreshEnds(n, true));
    assert again.tasks[n] == Task(c, CheckAsked, true);
  }

  /** An answer or a refresh for another context changes nothing the current one sees. */
  lemma OldContextsDoNotMatter(w: World, i: nat, answer: Answer, ok: bool)
    requires i < |w.tasks| && w.f.current.Some? && w.tasks[i].c != w.f.current.value
    ensures forall a :: a in {Reply(i, answer), RefreshEnds(i, ok), Return(i)} ==>
              var f, g, c := w.f, Apply(w, a).f, w.f.current.value;
              && g.current == f.current && g.saved == f.saved && g.unsettled == f.unsettled
              && Apply(w, a).log == w.log
              && (g.running == Some(c) <==> f.running == Some(c))
              && (CanStart(g, c) <==> CanStart(f, c))
  {
  }

  // ---------------------------------------------------------------------------
  // The act must return promptly
  // ---------------------------------------------------------------------------

  const CONTEXT := Context(0, true, true, true)

  /** A check that starts between the end of an act's own check and the return of the act
      loses its claim on the ref, so a payment may start while a check still waits. */
  const LATE: seq<Action> := [
    Render(true, true, true), Check, Reply(0, HasPending(7)), Act(false), Reply(1, Retryable),
    RefreshEnds(1, true), Reply(1, NoPending), Check, Return(1), Check, Reply(3, NoPending)
  ]

  function Refs(running: Option<Context>, unsettled: Option<Context>, phase: Phase, purchase: Option<int>, busy: bool)
    : Fields
  {
    Fields(Some(CONTEXT), running, unsettled, Some(Saved(CONTEXT, phase, purchase, busy)))
  }

  const ASKED := Task(CONTEXT, CheckAsked, false)
  const OVER := Task(CONTEXT, Done, false)

  const TOLD_FIRST := [Answered(CONTEXT, HasPending(7))]

  /** Behind the first check and the act it leads to. */
  const TOLD := [Answered(CONTEXT, HasPending(7)), Answered(CONTEXT, Retryable), Refreshed(CONTEXT)]
  const ACTED := World(Refs(Some(CONTEXT), None, Checking, None, true),
                       [OVER, Task(CONTEXT, CheckAsked, true)], TOLD, 1)

  const OFFERED := World(Refs(None, Some(CONTEXT), Pending, Some(7), false), [OVER], TOLD_FIRST, 1)

  lemma Leads(w: World, k: nat, a: Action, next: World)
    requires k < |LATE| && LATE[k] == a && Apply(w, a) == next
    ensures Run(w, LATE[k..]) == Run(next, LATE[k + 1..])
  {
    assert LATE[k..][1..] == LATE[k + 1..];
  }

  const SHOWN := World(Fields(Some(CONTEXT), None, None, None), [], [], 1)
  const CHECKING := World(Refs(Some(CONTEXT), None, Checking, None, true), [ASKED], [], 1)

  lemma FirstSteps()
    ensures Apply(MOUNTED, Render(true, true, true)) == SHOWN
    ensures Apply(SHOWN, Check) == CHECKING
  {
  }

  lemma FirstAnswer()
    ensures Apply(CHECKING, Reply(0, HasPending(7))) == OFFERED
  {
  }

  lemma UntilOffered()
    ensures Run(MOUNTED, LATE) == Run(OFFERED, LATE[3..])
  {
    FirstSteps();
    FirstAnswer();
    assert LATE[0..] == LATE;
    Leads(MOUNTED, 0, Render(true, true, true), SHOWN);
    Leads(SHOWN, 1, Check, CHECKING);
    Leads(CHECKING, 2, Reply(0, HasPending(7)), OFFERED);
  }

  const BUSY := World(Refs(Some(CONTEXT), Some(CONTEXT), Pending, Some(7), true),
                      [OVER, Task(CONTEXT, ActAsked(false, 7), false)], TOLD_FIRST, 1)
  const REFRESHING := World(BUSY.f, [OVER, Task(CONTEXT, ActRefreshing(7), false)],
                            TOLD_FIRST + [Answered(CONTEXT, Retryable)], 1)

  lemma ActSteps()
    ensures Apply(OFFERED, Act(false)) == BUSY
    ensures Apply(BUSY, Reply(1, Retryable)) == REFRESHING
  {
  }

  lemma RefreshStep()
    ensures Apply(REFRESHING, RefreshEnds(1, true)) == ACTED
  {
    assert TOLD == REFRESHING.log + [Refreshed(CONTEXT)];
  }

  lemma UntilActed()
    ensures Run(OFFERED, LATE[3..]) == Run(ACTED, LATE[6..])
  {
    ActSteps();
    RefreshStep();
    Leads(OFFERED, 3, Act(false), BUSY);
    Leads(BUSY, 4, Reply(1, Retryable), REFRESHING);
    Leads(REFRESHING, 5, RefreshEnds(1, true), ACTED);
  }

  const CHECKED := TOLD + [Answered(CONTEXT, NoPending)]
  const ENDED := World(Refs(None, None, Clear, None, false), [OVER, Task(CONTEXT, Returning, true)], CHECKED, 1)
  const RECHECKING := World(Refs(Some(CONTEXT), None, Checking, None, true),
                            [OVER, Task(CONTEXT, Returning, true), ASKED], CHECKED, 1)
  const RELEASED := World(Refs(None, None, Checking, None, true), [OVER, Task(CONTEXT, Done, true), ASKED], CHECKED, 1)
  const TWICE := World(Refs(Some(CONTEXT), None, Checking, None, true),
                       [OVER, Task(CONTEXT, Done, true), ASKED, ASKED], CHECKED, 1)
  const UNCLAIMED := World(Refs(None, None, Clear, None, false), [OVER, Task(CONTEXT, Done, true), ASKED, OVER],
                           CHECKED + [Answered(CONTEXT, NoPending)], 1)

  lemma LateSteps()
    ensures Apply(ACTED, Reply(1, NoPending)) == ENDED
    ensures Apply(ENDED, Check) == RECHECKING
    ensures Apply(RECHECKING, Return(1)) == RELEASED
  {
  }

  lemma LastSteps()
    ensures Apply(RELEASED, Check) == TWICE
    ensures Apply(TWICE, Reply(3, NoPending)) == UNCLAIMED
  {
  }

  lemma UntilUnclaimed()
    ensures Run(ACTED, LATE[6..]) == UNCLAIMED
  {
    LateSteps();
    LastSteps();
    Leads(ACTED, 6, Reply(1, NoPending), ENDED);
    Leads(ENDED, 7, Check, RECHECKING);
    Leads(RECHECKING, 8, Return(1), RELEASED);
    Leads(RELEASED, 9, Check, TWICE);
    Leads(TWICE, 10, Reply(3, NoPending), UNCLAIMED);
  }

  lemma LateReturnBreaksIt()
    ensures !Prompt(MOUNTED, LATE)
    ensures CanStart(Run(MOUNTED, LATE).f, CONTEXT) && CONTEXT.enabled && Asks(Run(MOUNTED, LATE), 2, CONTEXT)
  {
    UntilOffered();
    UntilActed();
    UntilUnclaimed();
    assert Asks(UNCLAIMED, 2, CONTEXT);
    if Prompt(MOUNTED, LATE) { StartsOnlyWhenClear(LATE); }
  }
}
