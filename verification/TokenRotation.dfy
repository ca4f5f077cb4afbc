/**
 A sandbox object caches the access token and the routing hint that resume and activate
 requests return.  Requests overlap and are answered in any order, or never; what is cached
 must come from the latest one.
 */
module TokenRotation {
  import opened Options

  datatype Response = Response(token: string, hint: Option<string>)

  /** The fields of the object. */
  datatype Fields = Fields(
    token: string,
    hint: Option<string>,
    routeRevision: nat,
    applied: nat,
    inFlight: Option<nat>
  )

  /** An answer without a token is an error to the caller. */
  predicate Succeeds(raw: Option<Response>) { raw.Some? && raw.value.token != "" }

  function Issued(f: Fields): Fields { f.(routeRevision := f.routeRevision + 1) }

  function Answered(f: Fields, revision: nat, raw: Option<Response>): Fields {
    if Succeeds(raw) && revision > f.applied
    then f.(applied := revision, token := raw.value.token, hint := raw.value.hint)
    else f
  }

  function Cleared(f: Fields): Fields { f.(inFlight := None) }

  class Sandbox {
    var accessToken: string
    var routingHint: Option<string>
    var routeRevision: nat
    var appliedRouteRevision: nat
    var refreshInFlight: Option<nat>

    ghost function Now(): Fields
      reads this
    {
      Fields(accessToken, routingHint, routeRevision, appliedRouteRevision, refreshInFlight)
    }

    /** What a token-rotating request does before it waits for the answer. */
    method Post() returns (revision: nat)
      modifies this`routeRevision
      ensures Now() == Issued(old(Now())) && revision == routeRevision
    {
      routeRevision := routeRevision + 1;
      revision := routeRevision;
    }

    /** What it does with the answer; None is a failed request. */
    method RotateToken(revision: nat, raw: Option<Response>) returns (token: Option<string>)
      modifies this
      ensures Now() == Answered(old(Now()), revision, raw)
      ensures token == if Succeeds(raw) then Some(accessToken) else None
    {
      if raw.None? || raw.value.token == "" { return None; }
      if revision > appliedRouteRevision {
        appliedRouteRevision := revision;
        accessToken := raw.value.token;
        routingHint := raw.value.hint;
      }
      token := Some(accessToken);
    }

    /** The request a caller waits for: the one in flight, or a new one. */
    method RefreshActivate() returns (revision: nat)
      modifies this
      ensures old(refreshInFlight).Some? ==> Now() == old(Now()) && revision == refreshInFlight.value
      ensures old(refreshInFlight).None? ==>
                Now() == Issued(old(Now())).(inFlight := Some(revision)) && revision == routeRevision
    {
      if refreshInFlight.Some? { return refreshInFlight.value; }
      revision := Post();
      refreshInFlight := Some(revision);
    }

    /** Once the refresh has settled, the next caller starts a new one. */
    method RefreshSettled()
      modifies this`refreshInFlight
      ensures Now() == Cleared(old(Now()))
    {
      refreshInFlight := None;
    }
  }

  // ---------------------------------------------------------------------------
  // Overlapping requests
  // ---------------------------------------------------------------------------

  /** The object, the requests not answered yet, those of them that a refresh sent, and the
      answers that carried a token. */
  datatype State = State(f: Fields, pending: set<nat>, refreshes: set<nat>, succeeded: map<nat, Response>)

  datatype Action =
    | Resume
    | Refresh
    | Answer(revision: nat, raw: Option<Response>)
    | Settled

  /** A request is answered once; a refresh settles some time after its answer. */
  function Apply(s: State, a: Action): State {
    match a
    case Resume =>
      var f := Issued(s.f);
      s.(f := f, pending := s.pending + {f.routeRevision})
    case Refresh =>
      if s.f.inFlight.Some? then s
      else
        var f := Issued(s.f);
        s.(f := f.(inFlight := Some(f.routeRevision)),
           pending := s.pending + {f.routeRevision}, refreshes := s.refreshes + {f.routeRevision})
    case Answer(revision, raw) =>
      if revision !in s.pending then s
      else s.(f := Answered(s.f, revision, raw),
              pending := s.pending - {revision},
              refreshes := s.refreshes - {revision},
              succeeded := if Succeeds(raw) then s.succeeded[revision := raw.value] else s.succeeded)
    case Settled =>
      if s.f.inFlight.Some? && s.f.inFlight.value !in s.pending then s.(f := Cleared(s.f)) else s
  }

  function Run(s: State, run: seq<Action>): State
    decreases |run|
  {
    if run == [] then s else Run(Apply(s, run[0]), run[1..])
  }

  function Created(token: string, hint: Option<string>): State {
    State(Fields(token, hint, 0, 0, None), {}, {}, map[])
  }

  /** The cached pair is the answer to the latest-issued request that has succeeded so far,
      or the pair the object was created with. */
  predicate CachesLatest(s: State, token: string, hint: Option<string>) {
    && (forall r :: r in s.succeeded ==> r <= s.f.applied)
    && (if s.f.applied == 0 then s.f.token == token && s.f.hint == hint
        else s.f.applied in s.succeeded && s.succeeded[s.f.applied] == Response(s.f.token, s.f.hint))
  }

  predicate Numbered(s: State) {
    && (forall r :: r in s.pending ==> 0 < r <= s.f.routeRevision && r !in s.succeeded)
    && (forall r :: r in s.succeeded ==> 0 < r <= s.f.routeRevision)
    && s.f.applied <= s.f.routeRevision
  }

  /** At most one refresh is unanswered, and it is the one later callers join. */
  predicate OneRefresh(s: State) {
    && s.refreshes <= s.pending
    && forall r :: r in s.refreshes ==> s.f.inFlight == Some(r)
  }

  predicate Inv(s: State, token: string, hint: Option<string>) {
    CachesLatest(s, token, hint) && Numbered(s) && OneRefresh(s)
  }

  lemma StepKeepsInv(s: State, a: Action, token: string, hint: Option<string>)
    requires Inv(s, token, hint)
    ensures Inv(Apply(s, a), token, hint)
    ensures s.f.applied <= Apply(s, a).f.applied
    ensures Apply(s, a).f.applied == s.f.applied ==>
              Apply(s, a).f.token == s.f.token && Apply(s, a).f.hint == s.f.hint
  {
  }

  /** In every interleaving: the cached pair comes from one answer, the latest; it never goes
      back to an older one; and refreshes are coalesced. */
  lemma {:induction false} RunKeepsInv(s: State, run: seq<Action>, token: string, hint: Option<string>)
    requires Inv(s, token, hint)
    ensures Inv(Run(s, run), token, hint)
    ensures s.f.applied <= Run(s, run).f.applied
    ensures Run(s, run).f.applied == s.f.applied ==>
              Run(s, run).f.token == s.f.token && Run(s, run).f.hint == s.f.hint
    decreases |run|
  {
    if run != [] {
      StepKeepsInv(s, run[0], token, hint);
      RunKeepsInv(Apply(s, run[0]), run[1..], token, hint);
    }
  }

  lemma CachedIsLatest(token: string, hint: Option<string>, run: seq<Action>)
    ensures var s := Run(Created(token, hint), run);
            && CachesLatest(s, token, hint)
            && forall r, q :: r in s.refreshes && q in s.refreshes ==> r == q
  {
    RunKeepsInv(Created(token, hint), run, token, hint);
  }

  /** A caller whose own request succeeded is handed the token of that request or of a
      later-issued one, however much later its answer came. */
  lemma CallerGetsNoOlderToken(s: State, revision: nat, raw: Option<Response>, token: string, hint: Option<string>)
    requires Inv(s, token, hint) && revision in s.pending && Succeeds(raw)
    ensures var t := Apply(s, Answer(revision, raw));
            && t.f.applied >= revision && t.f.applied in t.succeeded
            && t.f.token == t.succeeded[t.f.applied].token
            && (t.f.applied == revision ==> t.f.token == raw.value.token)
  {
    StepKeepsInv(s, Answer(revision, raw), token, hint);
  }
}
