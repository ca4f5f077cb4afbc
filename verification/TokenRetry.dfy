/**
 A command or file request is sent with the cached token; a failure that activation can
 resolve activates once and sends once more.
 */
module TokenRetry {
  import opened Options

  datatype Kind = Plain | Authentication | Server | Foreign

  /** Foreign errors are not the library's own. */
  datatype Error = Error(kind: Kind, statusCode: int, code: string)

  datatype Result = Ok(value: int) | Failed(error: Error)

  predicate IsResumable(err: Error, hinted: bool) {
    if !err.kind.Foreign? && err.statusCode == 404 && err.code == "sandbox_route_stale" then true
    else if err.kind.Authentication? then true
    else if err.kind.Server? then err.statusCode == 503 && (!hinted || err.code == "sandbox_unavailable")
    else false
  }

  /** An activation yields a token or an error; a request is sent with a token. */
  datatype Event =
    | Activated(token: string)
    | ActivationFailed(error: Error)
    | Sent(token: string, result: Result)

  /** The accessors and the requests the policy is given.  Other calls rotate the token
      while it waits, so each read and each answer is arbitrary. */
  class Deps {
    var log: seq<Event>

    method RefreshActivate() returns (r: Event)
      modifies this
      ensures log == old(log) + [r] && !r.Sent?
    {
      var ok: bool, token: string, error: Error := *, *, *;
      r := if ok then Activated(token) else ActivationFailed(error);
      log := log + [r];
    }

    method Send(token: string) returns (result: Result)
      modifies this
      ensures log == old(log) + [Sent(token, result)]
    {
      result := *;
      log := log + [Sent(token, result)];
    }
  }

  /** The call ended with the answer of its last request, or with the error of an activation. */
  function Outcome(events: seq<Event>): Result
    requires events != [] && !events[|events| - 1].Activated?
  {
    match events[|events| - 1]
    case Sent(_, result) => result
    case ActivationFailed(error) => Failed(error)
  }

  /** Behind the first activation, if the hint had expired. */
  predicate SentEvents(events: seq<Event>, hinted: bool) {
    && events != [] && events[0].Sent?
    && (if events[0].result.Failed? && IsResumable(events[0].result.error, hinted) then
          && 2 <= |events| <= 3
          && (if events[1].Activated? then |events| == 3 && events[2].Sent? && events[2].token == events[1].token
              else events[1].ActivationFailed? && |events| == 2)
        else |events| == 1)
  }

  predicate RetryEvents(events: seq<Event>, expired: bool, hinted: bool) {
    if !expired then SentEvents(events, hinted)
    else
      && events != []
      && (if events[0].Activated? then SentEvents(events[1..], hinted)
          else events[0].ActivationFailed? && |events| == 1)
  }

  /** The first request goes out with the token read live, every later one with the token
      the activation returned. */
  method WithTokenRetry(deps: Deps, expired: bool) returns (result: Result, ghost events: seq<Event>, hinted: bool)
    modifies deps
    ensures deps.log == old(deps.log) + events
    ensures RetryEvents(events, expired, hinted) && !events[|events| - 1].Activated? && result == Outcome(events)
  {
    events := [];
    hinted := *;
    if expired {
      var r := deps.RefreshActivate();
      events := [r];
      if r.ActivationFailed? { return Failed(r.error), events, hinted; }
    }
    ghost var before := events;
    var live: string := *;
    result := deps.Send(live);
    events := events + [Sent(live, result)];
    if result.Ok? || !IsResumable(result.error, hinted) {
      assert events[|before|..] == [Sent(live, result)];
      return;
    }
    ghost var first := Sent(live, result);
    var renewed := deps.RefreshActivate();
    events := events + [renewed];
    if renewed.ActivationFailed? {
      assert events[|before|..] == [first, renewed];
      return Failed(renewed.error), events, hinted;
    }
    result := deps.Send(renewed.token);
    events := events + [Sent(renewed.token, result)];
    assert events[|before|..] == [first, renewed, Sent(renewed.token, result)];
  }

  /** The failures an activation can resolve: a stale route, a refused token, or a sandbox that
      is unavailable.  With a hint of the caller's, a 503 has to say so itself. */
  lemma ResumableIff(err: Error, hinted: bool)
    ensures IsResumable(err, hinted) <==>
            match err.kind
            case Authentication => true
            case Plain => err.statusCode == 404 && err.code == "sandbox_route_stale"
            case Server =>
              || (err.statusCode == 404 && err.code == "sandbox_route_stale")
              || (err.statusCode == 503 && (err.code == "sandbox_unavailable" || !hinted))
            case Foreign => false
    ensures IsResumable(err, true) ==> IsResumable(err, false)
  {
  }

  function Sends(events: seq<Event>): nat {
    if events == [] then 0 else (if events[0].Sent? then 1 else 0) + Sends(events[1..])
  }

  /** It sends at most twice and activates at most twice; it sends twice only when the first
      failure was resumable and an activation in between succeeded, and then with that
      activation's token; and without an expired hint or a resumable failure it never
      activates. */
  lemma AtMostTwice(events: seq<Event>, expired: bool, hinted: bool)
    requires RetryEvents(events, expired, hinted)
    ensures Sends(events) <= 2 && |events| - Sends(events) <= 2
    ensures Sends(events) == 2 ==>
              var n := |events|;
              && n >= 3 && events[n - 3].Sent? && events[n - 2].Activated?
              && events[n - 1].Sent? && events[n - 1].token == events[n - 2].token
              && events[n - 3].result.Failed? && IsResumable(events[n - 3].result.error, hinted)
    ensures |events| > Sends(events) && !expired ==>
              events[0].Sent? && events[0].result.Failed? && IsResumable(events[0].result.error, hinted)
  {
    var tail := if expired then events[1..] else events;
    if tail != [] && tail[0].Sent? { SendsOfTail(tail, hinted); }
  }

  lemma SendsOfTail(events: seq<Event>, hinted: bool)
    requires SentEvents(events, hinted)
    ensures Sends(events) == if |events| == 3 then 2 else 1
  {
    assert Sends(events) == 1 + Sends(events[1..]);
    if |events| == 1 {
      assert events[1..] == [];
    } else {
      assert Sends(events[1..]) == Sends(events[1..][1..]);
      if |events| == 3 {
        var last := events[1..][1..];
        assert last == [events[2]] && last[0].Sent? && last[1..] == [];
        assert Sends(last) == 1 + Sends(last[1..]);
      } else {
        assert events[1..][1..] == [];
      }
    }
  }

  /** A second chance is given exactly for a resumable failure: then an activation is tried,
      and if it succeeds the request goes out again with its token and the second answer
      counts, the first never; if it fails, its error does. */
  lemma SecondChance(events: seq<Event>, expired: bool, hinted: bool)
    requires RetryEvents(events, expired, hinted)
    ensures expired ==> !events[0].Sent?
    ensures expired && events[0].ActivationFailed? ==> |events| == 1 && Outcome(events) == Failed(events[0].error)
    ensures var k := if expired then 1 else 0;
            !expired || events[0].Activated? ==>
              && |events| > k && events[k].Sent?
              && (|events| > k + 1 <==> events[k].result.Failed? && IsResumable(events[k].result.error, hinted))
              && (|events| == k + 1 ==> Outcome(events) == events[k].result)
              && (|events| > k + 1 && events[k + 1].Activated? ==>
                    |events| == k + 3 && events[k + 2].Sent? && events[k + 2].token == events[k + 1].token
                    && Outcome(events) == events[k + 2].result)
              && (|events| > k + 1 && !events[k + 1].Activated? ==>
                    |events| == k + 2 && events[k + 1].ActivationFailed?
                    && Outcome(events) == Failed(events[k + 1].error))
  {
    if expired && events[0].Activated? {
      assert forall i :: 0 <= i < |events| - 1 ==> events[1..][i] == events[i + 1];
    }
  }
}
