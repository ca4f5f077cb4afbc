/**
 Team creation as an exactly-once protocol of one user's browser session.  The client
 keeps an intent in session storage before it sends anything and resends it after a
 lost answer; the server is idempotent per operation id.  One request is in flight at
 a time.
 */
module TeamIntents {
  import opened Options

  type Op = nat

  datatype Intent = Intent(op: Op, name: string, rejected: bool, region: Option<string>, convert: Option<string>)

  /** What the form submits; convert is the account team a conversion turns into a team. */
  datatype Request = Request(name: string, region: string, convert: Option<string>)

  datatype Answer =
    | Success
    | NameConflict
    | ConversionUnavailable
    | OtherCode
    | Lost                     // no answer: the request may have been carried out or not

  /** What was sent for an operation, and what came back. */
  datatype Call = Call(op: Op, name: string, region: string, convert: Option<string>)

  type Storage = map<string, Intent>

  function CreationPrefix(user: string): string { "superserve:team-creation:" + user + ":" }

  function ConversionKey(user: string): string { "superserve:team-conversion:" + user }

  predicate IsCreationKey(user: string, key: string) {
    var p := CreationPrefix(user);
    |p| <= |key| && key[..|p|] == p
  }

  lemma FamiliesDiffer(user: string)
    ensures !IsCreationKey(user, ConversionKey(user))
  {
    assert CreationPrefix(user)[17] == 'r' && ConversionKey(user)[17] == 'o';
  }

  lemma CreationKeyOf(user: string, region: string)
    ensures IsCreationKey(user, CreationPrefix(user) + region)
    ensures (CreationPrefix(user) + region)[|CreationPrefix(user)|..] == region
  {
    assert (CreationPrefix(user) + region)[..|CreationPrefix(user)|] == CreationPrefix(user);
  }

  /** A stored intent that may already have committed. */
  predicate Unresolved(st: Storage, key: string) { key in st && !st[key].rejected }

  // ---------------------------------------------------------------------------
  // The attempt, as a function of the storage
  // ---------------------------------------------------------------------------

  datatype Pick = Pick(storage: Storage, key: string, region: string)

  /** The first unresolved creation among the keys, in the order storage lists them. */
  function FirstUnresolvedCreation(st: Storage, user: string, keys: seq<string>): (r: Option<string>)
    ensures r.Some? ==> r.value in keys && IsCreationKey(user, r.value) && Unresolved(st, r.value)
    ensures r.None? ==> forall k :: k in keys && IsCreationKey(user, k) ==> !Unresolved(st, k)
  {
    if keys == [] then None
    else if IsCreationKey(user, keys[0]) && Unresolved(st, keys[0]) then Some(keys[0])
    else
      var r := FirstUnresolvedCreation(st, user, keys[1..]);
      assert keys == [keys[0]] + keys[1..];
      r
  }

  /** Which intent a request takes up: an unresolved conversion; else, for a conversion,
      an unresolved creation; else the request's own, and a rejected conversion goes. */
  function PickKey(st: Storage, user: string, req: Request, keys: seq<string>): Pick {
    var conversion := ConversionKey(user);
    if Unresolved(st, conversion) then
      Pick(st, conversion, if st[conversion].region.Some? then st[conversion].region.value else req.region)
    else if req.convert.Some? then
      var creation := FirstUnresolvedCreation(st, user, keys);
      if creation.Some? then Pick(st, creation.value, creation.value[|CreationPrefix(user)|..])
      else Pick(st, conversion, req.region)
    else Pick(st - {conversion}, CreationPrefix(user) + req.region, req.region)
  }

  function FreshIntent(user: string, p: Pick, req: Request, op: Op): Intent {
    if p.key == ConversionKey(user) then Intent(op, req.name, false, Some(p.region), req.convert)
    else Intent(op, req.name, false, None, None)
  }

  /** The name was refused, and this request asks for another name or another target. */
  predicate Unbound(intent: Intent, p: Pick, req: Request) {
    intent.rejected && (intent.name != req.name || intent.convert != req.convert
                        || (intent.convert.Some? && intent.region != Some(p.region)))
  }

  /** The intent the request will send, before its name is compared. */
  function Chosen(user: string, p: Pick, req: Request, op: Op): Intent {
    if p.key in p.storage && !Unbound(p.storage[p.key], p, req) then p.storage[p.key] else FreshIntent(user, p, req, op)
  }

  function CallOf(intent: Intent, region: string): Call {
    Call(intent.op, intent.name,
         if intent.convert.Some? && intent.region.Some? then intent.region.value else region, intent.convert)
  }

  /** What the answer leaves in storage. */
  function Settled(st: Storage, key: string, answer: Answer): Storage
    requires key in st
  {
    match answer
    case Success => st - {key}
    case NameConflict => st[key := st[key].(rejected := true)]
    case ConversionUnavailable => st - {key}
    case OtherCode => st
    case Lost => st
  }

  /** Nothing is sent under another name than the stored one. */
  function Sent(st: Storage, user: string, req: Request, op: Op, keys: seq<string>): (r: Option<Call>) {
    var p := PickKey(st, user, req, keys);
    var intent := Chosen(user, p, req, op);
    if intent.name != req.name then None else Some(CallOf(intent, p.region))
  }

  function After(st: Storage, user: string, req: Request, op: Op, keys: seq<string>, answer: Answer): Storage {
    var p := PickKey(st, user, req, keys);
    var intent := Chosen(user, p, req, op);
    if intent.name != req.name then p.storage
    else Settled(p.storage[p.key := intent.(rejected := false)], p.key, answer)
  }

  // ---------------------------------------------------------------------------
  // The client
  // ---------------------------------------------------------------------------

  class Client {
    const user: string
    var storage: Storage

    constructor (user: string)
      ensures this.user == user && storage == map[]
    {
      this.user := user;
      storage := map[];
    }

    /** pickIntentKey, over the keys in the order storage lists them. */
    method PickIntentKey(req: Request, keys: seq<string>) returns (key: string, region: string)
      requires forall k :: k in keys <==> k in storage
      modifies this
      ensures Pick(storage, key, region) == PickKey(old(storage), user, req, keys)
    {
      var conversion := ConversionKey(user);
      if conversion in storage && !storage[conversion].rejected {
        var stored := storage[conversion].region;
        return conversion, if stored.Some? then stored.value else req.region;
      }
      if req.convert.Some? {
        var prefix := CreationPrefix(user);
        var i := 0;
        assert keys[0..] == keys;
        while i < |keys|
          invariant 0 <= i <= |keys|
          invariant FirstUnresolvedCreation(storage, user, keys[i..]) == FirstUnresolvedCreation(storage, user, keys)
        {
          var k := keys[i];
          assert keys[i..][0] == k && keys[i..][1..] == keys[i + 1..];
          if IsCreationKey(user, k) && !storage[k].rejected {
            return k, k[|prefix|..];
          }
          i := i + 1;
        }
        return conversion, req.region;
      }
      if conversion in storage {
        storage := storage - {conversion};
      }
      assert storage == old(storage) - {conversion};
      return CreationPrefix(user) + req.region, req.region;
    }

    /** The part of mutationFn before the request is sent: the intent is stored first. */
    method Prepare(req: Request, op: Op, keys: seq<string>) returns (key: string, call: Option<Call>)
      requires forall k :: k in keys <==> k in storage
      modifies this
      ensures call == Sent(old(storage), user, req, op, keys)
      ensures key == PickKey(old(storage), user, req, keys).key
      ensures call.Some? ==> key in storage && storage[key].op == call.value.op && !storage[key].rejected
      ensures forall answer :: After(old(storage), user, req, op, keys, answer) ==
                               if call.Some? then Settled(storage, key, answer) else storage
    {
      var region;
      key, region := PickIntentKey(req, keys);
      ghost var p := Pick(storage, key, region);
      var renewed := if key == ConversionKey(user) then Intent(op, req.name, false, Some(region), req.convert)
                     else Intent(op, req.name, false, None, None);
      var intent := if key in storage then storage[key] else renewed;
      if intent.rejected
         && (intent.name != req.name || intent.convert != req.convert
             || (intent.convert.Some? && intent.region != Some(region)))
      {
        intent := renewed;
      }
      assert intent == Chosen(user, p, req, op);
      if intent.name != req.name {
        return key, None;
      }
      call := Some(CallOf(intent, region));
      storage := storage[key := intent.(rejected := false)];
    }

    /** The part after the answer. */
    method Settle(key: string, answer: Answer)
      requires key in storage
      modifies this
      ensures storage == Settled(old(storage), key, answer)
    {
      match answer {
        case NameConflict => storage := storage[key := storage[key].(rejected := true)];
        case ConversionUnavailable => storage := storage - {key};
        case Success => storage := storage - {key};
        case OtherCode =>
        case Lost =>
      }
    }
  }

  // ---------------------------------------------------------------------------
  // Whole sessions
  // ---------------------------------------------------------------------------

  /** The client's storage, the server's committed operations, those the client has heard
      the success of, and the last call and answer of every operation. */
  datatype World = World(storage: Storage, committed: set<Op>, acked: set<Op>, last: map<Op, (Call, Answer)>)

  datatype Event =
    | Submit(req: Request, newOp: Op, keys: seq<string>, commits: bool, answer: Answer)
    | LateCommit(op: Op)           // a request whose answer was lost is carried out later

  const START := World(map[], {}, {}, map[])

  /** An answer that settles the operation for the client. */
  predicate Definitive(a: Answer) { a.Success? || a.NameConflict? || a.ConversionUnavailable? }

  /** Sent, and not definitively answered by the last answer. */
  predicate Open(w: World, op: Op) { op in w.last && !Definitive(w.last[op].1) }

  function Apply(user: string, w: World, e: Event): World {
    match e
    case LateCommit(op) => w.(committed := w.committed + {op})
    case Submit(req, newOp, keys, commits, answer) =>
      var call := Sent(w.storage, user, req, newOp, keys);
      var st := After(w.storage, user, req, newOp, keys, answer);
      if call.None? then w.(storage := st)
      else
        var op := call.value.op;
        World(st, if commits then w.committed + {op} else w.committed,
              if answer.Success? then w.acked + {op} else w.acked, w.last[op := (call.value, answer)])
  }

  function Run(user: string, w: World, run: seq<Event>): World
    decreases |run|
  {
    if run == [] then w else Run(user, Apply(user, w, run[0]), run[1..])
  }

  /** The server is idempotent and truthful: an operation it reports as failed for good is
      not committed, then or later, and a success is.  Operation ids are fresh, and the
      client sees every key of its storage. */
  ghost predicate Honest(user: string, w: World, e: Event) {
    && (e.LateCommit? ==> Open(w, e.op))
    && (e.Submit? ==>
      && e.newOp !in w.last && e.newOp !in w.committed
      && (forall k :: k in e.keys <==> k in w.storage)
      && var call := Sent(w.storage, user, e.req, e.newOp, e.keys);
         (call.Some? ==>
            var committed := e.commits || call.value.op in w.committed;
            && (e.answer.Success? ==> committed)
            && (e.answer.NameConflict? || e.answer.ConversionUnavailable? ==> !committed)))
  }

  ghost predicate HonestRun(user: string, w: World, run: seq<Event>)
    decreases |run|
  {
    run == [] || (Honest(user, w, run[0]) && HonestRun(user, Apply(user, w, run[0]), run[1..]))
  }

  // ---------------------------------------------------------------------------
  // Invariant
  // ---------------------------------------------------------------------------

  /** The stored intent at a key is the one last sent, under its own name and target. */
  ghost predicate Remembers(user: string, w: World, key: string)
    requires key in w.storage
  {
    var i := w.storage[key];
    && i.op in w.last && w.last[i.op].0.op == i.op
    && w.last[i.op].0.name == i.name && w.last[i.op].0.convert == i.convert
    && (i.rejected <==> w.last[i.op].1.NameConflict?)
    && (!i.rejected ==> Open(w, i.op))
    && (if key == ConversionKey(user) then i.convert.Some? && i.region == Some(w.last[i.op].0.region)
        else IsCreationKey(user, key) && i.convert.None? && i.region.None?
             && key[|CreationPrefix(user)|..] == w.last[i.op].0.region)
  }

  ghost predicate Kept(w: World, op: Op, key: string) { Unresolved(w.storage, key) && w.storage[key].op == op }

  /** Storage agrees with what was sent, keeps everything that is open, and never holds an
      unresolved conversion beside an unresolved creation. */
  ghost predicate StoreInv(user: string, w: World) {
    && (forall k :: k in w.storage ==> Remembers(user, w, k))
    && DistinctOps(w.storage)
    && (forall op :: Open(w, op) ==> exists k :: Kept(w, op, k))
    && OneMode(user, w.storage)
  }

  ghost predicate DistinctOps(st: Storage) {
    forall j, k :: j in st && k in st && st[j].op == st[k].op ==> j == k
  }

  ghost predicate OneMode(user: string, st: Storage) {
    Unresolved(st, ConversionKey(user)) ==> forall k :: IsCreationKey(user, k) ==> !Unresolved(st, k)
  }

  /** What the server committed the client has heard of, or it is still open. */
  ghost predicate ServerInv(w: World) {
    && (forall op :: op in w.committed ==> op in w.acked || Open(w, op))
    && (forall op :: op in w.acked ==> op in w.last && w.last[op].1.Success?)
  }

  ghost predicate Inv(user: string, w: World) { StoreInv(user, w) && ServerInv(w) }

  ghost predicate SeesAll(st: Storage, keys: seq<string>) { forall k :: k in keys <==> k in st }

  /** What picking a key guarantees. */
  lemma PickFacts(user: string, w: World, req: Request, keys: seq<string>)
    requires Inv(user, w) && SeesAll(w.storage, keys)
    ensures var p := PickKey(w.storage, user, req, keys);
            var conversion := ConversionKey(user);
            && (p.storage == w.storage || (p.storage == w.storage - {conversion} && !Unresolved(w.storage, conversion)))
            && (if p.key == conversion then
                  if Unresolved(w.storage, conversion) then w.storage[conversion].region == Some(p.region)
                  else req.convert.Some? && forall k :: IsCreationKey(user, k) ==> !Unresolved(w.storage, k)
                else
                  IsCreationKey(user, p.key) && p.key[|CreationPrefix(user)|..] == p.region
                  && !Unresolved(w.storage, conversion)
                  && (req.convert.Some? ==> Unresolved(w.storage, p.key)))
  {
    FamiliesDiffer(user);
    CreationKeyOf(user, req.region);
  }

  /** Dropping a rejected intent loses nothing that is open. */
  lemma DropKeepsInv(user: string, w: World, st: Storage)
    requires Inv(user, w)
    requires st == w.storage || (st == w.storage - {ConversionKey(user)} && !Unresolved(w.storage, ConversionKey(user)))
    ensures Inv(user, w.(storage := st))
  {
    var v := w.(storage := st);
    forall op | Open(v, op)
      ensures exists k :: Kept(v, op, k)
    {
      assert Open(w, op);
      var k :| Kept(w, op, k);
      assert k != ConversionKey(user) || st == w.storage;
      assert Kept(v, op, k);
    }
    forall k | k in st
      ensures Remembers(user, v, k)
    {
      assert Remembers(user, w, k);
    }
  }

  /** The intent a request sends is the stored one, or a new one under a new id. */
  lemma ChosenFacts(user: string, w: World, req: Request, newOp: Op, keys: seq<string>)
    requires Inv(user, w) && SeesAll(w.storage, keys) && Sent(w.storage, user, req, newOp, keys).Some?
    ensures var p := PickKey(w.storage, user, req, keys);
            var i := Chosen(user, p, req, newOp);
            var call := CallOf(i, p.region);
            && (i.op == newOp || (p.key in p.storage && p.storage[p.key].op == i.op))
            && (Unresolved(p.storage, p.key) ==> i == p.storage[p.key])
            && call == Sent(w.storage, user, req, newOp, keys).value
            && call.op == i.op && call.name == i.name && call.convert == i.convert
            && (if p.key == ConversionKey(user) then i.convert.Some? && i.region == Some(call.region)
                else i.convert.None? && i.region.None? && call.region == p.region)
  {
    PickFacts(user, w, req, keys);
    var p := PickKey(w.storage, user, req, keys);
    DropKeepsInv(user, w, p.storage);
    if p.key in p.storage {
      assert Remembers(user, w, p.key);
    }
  }

  /** The intent i is stored at the key, sent and answered. */
  function Answered(w: World, key: string, i: Intent, call: Call, commits: bool, answer: Answer): World {
    World(Settled(w.storage[key := i.(rejected := false)], key, answer),
          if commits then w.committed + {i.op} else w.committed,
          if answer.Success? then w.acked + {i.op} else w.acked,
          w.last[i.op := (call, answer)])
  }

  /** The intent continues the one stored at the key, or replaces a settled one. */
  ghost predicate Continues(w: World, key: string, i: Intent) {
    if key in w.storage && w.storage[key].op == i.op then true
    else i.op !in w.last && i.op !in w.committed && !Unresolved(w.storage, key)
  }

  /** The intent and its call fit the family of the key, and no unresolved intent of the
      other family stands. */
  ghost predicate Fits(user: string, w: World, key: string, i: Intent, call: Call) {
    && call.op == i.op && call.name == i.name && call.convert == i.convert
    && if key == ConversionKey(user) then
         && i.convert.Some? && i.region == Some(call.region)
         && forall k :: IsCreationKey(user, k) ==> !Unresolved(w.storage, k)
       else
         IsCreationKey(user, key) && i.convert.None? && i.region.None? && key[|CreationPrefix(user)|..] == call.region
         && !Unresolved(w.storage, ConversionKey(user))
  }

  lemma OthersHaveOtherOps(user: string, w: World, key: string, i: Intent)
    requires StoreInv(user, w) && Continues(w, key, i)
    ensures forall k :: k in w.storage && k != key ==> w.storage[k].op != i.op
  {
    forall k | k in w.storage && k != key
      ensures w.storage[k].op != i.op
    {
      assert Remembers(user, w, k);
    }
  }

  lemma AnsweredRemembers(user: string, w: World, key: string, i: Intent, call: Call, commits: bool, answer: Answer)
    requires StoreInv(user, w) && Continues(w, key, i) && Fits(user, w, key, i, call)
    ensures var v := Answered(w, key, i, call, commits, answer);
            forall k :: k in v.storage ==> Remembers(user, v, k)
  {
    OthersHaveOtherOps(user, w, key, i);
    var v := Answered(w, key, i, call, commits, answer);
    forall k | k in v.storage
      ensures Remembers(user, v, k)
    {
      if k != key {
        assert k in w.storage && v.storage[k] == w.storage[k] && Remembers(user, w, k);
      }
    }
  }

  lemma AnsweredKeepsOpen(user: string, w: World, key: string, i: Intent, call: Call, commits: bool, answer: Answer)
    requires StoreInv(user, w) && Continues(w, key, i)
    ensures var v := Answered(w, key, i, call, commits, answer);
            forall op :: Open(v, op) ==> exists k :: Kept(v, op, k)
  {
    var v := Answered(w, key, i, call, commits, answer);
    forall op | Open(v, op)
      ensures exists k :: Kept(v, op, k)
    {
      if op == i.op {
        assert Kept(v, op, key);
      } else {
        assert Open(w, op);
        var k :| Kept(w, op, k);
        assert Kept(v, op, k);
      }
    }
  }

  lemma AnsweredKeepsDistinct(st: Storage, key: string, i: Intent, answer: Answer)
    requires DistinctOps(st) && forall k :: k in st && k != key ==> st[k].op != i.op
    ensures DistinctOps(Settled(st[key := i], key, answer))
  {
    var v := Settled(st[key := i], key, answer);
    assert forall k :: k in v && k != key ==> k in st && v[k] == st[k];
  }

  lemma AnsweredKeepsOneMode(user: string, st: Storage, key: string, i: Intent, answer: Answer)
    requires OneMode(user, st)
    requires if key == ConversionKey(user) then forall k :: IsCreationKey(user, k) ==> !Unresolved(st, k)
             else !Unresolved(st, ConversionKey(user))
    ensures OneMode(user, Settled(st[key := i], key, answer))
  {
    FamiliesDiffer(user);
    var v := Settled(st[key := i], key, answer);
    assert forall k :: k in v && k != key ==> k in st && v[k] == st[k];
  }

  lemma AnsweredKeepsStore(user: string, w: World, key: string, i: Intent, call: Call, commits: bool, answer: Answer)
    requires StoreInv(user, w) && Continues(w, key, i) && Fits(user, w, key, i, call)
    ensures StoreInv(user, Answered(w, key, i, call, commits, answer))
  {
    OthersHaveOtherOps(user, w, key, i);
    AnsweredRemembers(user, w, key, i, call, commits, answer);
    AnsweredKeepsOpen(user, w, key, i, call, commits, answer);
    AnsweredKeepsDistinct(w.storage, key, i.(rejected := false), answer);
    AnsweredKeepsOneMode(user, w.storage, key, i.(rejected := false), answer);
  }

  lemma AnsweredKeepsServer(user: string, w: World, key: string, i: Intent, call: Call, commits: bool, answer: Answer)
    requires Inv(user, w) && Continues(w, key, i)
    requires var committed := commits || i.op in w.committed;
             (answer.Success? ==> committed) && (answer.NameConflict? || answer.ConversionUnavailable? ==> !committed)
    ensures ServerInv(Answered(w, key, i, call, commits, answer))
  {
    var v := Answered(w, key, i, call, commits, answer);
    if key in w.storage {
      assert Remembers(user, w, key);
    }
    assert i.op !in w.acked;
    forall op | op in v.committed
      ensures op in v.acked || Open(v, op)
    {
      assert op != i.op ==> (op in w.acked || Open(w, op));
    }
  }

  lemma StepKeepsInv(user: string, w: World, e: Event)
    requires Inv(user, w) && Honest(user, w, e)
    ensures Inv(user, Apply(user, w, e))
  {
    if e.Submit? {
      var p := PickKey(w.storage, user, e.req, e.keys);
      PickFacts(user, w, e.req, e.keys);
      DropKeepsInv(user, w, p.storage);
      var u := w.(storage := p.storage);
      if Sent(w.storage, user, e.req, e.newOp, e.keys).Some? {
        ChosenFacts(user, w, e.req, e.newOp, e.keys);
        var i := Chosen(user, p, e.req, e.newOp);
        var call := CallOf(i, p.region);
        AnsweredKeepsStore(user, u, p.key, i, call, e.commits, e.answer);
        AnsweredKeepsServer(user, u, p.key, i, call, e.commits, e.answer);
      }
    } else {
      var v := Apply(user, w, e);
      assert forall op :: Open(v, op) <==> Open(w, op);
      assert forall k :: k in w.storage ==> Remembers(user, w, k) && Remembers(user, v, k);
      forall op | Open(v, op)
        ensures exists k :: Kept(v, op, k)
      {
        var k :| Kept(w, op, k);
        assert Kept(v, op, k);
      }
    }
  }

  lemma {:induction false} RunKeepsInv(user: string, w: World, run: seq<Event>)
    requires Inv(user, w) && HonestRun(user, w, run)
    ensures Inv(user, Run(user, w, run))
    decreases |run|
  {
    if run != [] {
      StepKeepsInv(user, w, run[0]);
      RunKeepsInv(user, Apply(user, w, run[0]), run[1..]);
    }
  }

  // ---------------------------------------------------------------------------
  // What a session guarantees
  // ---------------------------------------------------------------------------

  /** No possibly committed creation is forgotten: whatever the server committed, the client
      was told of, or its unresolved intent is still stored under its own name and target. */
  lemma NothingIsForgotten(user: string, run: seq<Event>, op: Op)
    requires HonestRun(user, START, run)
    ensures var w := Run(user, START, run);
            op in w.committed && op !in w.acked ==>
              exists k :: Kept(w, op, k) && Remembers(user, w, k)
  {
    RunKeepsInv(user, START, run);
    var w := Run(user, START, run);
    if op in w.committed && op !in w.acked {
      assert Open(w, op);
      var k :| Kept(w, op, k);
      assert Remembers(user, w, k);
    }
  }

  /** An unresolved conversion and an unresolved creation never coexist. */
  lemma ModesNeverOvertake(user: string, run: seq<Event>, k: string)
    requires HonestRun(user, START, run) && IsCreationKey(user, k)
    ensures var st := Run(user, START, run).storage; !(Unresolved(st, ConversionKey(user)) && Unresolved(st, k))
  {
    RunKeepsInv(user, START, run);
  }

  /** A request whose key holds an unresolved intent resends exactly that operation, with
      the name, target and region it was sent with, or sends nothing. */
  lemma UnresolvedIsResent(user: string, run: seq<Event>, req: Request, newOp: Op, keys: seq<string>)
    requires HonestRun(user, START, run) && SeesAll(Run(user, START, run).storage, keys)
    ensures var w := Run(user, START, run);
            var p := PickKey(w.storage, user, req, keys);
            var sent := Sent(w.storage, user, req, newOp, keys);
            Unresolved(w.storage, p.key) && sent.Some? ==>
              w.storage[p.key].op in w.last && sent.value == w.last[w.storage[p.key].op].0
  {
    RunKeepsInv(user, START, run);
    var w := Run(user, START, run);
    var p := PickKey(w.storage, user, req, keys);
    PickFacts(user, w, req, keys);
    if Unresolved(w.storage, p.key) && Sent(w.storage, user, req, newOp, keys).Some? {
      assert Remembers(user, w, p.key);
      ChosenFacts(user, w, req, newOp, keys);
    }
  }

  lemma {:induction false} SameFirst(st: Storage, other: Storage, user: string, keys: seq<string>)
    requires forall k :: Unresolved(st, k) <==> Unresolved(other, k)
    ensures FirstUnresolvedCreation(st, user, keys) == FirstUnresolvedCreation(other, user, keys)
    decreases |keys|
  {
    if keys != [] { SameFirst(st, other, user, keys[1..]); }
  }

  /** What one indefinite answer leaves: the intent that was sent stands at its key. */
  lemma SentStands(user: string, w: World, e: Event)
    requires Inv(user, w) && Honest(user, w, e) && e.Submit? && !Definitive(e.answer)
    requires Sent(w.storage, user, e.req, e.newOp, e.keys).Some?
    ensures var p := PickKey(w.storage, user, e.req, e.keys);
            var st := Apply(user, w, e).storage;
            p.key in st && st == p.storage[p.key := Chosen(user, p, e.req, e.newOp).(rejected := false)]
  {
    ChosenFacts(user, w, e.req, e.newOp, e.keys);
  }

  /** Submitting the same form again after a lost answer sends the same operation again,
      whatever the server did with the first one.  Only a conversion form that continues a
      pending creation depends on the order in which storage lists the keys. */
  lemma SameFormSameOperation(user: string, run: seq<Event>, e: Event, newOp: Op, keys: seq<string>)
    requires HonestRun(user, START, run) && Honest(user, Run(user, START, run), e)
    requires e.Submit? && !Definitive(e.answer) && SeesAll(Apply(user, Run(user, START, run), e).storage, keys)
    ensures var w := Run(user, START, run);
            var sent := Sent(w.storage, user, e.req, e.newOp, e.keys);
            sent.Some? && (e.req.convert.None? || sent.value.convert.Some? || keys == e.keys) ==>
              Sent(Apply(user, w, e).storage, user, e.req, newOp, keys) == sent
  {
    RunKeepsInv(user, START, run);
    var w := Run(user, START, run);
    StepKeepsInv(user, w, e);
    if Sent(w.storage, user, e.req, e.newOp, e.keys).Some? {
      SentStands(user, w, e);
      ChosenFacts(user, w, e.req, e.newOp, e.keys);
      var convert := Sent(w.storage, user, e.req, e.newOp, e.keys).value.convert;
      if e.req.convert.Some? && convert.None? && keys == e.keys {
        PickFacts(user, w, e.req, e.keys);
        SamePick(user, w, e);
        SameKeySameCall(user, w, e, newOp, keys);
      } else if e.req.convert.None? || convert.Some? {
        OwnPick(user, w, e, keys);
        SameKeySameCall(user, w, e, newOp, keys);
      }
    }
  }

  lemma SameKeySameCall(user: string, w: World, e: Event, newOp: Op, keys: seq<string>)
    requires Inv(user, w) && Honest(user, w, e) && e.Submit? && !Definitive(e.answer)
    requires Sent(w.storage, user, e.req, e.newOp, e.keys).Some?
    requires var p := PickKey(w.storage, user, e.req, e.keys);
             var q := PickKey(Apply(user, w, e).storage, user, e.req, keys);
             q.key == p.key && q.region == p.region && q.storage == Apply(user, w, e).storage
    ensures Sent(Apply(user, w, e).storage, user, e.req, newOp, keys) == Sent(w.storage, user, e.req, e.newOp, e.keys)
  {
    SentStands(user, w, e);
  }

  /** A form of its own kind finds its intent at the same key. */
  lemma OwnPick(user: string, w: World, e: Event, keys: seq<string>)
    requires Inv(user, w) && Honest(user, w, e) && e.Submit? && !Definitive(e.answer)
    requires Sent(w.storage, user, e.req, e.newOp, e.keys).Some?
    requires Inv(user, Apply(user, w, e)) && SeesAll(Apply(user, w, e).storage, keys)
    requires e.req.convert.None? || Sent(w.storage, user, e.req, e.newOp, e.keys).value.convert.Some?
    ensures var p := PickKey(w.storage, user, e.req, e.keys);
            var q := PickKey(Apply(user, w, e).storage, user, e.req, keys);
            q.key == p.key && q.region == p.region && q.storage == Apply(user, w, e).storage
  {
    PickFacts(user, w, e.req, e.keys);
    PickFacts(user, Apply(user, w, e), e.req, keys);
    ChosenFacts(user, w, e.req, e.newOp, e.keys);
    FamiliesDiffer(user);
  }

  /** A pending creation that a conversion form continued is still the first one listed. */
  lemma SamePick(user: string, w: World, e: Event)
    requires Inv(user, w) && Honest(user, w, e) && e.Submit? && !Definitive(e.answer) && e.req.convert.Some?
    requires Sent(w.storage, user, e.req, e.newOp, e.keys).Some?
    requires PickKey(w.storage, user, e.req, e.keys).key != ConversionKey(user)
    ensures var p := PickKey(w.storage, user, e.req, e.keys);
            var q := PickKey(Apply(user, w, e).storage, user, e.req, e.keys);
            q.key == p.key && q.region == p.region && q.storage == Apply(user, w, e).storage
  {
    var p := PickKey(w.storage, user, e.req, e.keys);
    var v := Apply(user, w, e);
    SentStands(user, w, e);
    PickFacts(user, w, e.req, e.keys);
    FamiliesDiffer(user);
    assert forall k :: Unresolved(w.storage, k) <==> Unresolved(v.storage, k);
    SameFirst(w.storage, v.storage, user, e.keys);
  }

  // ---------------------------------------------------------------------------
  // What is sent, and when nothing is
  // ---------------------------------------------------------------------------

  /** In every honest run: a request is held back if and only if an unresolved intent under
      another name stands at the key it takes up. */
  lemma HeldBackIff(user: string, run: seq<Event>, req: Request, newOp: Op, keys: seq<string>)
    requires HonestRun(user, START, run) && SeesAll(Run(user, START, run).storage, keys)
    ensures var st := Run(user, START, run).storage;
            var key := PickKey(st, user, req, keys).key;
            Sent(st, user, req, newOp, keys).None? <==> Unresolved(st, key) && st[key].name != req.name
  {
    RunKeepsInv(user, START, run);
    PickFacts(user, Run(user, START, run), req, keys);
  }

  /** A request that finds no intent at its key sends what the form says, under its own id. */
  lemma NewRequestIsSent(user: string, run: seq<Event>, req: Request, newOp: Op, keys: seq<string>)
    requires HonestRun(user, START, run) && SeesAll(Run(user, START, run).storage, keys)
    requires PickKey(Run(user, START, run).storage, user, req, keys).key !in Run(user, START, run).storage
    ensures Sent(Run(user, START, run).storage, user, req, newOp, keys)
            == Some(Call(newOp, req.name, req.region, req.convert))
  {
    RunKeepsInv(user, START, run);
    PickFacts(user, Run(user, START, run), req, keys);
    FamiliesDiffer(user);
    CreationKeyOf(user, req.region);
  }

  /** A request of the form's own mode and region, whose name the server then refuses. */
  ghost predicate Refused(user: string, w: World, e: Event) {
    && e.Submit? && Honest(user, w, e) && e.answer.NameConflict?
    && var sent := Sent(w.storage, user, e.req, e.newOp, e.keys);
       sent.Some? && sent.value.convert == e.req.convert && sent.value.region == e.req.region
  }

  /** A refused name is given up: the form with another name sends a new operation under that
      name, and only the same form again sends the old one. */
  lemma RefusedNameIsGivenUp(user: string, run: seq<Event>, e: Event, name: string, newOp: Op, keys: seq<string>)
    requires HonestRun(user, START, run) && Refused(user, Run(user, START, run), e)
    requires SeesAll(Apply(user, Run(user, START, run), e).storage, keys)
    ensures var w := Run(user, START, run);
            var again := Sent(Apply(user, w, e).storage, user, e.req.(name := name), newOp, keys);
            again == if name == e.req.name then Sent(w.storage, user, e.req, e.newOp, e.keys)
                     else Some(Call(newOp, name, e.req.region, e.req.convert))
  {
    RunKeepsInv(user, START, run);
    var w := Run(user, START, run);
    StepKeepsInv(user, w, e);
    ChosenFacts(user, w, e.req, e.newOp, e.keys);
    RefusedPick(user, w, e, name, keys);
  }

  /** The refused intent stands, rejected, at the key the form takes up again. */
  lemma RefusedPick(user: string, w: World, e: Event, name: string, keys: seq<string>)
    requires Inv(user, w) && Refused(user, w, e) && Inv(user, Apply(user, w, e))
    requires SeesAll(Apply(user, w, e).storage, keys)
    ensures var p := PickKey(w.storage, user, e.req, e.keys);
            var st := Apply(user, w, e).storage;
            var q := PickKey(st, user, e.req.(name := name), keys);
            && q.key == p.key && q.region == e.req.region && q.key in q.storage && q.storage[q.key] == st[q.key]
            && st[q.key] == Chosen(user, p, e.req, e.newOp).(rejected := true)
  {
    PickFacts(user, w, e.req, e.keys);
    PickFacts(user, Apply(user, w, e), e.req.(name := name), keys);
    ChosenFacts(user, w, e.req, e.newOp, e.keys);
    FamiliesDiffer(user);
  }
}
