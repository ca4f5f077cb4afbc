/**
 The scrollback of each terminal tab is kept in a storage shared by all of them, beside an
 index of what is kept.  The pool is capped in buffers and in characters, and the buffers
 saved longest ago make room.  Writing a buffer may fail; the index is then left as it was.
 Writing the index may fail too, and only then do the two part.
 */
module BufferPool {
  import opened Options

  const MAX_BUFFER := 256 * 1024
  const MAX_BUFFERS := 10

  datatype Entry = Entry(key: string, size: nat, updatedAt: int)

  /** The stored buffers, the stored index, and the keys closed in this page session. */
  datatype State = State(buffers: map<string, string>, index: seq<Entry>, closed: set<string>)

  /** Which of the two writes of a save the storage takes. */
  datatype Writes = BothWritten | BufferFails | IndexFails

  // ---------------------------------------------------------------------------
  // The index
  // ---------------------------------------------------------------------------

  function Keys(index: seq<Entry>): set<string> { set e | e in index :: e.key }

  /** No key is indexed twice. */
  predicate Distinct(index: seq<Entry>) { |Keys(index)| == |index| }

  function Sum(index: seq<Entry>): nat { if index == [] then 0 else index[0].size + Sum(index[1..]) }

  predicate Fits(index: seq<Entry>, size: nat) {
    |index| < MAX_BUFFERS && Sum(index) + size <= MAX_BUFFER * MAX_BUFFERS
  }

  function Without(index: seq<Entry>, key: string): (r: seq<Entry>)
    ensures |r| <= |index| && forall e :: e in r <==> e in index && e.key != key
  {
    if index == [] then []
    else (if index[0].key == key then [] else [index[0]]) + Without(index[1..], key)
  }

  predicate ByAge(index: seq<Entry>) {
    forall i: nat, j: nat :: i < j < |index| ==> index[i].updatedAt <= index[j].updatedAt
  }

  /** In front of the first entry that is not older. */
  function Insert(e: Entry, index: seq<Entry>): (r: seq<Entry>)
    ensures |r| == 1 + |index|
  {
    if index == [] || e.updatedAt <= index[0].updatedAt then [e] + index
    else [index[0]] + Insert(e, index[1..])
  }

  /** toSorted is stable. */
  function SortByAge(index: seq<Entry>): (r: seq<Entry>)
    ensures |r| == |index|
  {
    if index == [] then [] else Insert(index[0], SortByAge(index[1..]))
  }

  /** What is left of the index once the new buffer fits. */
  function Evict(index: seq<Entry>, size: nat): (r: seq<Entry>)
    requires size <= MAX_BUFFER
    ensures Fits(r, size)
    decreases |index|
  {
    if Fits(index, size) then index else Evict(SortByAge(index)[1..], size)
  }

  /** The keys whose buffers made room for it. */
  function Gone(index: seq<Entry>, size: nat): set<string>
    requires size <= MAX_BUFFER
    decreases |index|
  {
    if Fits(index, size) then {}
    else {SortByAge(index)[0].key} + Gone(SortByAge(index)[1..], size)
  }

  // ---------------------------------------------------------------------------
  // The operations
  // ---------------------------------------------------------------------------

  function Saved(s: State, key: string, value: string, now: int, writes: Writes): State {
    if key == "" || key in s.closed || |value| > MAX_BUFFER then s
    else
      var others := Without(s.index, key);
      var left := s.buffers - Gone(others, |value|);
      match writes
      case BothWritten => State(left[key := value], Evict(others, |value|) + [Entry(key, |value|, now)], s.closed)
      case BufferFails => State(left - {key}, s.index, s.closed)
      case IndexFails => State(left[key := value], s.index, s.closed)
  }

  /** A failed write of the index leaves the entry of a buffer that is gone. */
  function Cleared(s: State, key: string, indexWritten: bool): State {
    if key == "" then s else State(s.buffers - {key}, if indexWritten then Without(s.index, key) else s.index, s.closed)
  }

  function Closed(s: State, key: string, indexWritten: bool): State {
    if key == "" then s else Cleared(s.(closed := s.closed + {key}), key, indexWritten)
  }

  function AllCleared(s: State): State { State(s.buffers - Keys(s.index), [], s.closed) }

  function Loaded(s: State, key: string): Option<string> {
    if key != "" && key in s.buffers then Some(s.buffers[key]) else None
  }

  class Pool {
    var buffers: map<string, string>
    var index: seq<Entry>
    var closed: set<string>

    ghost function Now(): State reads this { State(buffers, index, closed) }

    method Load(key: string) returns (value: Option<string>)
      ensures value == Loaded(Now(), key)
    {
      value := if key != "" && key in buffers then Some(buffers[key]) else None;
    }

    method Save(key: string, value: string, now: int, writes: Writes)
      modifies this
      ensures Now() == Saved(old(Now()), key, value, now, writes)
    {
      if key == "" || key in closed || |value| > MAX_BUFFER { return; }
      var left := MakeRoom(Without(index, key), |value|);
      left := left + [Entry(key, |value|, now)];
      if writes.BufferFails? {
        buffers := buffers - {key};
        return;
      }
      buffers := buffers[key := value];
      if writes.BothWritten? { index := left; }
    }

    /** Drop buffers, least recent first, until one of this size fits. */
    method MakeRoom(others: seq<Entry>, size: nat) returns (left: seq<Entry>)
      requires size <= MAX_BUFFER
      modifies this`buffers
      ensures left == Evict(others, size) && buffers == old(buffers) - Gone(others, size)
    {
      left := others;
      ghost var gone := {};
      while !Fits(left, size)
        invariant Evict(left, size) == Evict(others, size)
        invariant gone + Gone(left, size) == Gone(others, size)
        invariant buffers == old(buffers) - gone
        decreases |left|
      {
        left := SortByAge(left);
        var oldest := left[0];
        left := left[1..];
        buffers := buffers - {oldest.key};
        gone := gone + {oldest.key};
      }
    }

    method Clear(key: string, indexWritten: bool)
      modifies this
      ensures Now() == Cleared(old(Now()), key, indexWritten)
    {
      if key == "" { return; }
      buffers := buffers - {key};
      if indexWritten { index := Without(index, key); }
    }

    method Close(key: string, indexWritten: bool)
      modifies this
      ensures Now() == Closed(old(Now()), key, indexWritten)
    {
      if key == "" { return; }
      closed := closed + {key};
      Clear(key, indexWritten);
    }

    method ClearAll()
      modifies this
      ensures Now() == AllCleared(old(Now()))
    {
      for i := 0 to |index|
        invariant index == old(index) && closed == old(closed)
        invariant buffers == old(buffers) - Keys(index[..i])
      {
        assert index[..i + 1] == index[..i] + [index[i]];
        buffers := buffers - {index[i].key};
      }
      assert index[..|index|] == index;
      index := [];
    }
  }

  // ---------------------------------------------------------------------------
  // Lemmas about the index
  // ---------------------------------------------------------------------------

  lemma KeysOfCons(index: seq<Entry>)
    requires index != []
    ensures Keys(index) == {index[0].key} + Keys(index[1..])
  {
    assert index == [index[0]] + index[1..];
  }

  lemma {:induction false} FewKeys(index: seq<Entry>)
    ensures |Keys(index)| <= |index|
  {
    if index != [] {
      KeysOfCons(index);
      FewKeys(index[1..]);
    }
  }

  lemma DistinctTail(index: seq<Entry>)
    requires index != [] && Distinct(index)
    ensures Distinct(index[1..]) && index[0].key !in Keys(index[1..])
  {
    KeysOfCons(index);
    FewKeys(index[1..]);
    AddOne(index[0].key, Keys(index[1..]));
  }

  lemma AddOne(key: string, keys: set<string>)
    ensures |{key} + keys| == |keys| + if key in keys then 0 else 1
  {
    if key in keys {
      assert {key} + keys == keys;
    }
  }

  lemma DistinctCons(e: Entry, index: seq<Entry>)
    requires Distinct(index) && e.key !in Keys(index)
    ensures Distinct([e] + index)
  {
    assert ([e] + index)[1..] == index;
    KeysOfCons([e] + index);
  }

  lemma {:induction false} InsertIsPermutation(e: Entry, index: seq<Entry>)
    ensures multiset(Insert(e, index)) == multiset([e] + index)
  {
    if index != [] && e.updatedAt > index[0].updatedAt {
      InsertIsPermutation(e, index[1..]);
      assert index == [index[0]] + index[1..];
    }
  }

  lemma {:induction false} SortIsPermutation(index: seq<Entry>)
    ensures multiset(SortByAge(index)) == multiset(index)
  {
    if index != [] {
      SortIsPermutation(index[1..]);
      InsertIsPermutation(index[0], SortByAge(index[1..]));
      assert index == [index[0]] + index[1..];
    }
  }

  lemma SameEntries(a: seq<Entry>, b: seq<Entry>)
    requires multiset(a) == multiset(b)
    ensures Keys(a) == Keys(b) && forall e :: e in a <==> e in b
  {
    assert forall e :: e in a <==> e in multiset(a);
    assert forall e :: e in b <==> e in multiset(b);
  }

  lemma {:induction false} InsertKeepsOrder(e: Entry, index: seq<Entry>)
    requires ByAge(index)
    ensures ByAge(Insert(e, index))
  {
    if index != [] && e.updatedAt > index[0].updatedAt {
      InsertKeepsOrder(e, index[1..]);
      InsertIsPermutation(e, index[1..]);
      SameEntries(Insert(e, index[1..]), [e] + index[1..]);
      OldestFirst(index[0], Insert(e, index[1..]), [e] + index[1..]);
    }
  }

  lemma OldestFirst(e: Entry, sorted: seq<Entry>, entries: seq<Entry>)
    requires ByAge(sorted) && forall x :: x in sorted ==> x in entries
    requires forall x :: x in entries ==> e.updatedAt <= x.updatedAt
    ensures ByAge([e] + sorted)
  {
  }

  lemma {:induction false} SortIsByAge(index: seq<Entry>)
    ensures ByAge(SortByAge(index))
  {
    if index != [] {
      SortIsByAge(index[1..]);
      InsertKeepsOrder(index[0], SortByAge(index[1..]));
    }
  }

  lemma {:induction false} SortedIsSorted(index: seq<Entry>)
    requires ByAge(index)
    ensures SortByAge(index) == index
  {
    if index != [] {
      SortedIsSorted(index[1..]);
      assert index == [index[0]] + index[1..];
    }
  }

  lemma TakeOne(b: seq<Entry>, e: Entry) returns (i: nat)
    requires e in multiset(b)
    ensures i < |b| && b[i] == e && b == b[..i] + [e] + b[i + 1..]
    ensures multiset(b[..i] + b[i + 1..]) == multiset(b) - multiset{e}
  {
    i :| i < |b| && b[i] == e;
    assert b == b[..i] + [e] + b[i + 1..];
  }

  lemma {:induction false} SumIsOfMultiset(a: seq<Entry>, b: seq<Entry>)
    requires multiset(a) == multiset(b)
    ensures Sum(a) == Sum(b)
    decreases |a|
  {
    if a == [] {
      assert |multiset(b)| == 0;
    } else {
      assert a == [a[0]] + a[1..];
      assert multiset(a[1..]) == multiset(a) - multiset{a[0]};
      var i := TakeOne(b, a[0]);
      SumIsOfMultiset(a[1..], b[..i] + b[i + 1..]);
      SumOfParts(b[..i], a[0], b[i + 1..]);
    }
  }

  lemma {:induction false} SumOfParts(a: seq<Entry>, e: Entry, b: seq<Entry>)
    ensures Sum(a + [e] + b) == Sum(a + b) + e.size
  {
    if a == [] {
      assert a + [e] + b == [e] + b && a + b == b && ([e] + b)[1..] == b;
    } else {
      SumOfParts(a[1..], e, b);
      assert (a + [e] + b)[1..] == a[1..] + [e] + b && (a + b)[1..] == a[1..] + b;
    }
  }

  lemma {:induction false} DistinctWithout(index: seq<Entry>, key: string)
    requires Distinct(index)
    ensures Distinct(Without(index, key))
    ensures Sum(Without(index, key)) <= Sum(index)
  {
    if index != [] {
      DistinctTail(index);
      DistinctWithout(index[1..], key);
      if index[0].key != key {
        assert Keys(Without(index[1..], key)) <= Keys(index[1..]);
        DistinctCons(index[0], Without(index[1..], key));
        assert ([index[0]] + Without(index[1..], key))[1..] == Without(index[1..], key);
      } else {
        assert Without(index, key) == Without(index[1..], key);
      }
    }
  }

  lemma {:induction false} EvictKeepsTheRest(index: seq<Entry>, size: nat)
    requires size <= MAX_BUFFER
    ensures forall e :: e in Evict(index, size) ==> e in index
    ensures forall e :: e in index ==> e in Evict(index, size) || e.key in Gone(index, size)
    ensures Distinct(index) ==> Distinct(Evict(index, size))
    decreases |index|
  {
    if !Fits(index, size) {
      var sorted := SortByAge(index);
      SortIsPermutation(index);
      SameEntries(sorted, index);
      assert sorted == [sorted[0]] + sorted[1..];
      EvictKeepsTheRest(sorted[1..], size);
      if Distinct(index) { DistinctTail(sorted); }
    }
  }

  // ---------------------------------------------------------------------------
  // A save evicts no more than it must, least recent first
  // ---------------------------------------------------------------------------

  lemma FitsEither(a: seq<Entry>, b: seq<Entry>, size: nat)
    requires multiset(a) == multiset(b)
    ensures Fits(a, size) == Fits(b, size)
  {
    SumIsOfMultiset(a, b);
    assert |multiset(a)| == |multiset(b)|;
  }

  /** Without its first k entries the new buffer fits, with one more of them it would not. */
  predicate FirstToFit(sorted: seq<Entry>, size: nat, k: nat) {
    && k <= |sorted| && Fits(sorted[k..], size)
    && forall j: nat :: j < k ==> !Fits(sorted[j..], size)
  }

  lemma OneLater(sorted: seq<Entry>, size: nat, n: nat)
    requires sorted != [] && !Fits(sorted, size) && FirstToFit(sorted[1..], size, n)
    ensures FirstToFit(sorted, size, n + 1)
    ensures sorted[n + 1..] == sorted[1..][n..]
    ensures {sorted[0].key} + Keys(sorted[1..][..n]) == Keys(sorted[..n + 1])
  {
    assert sorted[0..] == sorted;
    assert forall j: nat :: 0 < j <= n + 1 ==> sorted[j..] == sorted[1..][j - 1..];
    KeysOfCons(sorted[..n + 1]);
    assert sorted[..n + 1][1..] == sorted[1..][..n];
  }

  lemma {:induction false} EvictsFromSorted(sorted: seq<Entry>, size: nat) returns (k: nat)
    requires ByAge(sorted) && size <= MAX_BUFFER
    ensures FirstToFit(sorted, size, k)
    ensures Evict(sorted, size) == sorted[k..] && Gone(sorted, size) == Keys(sorted[..k])
    decreases |sorted|
  {
    if Fits(sorted, size) {
      assert sorted[0..] == sorted;
      k := 0;
    } else {
      SortedIsSorted(sorted);
      var n := EvictsFromSorted(sorted[1..], size);
      OneLater(sorted, size, n);
      k := n + 1;
    }
  }

  /** What a save evicts is the shortest prefix, in the order of the last saves, that makes
      the new buffer fit. */
  lemma EvictsShortestPrefix(index: seq<Entry>, size: nat) returns (k: nat)
    requires size <= MAX_BUFFER
    ensures k <= |index| && Gone(index, size) == Keys(SortByAge(index)[..k])
    ensures Evict(index, size) == if k == 0 then index else SortByAge(index)[k..]
    ensures FirstToFit(SortByAge(index), size, k)
  {
    var sorted := SortByAge(index);
    SortIsByAge(index);
    SortIsPermutation(index);
    FitsEither(index, sorted, size);
    SortedIsSorted(sorted);
    k := EvictsFromSorted(sorted, size);
  }

  // ---------------------------------------------------------------------------
  // The invariant
  // ---------------------------------------------------------------------------

  /** The key is indexed with this size. */
  predicate Indexed(index: seq<Entry>, key: string, size: nat) {
    exists e :: e in index && e.key == key && e.size == size
  }

  predicate AllIndexed(s: State) {
    forall k :: k in s.buffers ==> Indexed(s.index, k, |s.buffers[k]|)
  }

  predicate Inv(s: State) {
    && AllIndexed(s)
    && Distinct(s.index) && |s.index| <= MAX_BUFFERS && Sum(s.index) <= MAX_BUFFER * MAX_BUFFERS
    && s.buffers.Keys !! s.closed
  }

  lemma {:induction false} SumOfAppend(index: seq<Entry>, e: Entry)
    ensures Sum(index + [e]) == Sum(index) + e.size
  {
    SumOfParts(index, e, []);
    assert index + [] == index && index + [e] + [] == index + [e];
  }

  lemma DistinctAppend(index: seq<Entry>, e: Entry)
    requires Distinct(index) && e.key !in Keys(index)
    ensures Distinct(index + [e])
  {
    DistinctCons(e, index);
    assert multiset(index + [e]) == multiset([e] + index);
    SameEntries(index + [e], [e] + index);
  }

  lemma SaveKeepsInv(s: State, key: string, value: string, now: int, writes: Writes)
    requires Inv(s) && !writes.IndexFails?
    ensures Inv(Saved(s, key, value, now, writes))
  {
    if key != "" && key !in s.closed && |value| <= MAX_BUFFER && writes.BothWritten? {
      var others := Without(s.index, key);
      var left := Evict(others, |value|);
      DistinctWithout(s.index, key);
      EvictKeepsTheRest(others, |value|);
      SumOfAppend(left, Entry(key, |value|, now));
      DistinctAppend(left, Entry(key, |value|, now));
      SavedIsIndexed(s, key, value, now);
    }
  }

  lemma SavedIsIndexed(s: State, key: string, value: string, now: int)
    requires AllIndexed(s) && key != "" && key !in s.closed && |value| <= MAX_BUFFER
    ensures AllIndexed(Saved(s, key, value, now, BothWritten))
  {
    var t := Saved(s, key, value, now, BothWritten);
    var others := Without(s.index, key);
    EvictKeepsTheRest(others, |value|);
    forall k | k in t.buffers ensures Indexed(t.index, k, |t.buffers[k]|) {
      if k == key {
        assert t.index[|t.index| - 1] == Entry(key, |value|, now);
      } else {
        var e :| e in s.index && e.key == k && e.size == |s.buffers[k]|;
        assert e in others && e in t.index;
      }
    }
  }

  lemma ClearKeepsInv(s: State, key: string, indexWritten: bool)
    requires Inv(s)
    ensures Inv(Cleared(s, key, indexWritten)) && Inv(Closed(s, key, indexWritten))
  {
    DistinctWithout(s.index, key);
    var t := Cleared(s, key, indexWritten);
    forall k | k in t.buffers ensures Indexed(t.index, k, |t.buffers[k]|) {
      var e :| e in s.index && e.key == k && e.size == |s.buffers[k]|;
      assert key != "" ==> e in t.index;
    }
  }

  // ---------------------------------------------------------------------------
  // Sequences of operations
  // ---------------------------------------------------------------------------

  datatype Action =
    | Save(key: string, value: string, now: int, writes: Writes)
    | Clear(key: string, indexWritten: bool)
    | Close(key: string, indexWritten: bool)
    | ClearAll
    | Reload

  /** A reload forgets the closed keys and keeps the storage. */
  function Apply(s: State, a: Action): State {
    match a
    case Save(key, value, now, writes) => Saved(s, key, value, now, writes)
    case Clear(key, indexWritten) => Cleared(s, key, indexWritten)
    case Close(key, indexWritten) => Closed(s, key, indexWritten)
    case ClearAll => AllCleared(s)
    case Reload => s.(closed := {})
  }

  function Run(s: State, run: seq<Action>): State
    decreases |run|
  {
    if run == [] then s else Run(Apply(s, run[0]), run[1..])
  }

  const EMPTY := State(map[], [], {})

  predicate SavesIndex(run: seq<Action>) {
    forall a :: a in run && a.Save? ==> !a.writes.IndexFails?
  }

  /** A cleared key loads nothing, whether or not the index could be written, and no other
      key loads anything else than before; the index loses the entry of that key alone. */
  lemma ClearForgets(s: State, key: string, indexWritten: bool, other: string)
    ensures forall t :: t in {Cleared(s, key, indexWritten), Closed(s, key, indexWritten)} ==>
              && Loaded(t, key).None?
              && (other != key ==> Loaded(t, other) == Loaded(s, other))
              && (key != "" && indexWritten ==> forall e :: e in t.index <==> e in s.index && e.key != key)
              && (!indexWritten ==> t.index == s.index)
  {
  }

  lemma AllClearedIsEmpty(s: State)
    requires AllIndexed(s)
    ensures AllCleared(s).buffers == map[]
  {
    forall k | k in s.buffers ensures k in Keys(s.index) {
      assert Indexed(s.index, k, |s.buffers[k]|);
    }
  }

  lemma {:induction false} RunKeepsInv(s: State, run: seq<Action>)
    requires Inv(s) && SavesIndex(run)
    ensures Inv(Run(s, run))
    decreases |run|
  {
    if run != [] {
      match run[0] {
        case Save(key, value, now, writes) => SaveKeepsInv(s, key, value, now, writes);
        case Clear(key, indexWritten) => ClearKeepsInv(s, key, indexWritten);
        case Close(key, indexWritten) => ClearKeepsInv(s, key, indexWritten);
        case ClearAll => AllClearedIsEmpty(s);
        case Reload =>
      }
      assert forall a :: a in run[1..] ==> a in run;
      RunKeepsInv(Apply(s, run[0]), run[1..]);
    }
  }

  predicate Different(keys: seq<string>) {
    forall i: nat, j: nat :: i < j < |keys| ==> keys[i] != keys[j]
  }

  function Stored(buffers: map<string, string>, keys: seq<string>): nat
    requires forall k :: k in keys ==> k in buffers
  {
    if keys == [] then 0 else |buffers[keys[0]]| + Stored(buffers, keys[1..])
  }

  /** The index accounts for any choice of stored buffers. */
  lemma {:induction false} IndexCoversStored(s: State, index: seq<Entry>, keys: seq<string>)
    requires Different(keys) && forall k :: k in keys ==> k in s.buffers && Indexed(index, k, |s.buffers[k]|)
    ensures |keys| <= |index| && Stored(s.buffers, keys) <= Sum(index)
    decreases |keys|
  {
    if keys != [] {
      var e :| e in index && e.key == keys[0] && e.size == |s.buffers[keys[0]]|;
      var i: nat :| i < |index| && index[i] == e;
      assert index == index[..i] + [e] + index[i + 1..];
      SumOfParts(index[..i], e, index[i + 1..]);
      var rest := index[..i] + index[i + 1..];
      forall k | k in keys[1..] ensures Indexed(rest, k, |s.buffers[k]|) {
        var j: nat :| j < |keys[1..]| && keys[1..][j] == k;
        assert keys[j + 1] == k != keys[0];
        assert k in keys;
        var x :| x in index && x.key == k && x.size == |s.buffers[k]|;
        assert x in rest;
      }
      IndexCoversStored(s, rest, keys[1..]);
    }
  }

  /** In every session in which no save loses its index write, however many buffer writes and
      index writes of a clear fail: at most ten buffers and ten times 256 Ki characters are
      stored, each indexed with its true size and only once. */
  lemma CapsHold(run: seq<Action>, keys: seq<string>)
    requires SavesIndex(run) && Different(keys)
    requires forall k :: k in keys ==> k in Run(EMPTY, run).buffers
    ensures AllIndexed(Run(EMPTY, run)) && Distinct(Run(EMPTY, run).index)
    ensures |keys| <= MAX_BUFFERS && Stored(Run(EMPTY, run).buffers, keys) <= MAX_BUFFER * MAX_BUFFERS
  {
    RunKeepsInv(EMPTY, run);
    IndexCoversStored(Run(EMPTY, run), Run(EMPTY, run).index, keys);
  }

  /** When the index write of a save fails, the index still agrees with the store exactly
      if the key was indexed before with the size of the new buffer. */
  lemma IndexFailureIff(s: State, key: string, value: string, now: int)
    requires Inv(s) && key != "" && key !in s.closed && |value| <= MAX_BUFFER
    ensures Inv(Saved(s, key, value, now, IndexFails)) <==> Indexed(s.index, key, |value|)
  {
    var t := Saved(s, key, value, now, IndexFails);
    assert t.buffers[key] == value;
    if Indexed(s.index, key, |value|) {
      forall k | k in t.buffers ensures Indexed(t.index, k, |t.buffers[k]|) {
        if k != key { assert k in s.buffers; }
      }
    }
  }

  // ---------------------------------------------------------------------------
  // Closed keys
  // ---------------------------------------------------------------------------

  /** Until the page is reloaded a closed key never loads again. */
  lemma {:induction false} ClosedNeverLoads(s: State, run: seq<Action>, key: string)
    requires key in s.closed && key !in s.buffers && Reload !in run
    ensures Loaded(Run(s, run), key) == None && key in Run(s, run).closed
    decreases |run|
  {
    if run != [] {
      assert run[0] in run;
      assert forall a :: a in run[1..] ==> a in run;
      ClosedNeverLoads(Apply(s, run[0]), run[1..], key);
    }
  }

  lemma ClosingStartsIt(s: State, run: seq<Action>, key: string, indexWritten: bool)
    requires key != "" && Reload !in run
    ensures Loaded(Run(Closed(s, key, indexWritten), run), key) == None
  {
    ClosedNeverLoads(Closed(s, key, indexWritten), run, key);
  }

  // ---------------------------------------------------------------------------
  // What is saved loads
  // ---------------------------------------------------------------------------

  predicate Accepted(s: State, key: string, value: string) {
    key != "" && key !in s.closed && |value| <= MAX_BUFFER
  }

  /** The action removes this buffer to make room for another one. */
  predicate Evicts(s: State, a: Action, key: string) {
    a.Save? && a.key != key && Accepted(s, a.key, a.value) && key in Gone(Without(s.index, a.key), |a.value|)
  }

  /** The action saves, clears or closes the key itself, or clears everything indexed. */
  predicate Addresses(a: Action, key: string) {
    ((a.Save? || a.Clear? || a.Close?) && a.key == key) || a.ClearAll?
  }

  /** Nothing in the run addresses or evicts the key. */
  predicate LeavesAlone(s: State, run: seq<Action>, key: string)
    decreases |run|
  {
    run != [] ==>
      !Addresses(run[0], key) && !Evicts(s, run[0], key) && LeavesAlone(Apply(s, run[0]), run[1..], key)
  }

  /** A key loads what it loaded before until it is addressed or evicted. */
  lemma {:induction false} StaysLoaded(s: State, run: seq<Action>, key: string)
    requires LeavesAlone(s, run, key)
    ensures Loaded(Run(s, run), key) == Loaded(s, key)
    decreases |run|
  {
    if run != [] {
      OneStepKeeps(s, run[0], key);
      StaysLoaded(Apply(s, run[0]), run[1..], key);
    }
  }

  lemma OneStepKeeps(s: State, a: Action, key: string)
    requires !Addresses(a, key) && !Evicts(s, a, key)
    ensures Loaded(Apply(s, a), key) == Loaded(s, key)
  {
  }

  /** In every session: a completed save loads back exactly, from then on until its key is
      saved again, cleared, closed or evicted; and it costs another key its buffer only if
      that key is among the least recent ones that had to make room. */
  lemma SavedLoadsBack(before: seq<Action>, key: string, value: string, now: int, after: seq<Action>)
    requires Accepted(Run(EMPTY, before), key, value)
    requires LeavesAlone(Apply(Run(EMPTY, before), Save(key, value, now, BothWritten)), after, key)
    ensures var s := Run(EMPTY, before);
            var t := Apply(s, Save(key, value, now, BothWritten));
            && Loaded(Run(t, after), key) == Some(value)
            && forall k :: k != key ==>
                 Loaded(t, k) == if k in Gone(Without(s.index, key), |value|) then None else Loaded(s, k)
  {
    var s := Run(EMPTY, before);
    StaysLoaded(Apply(s, Save(key, value, now, BothWritten)), after, key);
  }

  /** A save that is refused, and one whose buffer cannot be written, store nothing new. */
  lemma FailedSaveStoresNothing(s: State, key: string, value: string, now: int, writes: Writes)
    requires !Accepted(s, key, value) || writes.BufferFails?
    ensures forall k :: Loaded(Apply(s, Save(key, value, now, writes)), k) in {Loaded(s, k), None}
    ensures !Accepted(s, key, value) ==> Apply(s, Save(key, value, now, writes)) == s
  {
  }

  // ---------------------------------------------------------------------------
  // Recency
  // ---------------------------------------------------------------------------

  /** No save is dated before an entry of the index. */
  predicate Clocked(s: State, run: seq<Action>)
    decreases |run|
  {
    run != [] ==>
      && (run[0].Save? ==> forall e :: e in s.index ==> e.updatedAt <= run[0].now)
      && Clocked(Apply(s, run[0]), run[1..])
  }

  lemma {:induction false} WithoutByAge(index: seq<Entry>, key: string)
    requires ByAge(index)
    ensures ByAge(Without(index, key))
  {
    if index != [] {
      WithoutByAge(index[1..], key);
      if index[0].key != key {
        OldestFirst(index[0], Without(index[1..], key), index);
      }
    }
  }

  /** While the clock does not go back, the index is in the order of the last saves, so a
      save drops entries from its front and nothing is ever reordered. */
  lemma {:induction false} IndexInSaveOrder(s: State, run: seq<Action>)
    requires ByAge(s.index) && Clocked(s, run)
    ensures ByAge(Run(s, run).index)
    decreases |run|
  {
    if run != [] {
      match run[0] {
        case Save(key, value, now, writes) =>
          if |value| <= MAX_BUFFER { var k := SaveInOrder(s, key, value, now); }
        case Clear(key, _) => WithoutByAge(s.index, key);
        case Close(key, _) => WithoutByAge(s.index, key);
        case ClearAll =>
        case Reload =>
      }
      IndexInSaveOrder(Apply(s, run[0]), run[1..]);
    }
  }

  lemma SaveInOrder(s: State, key: string, value: string, now: int) returns (k: nat)
    requires ByAge(s.index) && |value| <= MAX_BUFFER
    requires forall e :: e in s.index ==> e.updatedAt <= now
    ensures k <= |Without(s.index, key)|
    ensures key != "" && key !in s.closed ==>
              Saved(s, key, value, now, BothWritten).index == Without(s.index, key)[k..] + [Entry(key, |value|, now)]
    ensures ByAge(Saved(s, key, value, now, BothWritten).index)
  {
    var others := Without(s.index, key);
    WithoutByAge(s.index, key);
    k := EvictsFromSorted(others, |value|);
    var t := others[k..] + [Entry(key, |value|, now)];
    forall i: nat, j: nat | i < j < |t| ensures t[i].updatedAt <= t[j].updatedAt {
      if j == |t| - 1 { assert t[i] == others[k + i] && others[k + i] in s.index; }
    }
  }
}
