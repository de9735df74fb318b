/** Decaying items on a wheel of four buckets, one of which is visited every 250 milliseconds. */
module Decay {
  import opened Options

  const BUCKETS := 4
  /** Four intervals: the time that one visit takes off an item. */
  const ROUND := 1000
  const HALF_INTERVAL := 125

  // ---------- when an item fires ----------

  /** The ticks after its next visit until an item with this duration fires. */
  function Extra(duration: nat): nat {
    if duration <= ROUND then 0
    else if duration - ROUND + HALF_INTERVAL < ROUND then 0
    else if duration - ROUND < ROUND then 1
    else BUCKETS + Extra(duration - ROUND)
  }

  /** The ticks from its placing until an item fires. */
  function FirstDue(duration: nat): nat { if duration < ROUND then 1 else BUCKETS + Extra(duration) }

  lemma {:induction false} ExtraClosed(duration: nat)
    requires duration >= ROUND
    ensures BUCKETS + Extra(duration) == 4 * (duration / 1000) + if duration % 1000 >= 875 then 1 else 0
  {
    if duration >= 2 * ROUND {
      var rest := duration - ROUND;
      assert rest / 1000 == duration / 1000 - 1 && rest % 1000 == duration % 1000;
      ExtraClosed(rest);
    }
  }

  /** Short items fire at once; others after four ticks for every full second, and one more for a long rest. */
  lemma FiringTick(duration: nat)
    ensures FirstDue(duration) ==
      if duration < 1000 then 1 else 4 * (duration / 1000) + if duration % 1000 >= 875 then 1 else 0
  {
    if duration >= 1000 {
      ExtraClosed(duration);
    }
  }

  /** The ticks from the last visited bucket to the next visit of another. */
  function Distance(last: nat, bucket: nat): nat
    requires last < BUCKETS && bucket < BUCKETS
  {
    if bucket > last then bucket - last else bucket + BUCKETS - last
  }

  // ---------- the wheel ----------

  datatype Entry = Entry(kind: int, duration: int, decaying: bool, gone: bool)

  /** What an item of a kind decays to, with its full duration; nothing for one that disappears. */
  type Becomes = int -> Option<(int, int)>

  ghost predicate Lasting(next: Becomes) { forall k {:trigger next(k)} :: next(k).Some? ==> next(k).value.1 > 0 }

  function Copies(lists: seq<seq<int>>, id: int): nat {
    if lists == [] then 0 else multiset(lists[0])[id] + Copies(lists[1..], id)
  }

  /** How often an item stands in the buckets and among the pending ones. */
  function Places(buckets: seq<seq<int>>, pending: seq<int>, id: int): nat {
    Copies(buckets, id) + multiset(pending)[id]
  }

  lemma {:induction false} CopiesUpdate(lists: seq<seq<int>>, b: nat, list: seq<int>, id: int)
    requires b < |lists|
    ensures Copies(lists[b := list], id) == Copies(lists, id) - multiset(lists[b])[id] + multiset(list)[id]
    decreases |lists|
  {
    if b > 0 {
      assert lists[b := list][1..] == lists[1..][b - 1 := list];
      CopiesUpdate(lists[1..], b - 1, list, id);
    } else {
      assert lists[b := list][1..] == lists[1..];
    }
  }

  lemma {:induction false} CopiesAtLeast(lists: seq<seq<int>>, b: nat, id: int)
    requires b < |lists|
    ensures multiset(lists[b])[id] <= Copies(lists, id)
    decreases |lists|
  {
    if b > 0 {
      CopiesAtLeast(lists[1..], b - 1, id);
    }
  }

  lemma {:induction false} CopiesAbove(lists: seq<seq<int>>, b: nat, c: nat, id: int)
    requires b < c < |lists|
    ensures multiset(lists[b])[id] + multiset(lists[c])[id] <= Copies(lists, id)
    decreases |lists|
  {
    if b > 0 {
      CopiesAbove(lists[1..], b - 1, c - 1, id);
    } else {
      CopiesAtLeast(lists[1..], c - 1, id);
    }
  }

  lemma WithoutAt(list: seq<int>, i: nat, id: int)
    requires i < |list|
    ensures multiset(list[..i] + list[i + 1..])[id] == multiset(list)[id] - if list[i] == id then 1 else 0
  {
    assert list == list[..i] + [list[i]] + list[i + 1..];
  }

  lemma TwoPlaces(list: seq<int>, i: nat, j: nat, id: int)
    requires i < |list| && j < |list| && i != j && list[i] == id && list[j] == id
    ensures multiset(list)[id] >= 2
  {
    WithoutAt(list, i, id);
    var rest := list[..i] + list[i + 1..];
    assert rest[if j < i then j else j - 1] == id;
    assert id in multiset(rest);
  }

  // ---------- the state of the wheel ----------

  /** `due` holds the tick at which a placed item is to fire, and `fired` the ticks of those that did. */
  datatype State = State(buckets: seq<seq<int>>, pending: seq<int>, items: map<int, Entry>, due: map<int, int>,
                         fired: map<int, int>)

  ghost predicate Pending(s: State, id: int) {
    id in s.items && s.items[id].duration > 0 && s.items[id].decaying && id !in s.fired
  }

  /** An item whose next visit is at tick `visit`. */
  ghost predicate Due(s: State, id: int, visit: int) {
    Pending(s, id) && id in s.due && s.due[id] == visit + Extra(s.items[id].duration)
  }

  ghost predicate AllDue(s: State, list: seq<int>, visit: int) {
    forall i {:trigger Due(s, list[i], visit)} :: 0 <= i < |list| ==> Due(s, list[i], visit)
  }

  /** The items of a bucket are due as its next visit tells, when `last` was visited at tick `tick`. */
  ghost predicate BucketDue(s: State, last: nat, tick: nat, b: nat)
    requires |s.buckets| == BUCKETS && last < BUCKETS && b < BUCKETS
  {
    AllDue(s, s.buckets[b], tick + Distance(last, b))
  }

  ghost predicate Unplaced(s: State, id: int) { Pending(s, id) && id !in s.due }

  ghost predicate AllPending(s: State) {
    forall i {:trigger Unplaced(s, s.pending[i])} :: 0 <= i < |s.pending| ==> Unplaced(s, s.pending[i])
  }

  /** No item stands in two places, and every decaying item that has not fired stands in one. */
  ghost predicate OnePlace(s: State) {
    && (forall id {:trigger Places(s.buckets, s.pending, id)} :: Places(s.buckets, s.pending, id) <= 1)
    && (forall id {:trigger Places(s.buckets, s.pending, id)} ::
          id in s.items && s.items[id].decaying && id !in s.fired ==> Places(s.buckets, s.pending, id) == 1)
  }

  /** Placed items fired when they were due. */
  ghost predicate OnTime(s: State) {
    forall id {:trigger FiredWell(s, id)} :: FiredWell(s, id)
  }

  ghost predicate FiredWell(s: State, id: int) {
    id in s.fired ==> id in s.items && (id in s.due ==> s.fired[id] == s.due[id])
  }

  ghost predicate Sound(s: State, last: nat, tick: nat) {
    && |s.buckets| == BUCKETS && last < BUCKETS && AllPending(s) && OnePlace(s) && OnTime(s)
    && (forall b {:trigger BucketDue(s, last, tick, b)} :: 0 <= b < BUCKETS ==> BucketDue(s, last, tick, b))
  }

  /** Tick n visits a bucket: the first i items of its list stay for another round, the others are to be visited. */
  ghost predicate Visiting(s: State, bucket: nat, n: nat, i: nat) {
    && |s.buckets| == BUCKETS && bucket < BUCKETS && i <= |s.buckets[bucket]|
    && AllPending(s) && OnePlace(s) && OnTime(s)
    && (forall b {:trigger BucketDue(s, bucket, n, b)} ::
          0 <= b < BUCKETS && b != bucket ==> BucketDue(s, bucket, n, b))
    && AllDue(s, s.buckets[bucket][..i], n + BUCKETS) && AllDue(s, s.buckets[bucket][i..], n)
  }

  lemma StartVisit(s: State, last: nat, tick: nat, bucket: nat)
    requires Sound(s, last, tick) && bucket == (last + 1) % BUCKETS
    ensures Visiting(s, bucket, tick + 1, 0)
  {
    assert s.buckets[bucket][0..] == s.buckets[bucket];
    forall b {:trigger BucketDue(s, bucket, tick + 1, b)} | 0 <= b < BUCKETS && b != bucket
      ensures BucketDue(s, bucket, tick + 1, b)
    {
      assert BucketDue(s, last, tick, b);
      assert tick + 1 + Distance(bucket, b) == tick + Distance(last, b);
    }
    assert BucketDue(s, last, tick, bucket);
    assert tick + Distance(last, bucket) == tick + 1;
  }

  lemma EndVisit(s: State, bucket: nat, n: nat)
    requires bucket < |s.buckets| && Visiting(s, bucket, n, |s.buckets[bucket]|)
    ensures Sound(s, bucket, n)
  {
    assert s.buckets[bucket][..|s.buckets[bucket]|] == s.buckets[bucket];
    forall b {:trigger BucketDue(s, bucket, n, b)} | 0 <= b < BUCKETS ensures BucketDue(s, bucket, n, b) {
      assert b == bucket ==> n + Distance(bucket, b) == n + BUCKETS;
    }
  }

  /** An item stands at one index of one list only. */
  lemma OnlyHere(s: State, bucket: nat, i: nat)
    requires OnePlace(s) && bucket < |s.buckets| && i < |s.buckets[bucket]|
    ensures var id := s.buckets[bucket][i];
      && (forall j {:trigger s.buckets[bucket][j]} ::
            0 <= j < |s.buckets[bucket]| && j != i ==> s.buckets[bucket][j] != id)
      && (forall b, j {:trigger s.buckets[b][j]} :: 0 <= b < |s.buckets| && b != bucket && 0 <= j < |s.buckets[b]| ==>
            s.buckets[b][j] != id)
      && (forall j {:trigger s.pending[j]} :: 0 <= j < |s.pending| ==> s.pending[j] != id)
  {
    var list, id := s.buckets[bucket], s.buckets[bucket][i];
    assert Places(s.buckets, s.pending, id) <= 1;
    CopiesAtLeast(s.buckets, bucket, id);
    assert id in multiset(list);
    forall j {:trigger list[j]} | 0 <= j < |list| && j != i ensures list[j] != id {
      if list[j] == id {
        TwoPlaces(list, i, j, id);
      }
    }
    forall b, j {:trigger s.buckets[b][j]} | 0 <= b < |s.buckets| && b != bucket && 0 <= j < |s.buckets[b]|
      ensures s.buckets[b][j] != id
    {
      if s.buckets[b][j] == id {
        assert id in multiset(s.buckets[b]);
        CopiesAbove(s.buckets, if b < bucket then b else bucket, if b < bucket then bucket else b, id);
      }
    }
  }

  lemma Gather(s: State, bucket: nat, n: nat, i: nat)
    requires |s.buckets| == BUCKETS && bucket < BUCKETS && i <= |s.buckets[bucket]| && OnePlace(s) && OnTime(s)
    requires forall j {:trigger s.pending[j]} :: 0 <= j < |s.pending| ==> Unplaced(s, s.pending[j])
    requires forall b, j {:trigger s.buckets[b][j]} :: 0 <= b < BUCKETS && 0 <= j < |s.buckets[b]| ==>
      Due(s, s.buckets[b][j], n + if b != bucket then Distance(bucket, b) else if j < i then BUCKETS else 0)
    ensures Visiting(s, bucket, n, i)
  {
    var list := s.buckets[bucket];
    forall j | 0 <= j < i ensures Due(s, list[..i][j], n + BUCKETS) {
      assert list[..i][j] == s.buckets[bucket][j];
    }
    forall j | 0 <= j < |list| - i ensures Due(s, list[i..][j], n) {
      assert list[i..][j] == s.buckets[bucket][i + j];
    }
    forall b | 0 <= b < BUCKETS && b != bucket ensures BucketDue(s, bucket, n, b) {
      forall j | 0 <= j < |s.buckets[b]| ensures Due(s, s.buckets[b][j], n + Distance(bucket, b)) {
        assert s.buckets[b][j] == s.buckets[b][j];
      }
    }
  }

  /** Whatever is pending or has fired is untouched by a change to one other item. */
  lemma OthersKept(s: State, id: int, e: Entry, s': State)
    requires AllPending(s) && OnTime(s) && id in s.items && s'.pending == s.pending && s'.due == s.due
    requires s'.items == s.items[id := e]
    requires s'.fired == s.fired || (id in s.due && s'.fired == s.fired[id := s.due[id]])
    requires forall j {:trigger s.pending[j]} :: 0 <= j < |s.pending| ==> s.pending[j] != id
    ensures forall j {:trigger s'.pending[j]} :: 0 <= j < |s'.pending| ==> Unplaced(s', s'.pending[j])
    ensures OnTime(s')
  {
    forall j {:trigger s'.pending[j]} | 0 <= j < |s'.pending| ensures Unplaced(s', s'.pending[j]) {
      assert Unplaced(s, s.pending[j]);
    }
    forall x {:trigger FiredWell(s', x)} ensures FiredWell(s', x) {
      assert FiredWell(s, x);
    }
  }

  lemma DueAt(s: State, bucket: nat, n: nat, i: nat, b: nat, j: nat)
    requires Visiting(s, bucket, n, i) && b < BUCKETS && j < |s.buckets[b]|
    ensures Due(s, s.buckets[b][j], n + if b != bucket then Distance(bucket, b) else if j < i then BUCKETS else 0)
  {
    if b == bucket {
      var list := s.buckets[bucket];
      if j < i {
        assert list[..i][j] == list[j] && Due(s, list[..i][j], n + BUCKETS);
      } else {
        assert list[i..][j - i] == list[j] && Due(s, list[i..][j - i], n);
      }
    } else {
      assert BucketDue(s, bucket, n, b) && Due(s, s.buckets[b][j], n + Distance(bucket, b));
    }
  }

  /** Whoever changes buckets or leaves them: the other items keep their places. */
  ghost predicate SamePlaces(s: State, s': State, id: int) {
    forall x {:trigger Places(s'.buckets, s'.pending, x)} :: x != id ==>
      Places(s'.buckets, s'.pending, x) == Places(s.buckets, s.pending, x)
  }

  lemma StillOnePlace(s: State, s': State, id: int, e: Entry)
    requires OnePlace(s) && SamePlaces(s, s', id) && s'.items == s.items[id := e]
    requires forall x {:trigger x in s'.fired} :: x in s'.fired <==> x in s.fired || (x == id && id in s'.fired)
    requires Places(s'.buckets, s'.pending, id) <= 1
    requires e.decaying && id !in s'.fired ==> Places(s'.buckets, s'.pending, id) == 1
    ensures OnePlace(s')
  {
    forall x {:trigger Places(s'.buckets, s'.pending, x)}
      ensures Places(s'.buckets, s'.pending, x) <= 1
      ensures x in s'.items && s'.items[x].decaying && x !in s'.fired ==> Places(s'.buckets, s'.pending, x) == 1
    {
      if x != id {
        assert Places(s.buckets, s.pending, x) <= 1;
      }
    }
  }

  /** The places after the item at index i of a bucket is taken out. */
  lemma TakenOut(s: State, bucket: nat, i: nat, id: int, buckets: seq<seq<int>>, x: int)
    requires bucket < |s.buckets| && i < |s.buckets[bucket]| && id == s.buckets[bucket][i]
    requires buckets == s.buckets[bucket := s.buckets[bucket][..i] + s.buckets[bucket][i + 1..]]
    ensures Places(buckets, s.pending, x) == Places(s.buckets, s.pending, x) - if x == id then 1 else 0
  {
    CopiesUpdate(s.buckets, bucket, s.buckets[bucket][..i] + s.buckets[bucket][i + 1..], x);
    WithoutAt(s.buckets[bucket], i, x);
  }

  /** The visited item leaves the wheel: it has fired, or it has stopped decaying. */
  lemma Leave(s: State, bucket: nat, n: nat, i: nat, id: int, e: Entry, fired: map<int, int>, buckets: seq<seq<int>>,
              s': State)
    requires Visiting(s, bucket, n, i) && i < |s.buckets[bucket]| && id == s.buckets[bucket][i]
    requires buckets == s.buckets[bucket := s.buckets[bucket][..i] + s.buckets[bucket][i + 1..]]
    requires s' == State(buckets, s.pending, s.items[id := e], s.due, fired)
    requires if e.decaying then fired == s.fired[id := n] && id in s.due && s.due[id] == n else fired == s.fired
    ensures Visiting(s', bucket, n, i)
  {
    OnlyHere(s, bucket, i);
    DueAt(s, bucket, n, i, bucket, i);
    assert Places(s.buckets, s.pending, id) <= 1;
    TakenOut(s, bucket, i, id, buckets, id);
    forall x {:trigger Places(buckets, s.pending, x)} | x != id
      ensures Places(buckets, s.pending, x) == Places(s.buckets, s.pending, x)
    {
      TakenOut(s, bucket, i, id, buckets, x);
    }
    StillOnePlace(s, s', id, e);
    OthersKept(s, id, e, s');
    forall b, j {:trigger s'.buckets[b][j]} | 0 <= b < BUCKETS && 0 <= j < |s'.buckets[b]|
      ensures Due(s', s'.buckets[b][j], n + if b != bucket then Distance(bucket, b) else if j < i then BUCKETS else 0)
    {
      var k := if b == bucket && j >= i then j + 1 else j;
      assert s'.buckets[b][j] == s.buckets[b][k];
      DueAt(s, bucket, n, i, b, k);
    }
    Gather(s', bucket, n, i);
  }

  /** The visited item has another full round to wait. */
  lemma Stay(s: State, bucket: nat, n: nat, i: nat, e: Entry, s': State)
    requires Visiting(s, bucket, n, i) && i < |s.buckets[bucket]|
    requires s.buckets[bucket][i] in s.items && s.items[s.buckets[bucket][i]].duration >= 2 * ROUND
    requires e == s.items[s.buckets[bucket][i]].(duration := s.items[s.buckets[bucket][i]].duration - ROUND)
    requires s' == s.(items := s.items[s.buckets[bucket][i] := e])
    ensures Visiting(s', bucket, n, i + 1)
  {
    var id := s.buckets[bucket][i];
    OnlyHere(s, bucket, i);
    DueAt(s, bucket, n, i, bucket, i);
    assert Places(s.buckets, s.pending, id) == 1;
    StillOnePlace(s, s', id, e);
    OthersKept(s, id, e, s');
    forall b, j {:trigger s'.buckets[b][j]} | 0 <= b < BUCKETS && 0 <= j < |s'.buckets[b]|
      ensures Due(s', s'.buckets[b][j],
                  n + if b != bucket then Distance(bucket, b) else if j < i + 1 then BUCKETS else 0)
    {
      assert s'.buckets[b][j] == s.buckets[b][j];
      DueAt(s, bucket, n, i, b, j);
    }
    Gather(s', bucket, n, i + 1);
  }

  lemma MovedOver(s: State, bucket: nat, i: nat, id: int, to: nat, without: seq<seq<int>>, buckets: seq<seq<int>>,
                  x: int)
    requires bucket < |s.buckets| && i < |s.buckets[bucket]| && id == s.buckets[bucket][i] && to < |s.buckets|
    requires to != bucket
    requires without == s.buckets[bucket := s.buckets[bucket][..i] + s.buckets[bucket][i + 1..]]
    requires buckets == without[to := s.buckets[to] + [id]]
    ensures Places(buckets, s.pending, x) == Places(s.buckets, s.pending, x)
  {
    TakenOut(s, bucket, i, id, without, x);
    CopiesUpdate(without, to, s.buckets[to] + [id], x);
  }

  /** The visited item has nearly a round left and goes to the next bucket, which is not the visited one. */
  lemma Move(s: State, bucket: nat, n: nat, i: nat, id: int, to: nat, e: Entry, without: seq<seq<int>>,
             buckets: seq<seq<int>>, s': State)
    requires Visiting(s, bucket, n, i) && i < |s.buckets[bucket]| && to == (bucket + 1) % BUCKETS
    requires id == s.buckets[bucket][i] && id in s.items
    requires e == s.items[id].(duration := s.items[id].duration - ROUND) && ROUND - HALF_INTERVAL <= e.duration < ROUND
    requires without == s.buckets[bucket := s.buckets[bucket][..i] + s.buckets[bucket][i + 1..]]
    requires buckets == without[to := s.buckets[to] + [id]]
    requires s' == State(buckets, s.pending, s.items[id := e], s.due, s.fired)
    ensures to != bucket && Visiting(s', bucket, n, i)
  {
    OnlyHere(s, bucket, i);
    DueAt(s, bucket, n, i, bucket, i);
    assert Places(s.buckets, s.pending, id) == 1;
    forall x {:trigger Places(buckets, s.pending, x)}
      ensures Places(buckets, s.pending, x) == Places(s.buckets, s.pending, x)
    {
      MovedOver(s, bucket, i, id, to, without, buckets, x);
    }
    StillOnePlace(s, s', id, e);
    OthersKept(s, id, e, s');
    var r := |s.buckets[to]|;
    assert buckets[to] == s.buckets[to] + [id] && Distance(bucket, to) == 1;
    forall b, j {:trigger s'.buckets[b][j]} | 0 <= b < BUCKETS && 0 <= j < |s'.buckets[b]|
      ensures Due(s', s'.buckets[b][j], n + if b != bucket then Distance(bucket, b) else if j < i then BUCKETS else 0)
    {
      if b == to && j == r {
        assert s'.buckets[b][j] == id;
      } else if b == bucket {
        var k := if j >= i then j + 1 else j;
        assert s'.buckets[b][j] == s.buckets[b][k];
        DueAt(s, bucket, n, i, b, k);
      } else {
        assert s'.buckets[b][j] == s.buckets[b][j];
        DueAt(s, bucket, n, i, b, j);
      }
    }
    Gather(s', bucket, n, i);
  }

  lemma {:induction false} NowherePlaced(lists: seq<seq<int>>, id: int)
    requires forall b :: 0 <= b < |lists| ==> id !in lists[b]
    ensures Copies(lists, id) == 0
    decreases |lists|
  {
    if lists != [] {
      NowherePlaced(lists[1..], id);
    }
  }

  /** An item starts to decay: it joins the pending ones. */
  lemma Join(s: State, bucket: nat, n: nat, i: nat, id: int, e: Entry, s': State)
    requires Visiting(s, bucket, n, i) && e.decaying && e.duration > 0 && id !in s.fired && id !in s.due
    requires id in s.items ==> !s.items[id].decaying
    requires s' == s.(pending := [id] + s.pending, items := s.items[id := e])
    ensures Visiting(s', bucket, n, i)
  {
    forall b | 0 <= b < BUCKETS ensures id !in s.buckets[b] {
      forall j | 0 <= j < |s.buckets[b]| ensures s.buckets[b][j] != id {
        DueAt(s, bucket, n, i, b, j);
      }
    }
    NowherePlaced(s.buckets, id);
    forall j | 0 <= j < |s.pending| ensures s.pending[j] != id {
      assert Unplaced(s, s.pending[j]);
    }
    assert id !in s.pending && s'.pending[0] == id && s'.pending[1..] == s.pending;
    StillOnePlace(s, s', id, e);
    forall j {:trigger s'.pending[j]} | 0 <= j < |s'.pending| ensures Unplaced(s', s'.pending[j]) {
      if j > 0 {
        assert s'.pending[j] == s.pending[j - 1] && Unplaced(s, s.pending[j - 1]);
      }
    }
    forall x {:trigger FiredWell(s', x)} ensures FiredWell(s', x) {
      assert FiredWell(s, x);
    }
    forall b, j {:trigger s'.buckets[b][j]} | 0 <= b < BUCKETS && 0 <= j < |s'.buckets[b]|
      ensures Due(s', s'.buckets[b][j], n + if b != bucket then Distance(bucket, b) else if j < i then BUCKETS else 0)
    {
      assert s'.buckets[b][j] == s.buckets[b][j];
      DueAt(s, bucket, n, i, b, j);
    }
    Gather(s', bucket, n, i);
  }

  /** `cleanup` places one pending item. */
  lemma Place(s: State, last: nat, tick: nat, id: int, b: nat, s': State)
    requires Sound(s, last, tick) && s.pending != [] && id == s.pending[0] && id in s.items && s.items[id].duration > 0
    requires b == if s.items[id].duration >= ROUND then last else (last + 1) % BUCKETS
    requires s' == s.(buckets := s.buckets[b := s.buckets[b] + [id]], pending := s.pending[1..],
                      due := s.due[id := tick + FirstDue(s.items[id].duration)])
    ensures Sound(s', last, tick)
  {
    assert Unplaced(s, s.pending[0]) && s.pending == [id] + s.pending[1..];
    forall x {:trigger Places(s'.buckets, s'.pending, x)}
      ensures Places(s'.buckets, s'.pending, x) == Places(s.buckets, s.pending, x)
    {
      CopiesUpdate(s.buckets, b, s.buckets[b] + [id], x);
    }
    assert Places(s.buckets, s.pending, id) <= 1;
    StillOnePlace(s, s', id, s.items[id]);
    forall j {:trigger s'.pending[j]} | 0 <= j < |s'.pending| ensures Unplaced(s', s'.pending[j]) {
      assert s'.pending[j] == s.pending[j + 1] && Unplaced(s, s.pending[j + 1]);
      NotTwice(s.pending, 0, j + 1);
    }
    forall x {:trigger FiredWell(s', x)} ensures FiredWell(s', x) {
      assert FiredWell(s, x);
    }
    OpenVisit(s, last, tick);
    var i, r := |s'.buckets[last]|, |s.buckets[b]|;
    forall c, j {:trigger s'.buckets[c][j]} | 0 <= c < BUCKETS && 0 <= j < |s'.buckets[c]|
      ensures Due(s', s'.buckets[c][j], tick + if c != last then Distance(last, c) else if j < i then BUCKETS else 0)
    {
      if c == b && j == r {
        assert s'.buckets[c][j] == id;
      } else {
        assert s'.buckets[c][j] == s.buckets[c][j];
        DueAt(s, last, tick, |s.buckets[last]|, c, j);
      }
    }
    Gather(s', last, tick, i);
    EndVisit(s', last, tick);
  }

  lemma NotTwice(list: seq<int>, i: nat, j: nat)
    requires i < j < |list| && multiset(list)[list[i]] <= 1
    ensures list[j] != list[i]
  {
    if list[j] == list[i] {
      TwoPlaces(list, i, j, list[i]);
    }
  }

  /** What is placed is due later. */
  lemma DueLater(s: State, last: nat, tick: nat, id: int)
    requires Sound(s, last, tick) && id in s.items && s.items[id].decaying && id !in s.fired && id in s.due
    ensures s.due[id] > tick
  {
    assert Places(s.buckets, s.pending, id) == 1;
    forall j | 0 <= j < |s.pending| ensures s.pending[j] != id {
      assert Unplaced(s, s.pending[j]);
    }
    if forall b :: 0 <= b < BUCKETS ==> id !in s.buckets[b] {
      NowherePlaced(s.buckets, id);
    } else {
      var b :| 0 <= b < BUCKETS && id in s.buckets[b];
      var j :| 0 <= j < |s.buckets[b]| && s.buckets[b][j] == id;
      assert BucketDue(s, last, tick, b) && Due(s, s.buckets[b][j], tick + Distance(last, b));
    }
  }

  // ---------- the game's side ----------

  /** An item on the wheel that can decay. */
  ghost predicate Ready(s: State, id: int) {
    id in s.items && s.items[id].decaying && !s.items[id].gone && id !in s.fired && id in s.due
  }

  /** Every item that is due is one that is known. */
  ghost predicate DueKnown(items: map<int, Entry>, due: map<int, int>) {
    forall id {:trigger id in due} :: id in due ==> id in items
  }

  /** An item keeps its kind; one that can decay goes on doing so, and none starts anew. */
  predicate KeptItem(before: Entry, after: Entry) {
    && after.kind == before.kind && after.gone == before.gone && (before.decaying && !after.gone ==> after.decaying)
    && (after.decaying ==> before.decaying)
  }

  /**
   * Up to tick n: no item is forgotten or set back, none changes but those on the wheel, and what fired, could decay,
   * was due at tick n and fired then.
   */
  ghost predicate Kept(items0: map<int, Entry>, due0: map<int, int>, fired0: map<int, int>, items: map<int, Entry>,
                       due: map<int, int>, fired: map<int, int>, n: nat) {
    && (forall id {:trigger id in items} :: id in items0 ==>
          id in items && KeptItem(items0[id], items[id]) && (id !in due0 ==> items[id] == items0[id]))
    && (forall id {:trigger id in due} :: id in due0 ==> id in due && due[id] == due0[id])
    && (forall id {:trigger id in fired} :: id in fired0 ==> id in fired && fired[id] == fired0[id])
    && (forall id {:trigger id in fired} :: id in fired && id !in fired0 ==>
          fired[id] == n && id in due0 && due0[id] == n && id in items0 && !items0[id].gone && items0[id].decaying)
  }

  lemma KeptTwice(items0: map<int, Entry>, due0: map<int, int>, fired0: map<int, int>, items1: map<int, Entry>,
                  fired1: map<int, int>, items2: map<int, Entry>, fired2: map<int, int>, n: nat)
    requires Kept(items0, due0, fired0, items1, due0, fired1, n) && Kept(items1, due0, fired1, items2, due0, fired2, n)
    requires DueKnown(items0, due0)
    ensures Kept(items0, due0, fired0, items2, due0, fired2, n)
  {
    forall id {:trigger id in items2} | id in items0
      ensures id in items2 && KeptItem(items0[id], items2[id]) && (id !in due0 ==> items2[id] == items0[id])
    {
      assert id in items1;
    }
    forall id {:trigger id in fired2} | id in fired0 ensures id in fired2 && fired2[id] == fired0[id] {
      assert id in fired1;
    }
    forall id {:trigger id in fired2} | id in fired2 && id !in fired0
      ensures fired2[id] == n && id in due0 && due0[id] == n && id in items0 && !items0[id].gone && items0[id].decaying
    {
      if id !in fired1 {
        assert id in items1;
      }
    }
  }

  lemma KeptFire(items0: map<int, Entry>, due: map<int, int>, fired0: map<int, int>, id: int, item: Entry, n: nat)
    requires id in items0 && !items0[id].gone && items0[id].decaying && !item.gone && item.decaying
    requires item.kind == items0[id].kind
    requires id in due && due[id] == n && id !in fired0
    ensures Kept(items0, due, fired0, items0[id := item], due, fired0[id := n], n)
  {
  }

  /** A visit that fires nothing. */
  lemma KeptOne(items0: map<int, Entry>, due: map<int, int>, fired: map<int, int>, id: int, item: Entry,
                items: map<int, Entry>, n: int)
    requires id in items0 && id in due && KeptItem(items0[id], item) && items == items0[id := item] && n >= 0
    ensures Kept(items0, due, fired, items, due, fired, n)
  {
  }

  /** Placing items takes nothing back. */
  lemma KeptPlaced(items0: map<int, Entry>, due0: map<int, int>, fired0: map<int, int>, items: map<int, Entry>,
                   fired: map<int, int>, placed: seq<int>, due: map<int, int>, n: nat)
    requires Kept(items0, due0, fired0, items, due0, fired, n) && Scheduled(placed, items, due0, due, n)
    ensures Kept(items0, due0, fired0, items, due, fired, n)
  {
  }

  /** What the visits of tick n have come to so far. */
  ghost predicate Ticked(next: Becomes, s: State, heirs0: map<int, int>, items: map<int, Entry>, fired: map<int, int>,
                         heirs: map<int, int>, pending: seq<int>, n: nat) {
    && Kept(s.items, s.due, s.fired, items, s.due, fired, n)
    && VisitedTo(next, s.items, heirs0, s.pending, items, heirs, pending, s.due)
  }

  lemma TickedOn(next: Becomes, s: State, heirs0: map<int, int>, items1: map<int, Entry>, fired1: map<int, int>,
                 heirs1: map<int, int>, pending1: seq<int>, items2: map<int, Entry>, fired2: map<int, int>,
                 heirs2: map<int, int>, pending2: seq<int>, n: nat)
    requires Ticked(next, s, heirs0, items1, fired1, heirs1, pending1, n)
    requires Kept(items1, s.due, fired1, items2, s.due, fired2, n)
    requires VisitedTo(next, items1, heirs1, pending1, items2, heirs2, pending2, s.due)
    ensures Ticked(next, s, heirs0, items2, fired2, heirs2, pending2, n)
  {
    VisitedTwice(next, s.items, heirs0, s.pending, items1, heirs1, pending1, items2, heirs2, pending2, s.due);
    KeptTwice(s.items, s.due, s.fired, items1, fired1, items2, fired2, n);
  }

  lemma AllFired(s: State, s': State, last: nat, n: nat)
    requires Sound(s', last, n) && Kept(s.items, s.due, s.fired, s'.items, s'.due, s'.fired, n) && s'.due == s.due
    ensures FiredExactly(s, s'.fired, n)
  {
    forall id {:trigger id in s'.fired} | Ready(s, id) && s.due[id] == n ensures id in s'.fired {
      if id !in s'.fired {
        assert id in s'.items;
        DueLater(s', last, n, id);
      }
    }
  }

  /** The items that have fired anew are those that could decay and were due at tick n. */
  ghost predicate FiredExactly(s: State, fired: map<int, int>, n: nat) {
    forall id {:trigger id in fired} :: id !in s.fired ==> (id in fired <==> Ready(s, id) && s.due[id] == n)
  }

  // ---------- what fired items turn into ----------

  /** An item that has fired and turns into another one. */
  ghost predicate Leaves(next: Becomes, items: map<int, Entry>, fired: map<int, int>, id: int) {
    id in fired && id in items && next(items[id].kind).Some?
  }

  /** Each item that has fired has one heir, of the kind it turns into, if there is one; no two have the same. */
  ghost predicate Lineage(next: Becomes, items: map<int, Entry>, fired: map<int, int>, heirs: map<int, int>) {
    && (forall id {:trigger id in heirs} :: id in heirs <==> Leaves(next, items, fired, id))
    && (forall id {:trigger heirs[id]} :: id in heirs ==>
          heirs[id] in items && items[heirs[id]].kind == next(items[id].kind).value.0)
    && (forall id, other {:trigger heirs[id], heirs[other]} ::
          id in heirs && other in heirs && heirs[id] == heirs[other] ==> id == other)
  }

  ghost predicate HeirIs(heirs: map<int, int>, id: int, x: int) { id in heirs && heirs[id] == x }

  /** What an item of a kind turns into comes into being under the id x and is pending; nothing else happens. */
  ghost predicate Turned(next: Becomes, kind: int, x: int, items0: map<int, Entry>, pending0: seq<int>,
                         items: map<int, Entry>, pending: seq<int>) {
    if next(kind).None? then items == items0 && pending == pending0
    else items == items0[x := Entry(next(kind).value.0, next(kind).value.1, true, false)] && pending == [x] + pending0
  }

  lemma FiredKnown(s: State)
    requires OnTime(s)
    ensures forall y {:trigger y in s.fired} :: y in s.fired ==> y in s.items
  {
    forall y {:trigger y in s.fired} | y in s.fired ensures y in s.items {
      assert FiredWell(s, y);
    }
  }

  /** Every new item is the heir of an item that was due and has fired anew, as such an item starts out. */
  ghost predicate Inherited(next: Becomes, items0: map<int, Entry>, due: map<int, int>, heirs0: map<int, int>,
                            items: map<int, Entry>, heirs: map<int, int>) {
    && (forall id {:trigger id in heirs} :: id in heirs0 ==> id in heirs && heirs[id] == heirs0[id])
    && (forall id {:trigger heirs[id]} :: id in heirs && id !in heirs0 ==>
          HeirStarts(next, items0, due, items, id, heirs[id]))
    && (forall x {:trigger x in items} :: x in items && x !in items0 ==>
          exists id {:trigger HeirIs(heirs, id, x)} :: HeirIs(heirs, id, x) && id !in heirs0)
  }

  /** The heir is new, has the kind and the full duration of what the item turns into, and decays. */
  ghost predicate HeirStarts(next: Becomes, items0: map<int, Entry>, due: map<int, int>, items: map<int, Entry>,
                             id: int, x: int) {
    && id in due && id in items0 && next(items0[id].kind).Some? && x !in items0 && x in items
    && items[x] == Entry(next(items0[id].kind).value.0, next(items0[id].kind).value.1, true, false)
  }

  /** One item fires and turns into what it turns into. */
  lemma InheritOne(next: Becomes, items0: map<int, Entry>, due: map<int, int>, fired0: map<int, int>,
                   heirs0: map<int, int>, id: int, item: Entry, n: int, x: int, items: map<int, Entry>,
                   heirs: map<int, int>)
    requires Lineage(next, items0, fired0, heirs0) && id in items0 && id !in fired0 && item.kind == items0[id].kind
    requires x !in items0
    requires forall y {:trigger y in fired0} :: y in fired0 ==> y in items0
    requires if next(item.kind).None? then items == items0[id := item] && heirs == heirs0
             else items == items0[id := item][x := Entry(next(item.kind).value.0, next(item.kind).value.1, true, false)]
                  && heirs == heirs0[id := x]
    ensures Lineage(next, items, fired0[id := n], heirs)
    ensures id in due ==> Inherited(next, items0, due, heirs0, items, heirs)
  {
    assert id !in heirs0;
    forall y {:trigger y in heirs} ensures y in heirs <==> Leaves(next, items, fired0[id := n], y) {
      assert y in heirs0 <==> Leaves(next, items0, fired0, y);
    }
    if next(item.kind).Some? {
      assert HeirIs(heirs, id, x);
    }
  }

  /** A new item that has not fired has no heir. */
  lemma LineageGrows(next: Becomes, items0: map<int, Entry>, fired: map<int, int>, heirs: map<int, int>, id: int,
                     item: Entry)
    requires Lineage(next, items0, fired, heirs) && id !in items0 && id !in fired
    ensures Lineage(next, items0[id := item], fired, heirs)
  {
    forall y {:trigger y in heirs} ensures y in heirs <==> Leaves(next, items0[id := item], fired, y) {
      assert y in heirs <==> Leaves(next, items0, fired, y);
    }
  }

  /** Items that keep their kinds keep their heirs. */
  lemma InheritNone(next: Becomes, items0: map<int, Entry>, due: map<int, int>, fired: map<int, int>,
                    heirs: map<int, int>, id: int, item: Entry)
    requires Lineage(next, items0, fired, heirs) && id in items0 && item.kind == items0[id].kind
    ensures Lineage(next, items0[id := item], fired, heirs)
    ensures Inherited(next, items0, due, heirs, items0[id := item], heirs)
  {
    forall y {:trigger y in heirs} ensures y in heirs <==> Leaves(next, items0[id := item], fired, y) {
      assert y in heirs <==> Leaves(next, items0, fired, y);
    }
  }

  lemma InheritedTwice(next: Becomes, items0: map<int, Entry>, heirs0: map<int, int>, items1: map<int, Entry>,
                       heirs1: map<int, int>, items2: map<int, Entry>, heirs2: map<int, int>, due: map<int, int>)
    requires Inherited(next, items0, due, heirs0, items1, heirs1)
    requires Inherited(next, items1, due, heirs1, items2, heirs2)
    requires DueKnown(items0, due) && SameKinds(items0, items1, due) && SameKinds(items1, items2, due)
    ensures Inherited(next, items0, due, heirs0, items2, heirs2)
  {
    forall id {:trigger heirs2[id]} | id in heirs2 && id !in heirs0
      ensures HeirStarts(next, items0, due, items2, id, heirs2[id])
    {
      if id in heirs1 {
        assert heirs2[id] == heirs1[id] && HeirStarts(next, items0, due, items1, id, heirs1[id]);
      } else {
        assert HeirStarts(next, items1, due, items2, id, heirs2[id]);
        assert heirs2[id] !in items0;
      }
    }
    forall x {:trigger x in items2} | x in items2 && x !in items0
      ensures exists id {:trigger HeirIs(heirs2, id, x)} :: HeirIs(heirs2, id, x) && id !in heirs0
    {
      if x in items1 {
        var id :| HeirIs(heirs1, id, x) && id !in heirs0;
        assert HeirIs(heirs2, id, x);
      } else {
        var id :| HeirIs(heirs2, id, x) && id !in heirs1;
        assert id !in heirs0;
      }
    }
  }

  /** Known items keep their kinds, and all else about them when they are not on the wheel. */
  ghost predicate SameKinds(items0: map<int, Entry>, items: map<int, Entry>, due: map<int, int>) {
    forall id {:trigger id in items} :: id in items0 ==>
      id in items && items[id].kind == items0[id].kind && (id !in due ==> items[id] == items0[id])
  }

  /** What was pending still is, and so are all new items and nothing else. */
  ghost predicate Queued(pending0: seq<int>, items0: map<int, Entry>, pending: seq<int>, items: map<int, Entry>) {
    && (forall x {:trigger x in pending} :: x in pending0 ==> x in pending)
    && (forall x {:trigger x in pending} :: x in pending ==> x in pending0 || (x in items && x !in items0))
    && (forall x {:trigger x in items} :: x in items && x !in items0 ==> x in pending)
  }

  /** What was pending, and what is new, is due as its duration says, counted from this tick, and nothing else. */
  ghost predicate NewlyDue(items0: map<int, Entry>, pending0: seq<int>, due0: map<int, int>, items: map<int, Entry>,
                           due: map<int, int>, tick: nat) {
    && (forall x {:trigger x in due} :: x in due <==> x in due0 || x in pending0 || (x in items && x !in items0))
    && (forall x {:trigger x in due} :: x in due && x !in due0 ==> ScheduledAt(x, items, due, tick))
  }

  lemma QueuedDue(items0: map<int, Entry>, pending0: seq<int>, due0: map<int, int>, items: map<int, Entry>,
                  pending: seq<int>, due: map<int, int>, tick: nat)
    requires Queued(pending0, items0, pending, items) && Scheduled(pending, items, due0, due, tick)
    ensures NewlyDue(items0, pending0, due0, items, due, tick)
  {
    forall x {:trigger x in due} | x in due && x !in due0 ensures ScheduledAt(x, items, due, tick) {
      var k :| 0 <= k < |pending| && pending[k] == x;
      assert ScheduledAt(pending[k], items, due, tick);
    }
    forall x {:trigger x in due} ensures x in due <==> x in due0 || x in pending0 || (x in items && x !in items0) {
      assert x in pending <==> x in pending0 || (x in items && x !in items0);
    }
  }

  ghost predicate VisitedTo(next: Becomes, items0: map<int, Entry>, heirs0: map<int, int>, pending0: seq<int>,
                            items: map<int, Entry>, heirs: map<int, int>, pending: seq<int>, due: map<int, int>) {
    && Inherited(next, items0, due, heirs0, items, heirs) && Queued(pending0, items0, pending, items)
    && SameKinds(items0, items, due) && DueKnown(items0, due)
  }

  /** A visit that only changes the visited item. */
  lemma VisitedOne(next: Becomes, items0: map<int, Entry>, due: map<int, int>, fired: map<int, int>,
                   heirs: map<int, int>, pending: seq<int>, id: int, item: Entry, items: map<int, Entry>)
    requires Lineage(next, items0, fired, heirs) && id in items0 && id in due && item.kind == items0[id].kind
    requires DueKnown(items0, due) && items == items0[id := item]
    ensures Lineage(next, items, fired, heirs) && VisitedTo(next, items0, heirs, pending, items, heirs, pending, due)
  {
    InheritNone(next, items0, due, fired, heirs, id, item);
  }

  lemma VisitedTwice(next: Becomes, items0: map<int, Entry>, heirs0: map<int, int>, pending0: seq<int>,
                     items1: map<int, Entry>, heirs1: map<int, int>, pending1: seq<int>, items2: map<int, Entry>,
                     heirs2: map<int, int>, pending2: seq<int>, due: map<int, int>)
    requires VisitedTo(next, items0, heirs0, pending0, items1, heirs1, pending1, due)
    requires VisitedTo(next, items1, heirs1, pending1, items2, heirs2, pending2, due)
    ensures VisitedTo(next, items0, heirs0, pending0, items2, heirs2, pending2, due)
  {
    InheritedTwice(next, items0, heirs0, items1, heirs1, items2, heirs2, due);
    forall id {:trigger id in items2} | id in items0
      ensures id in items2 && items2[id].kind == items0[id].kind && (id !in due ==> items2[id] == items0[id])
    {
      assert id in items1;
    }
    forall x {:trigger x in pending2} ensures x in pending0 ==> x in pending2
      ensures x in pending2 ==> x in pending0 || (x in items2 && x !in items0)
    {
      assert x in pending0 ==> x in pending1;
      assert x in items1 ==> x in items2;
      assert x in items0 ==> x in items1;
    }
    forall x {:trigger x in items2} | x in items2 && x !in items0 ensures x in pending2 {
      assert x in items1 ==> x in pending1;
    }
  }

  /** These items, and no others, have been given the tick at which they are due. */
  ghost predicate Scheduled(placed: seq<int>, items: map<int, Entry>, due0: map<int, int>, due: map<int, int>,
                            tick: nat)
  {
    && (forall id {:trigger id in due} :: id in due <==> id in due0 || id in placed)
    && (forall id {:trigger id in due0} :: id in due0 ==> due[id] == due0[id])
    && (forall k {:trigger placed[k]} :: 0 <= k < |placed| ==> ScheduledAt(placed[k], items, due, tick))
  }

  ghost predicate ScheduledAt(id: int, items: map<int, Entry>, due: map<int, int>, tick: nat) {
    id in items && items[id].duration > 0 && id in due && due[id] == tick + FirstDue(items[id].duration)
  }

  lemma ScheduledOne(all: seq<int>, k: nat, items: map<int, Entry>, due0: map<int, int>, due1: map<int, int>,
                     due2: map<int, int>, tick: nat, id: int)
    requires k < |all| && all[k] == id && Scheduled(all[..k], items, due0, due1, tick)
    requires id in items && items[id].duration > 0 && id !in due1
    requires due2 == due1[id := tick + FirstDue(items[id].duration)]
    ensures Scheduled(all[..k + 1], items, due0, due2, tick)
  {
    var placed, before := all[..k + 1], all[..k];
    assert placed == before + [id];
    forall j {:trigger placed[j]} | 0 <= j < |placed| ensures ScheduledAt(placed[j], items, due2, tick) {
      if j < k {
        assert placed[j] == before[j] && ScheduledAt(before[j], items, due1, tick);
      }
    }
  }

  class DecayWheel {
    const decayItems: array<seq<int>>
    var toDecayItems: seq<int>
    var lastBucket: nat
    var items: map<int, Entry>
    var nextId: int
    /** The ticks so far, the ticks at which placed items are due, and those at which items fired. */
    ghost var tick: nat
    ghost var due: map<int, int>
    ghost var fired: map<int, int>
    /** The item that an item turned into when it fired. */
    ghost var heirs: map<int, int>

    ghost function View(): State
      reads this, decayItems
    {
      State(decayItems[..], toDecayItems, items, due, fired)
    }

    ghost predicate Known()
      reads this
    {
      (forall id {:trigger id in items} :: id in items ==> id < nextId)
      && (forall id {:trigger id in due} :: id in due ==> id in items)
    }

    ghost predicate Valid(next: Becomes)
      reads this, decayItems
    {
      && decayItems.Length == BUCKETS && Sound(View(), lastBucket, tick) && Known() && Lasting(next)
      && Lineage(next, items, fired, heirs)
    }

    constructor (next: Becomes)
      requires Lasting(next)
      ensures Valid(next) && fresh(decayItems) && tick == 0 && items == map[] && fired == map[]
    {
      decayItems := new seq<int>[BUCKETS](_ => []);
      toDecayItems, lastBucket, items, nextId := [], 0, map[], 0;
      tick, due, fired, heirs := 0, map[], map[], map[];
      new;
      forall id {:trigger Places(View().buckets, View().pending, id)}
        ensures Places(View().buckets, View().pending, id) == 0
      {
        NowherePlaced(View().buckets, id);
      }
    }

    /** An item comes into being; it does not decay yet. */
    method NewItem(next: Becomes, kind: int, duration: int) returns (id: int)
      requires Valid(next)
      modifies this`items, this`nextId
      ensures Valid(next) && id !in old(items) && items == old(items)[id := Entry(kind, duration, false, false)]
    {
      id := nextId;
      ghost var s := View();
      assert id !in items;
      assert FiredWell(s, id);
      items, nextId := items[id := Entry(kind, duration, false, false)], nextId + 1;
      Grown(s, lastBucket, tick, id, items[id], View());
      LineageGrows(next, s.items, fired, heirs, id, items[id]);
    }

    /** An item leaves the world, or becomes one that cannot decay. */
    method Remove(next: Becomes, id: int)
      requires Valid(next) && id in items
      modifies this`items
      ensures Valid(next) && items == old(items)[id := old(items)[id].(gone := true)]
    {
      ghost var s := View();
      items := items[id := items[id].(gone := true)];
      Grown(s, lastBucket, tick, id, items[id], View());
      InheritNone(next, s.items, due, fired, heirs, id, items[id]);
    }

    /** `startDecay`, between ticks. */
    method StartDecay(next: Becomes, id: int)
      requires Valid(next) && id in items && id !in fired && id !in due
      modifies this`items, this`nextId, this`toDecayItems, this`fired, this`heirs
      ensures Valid(next)
      ensures old(items)[id].gone || old(items)[id].decaying ==>
        items == old(items) && toDecayItems == old(toDecayItems) && fired == old(fired)
      ensures !old(items)[id].gone && !old(items)[id].decaying && old(items)[id].duration > 0 ==>
        toDecayItems == [id] + old(toDecayItems) && items == old(items)[id := old(items)[id].(decaying := true)]
        && fired == old(fired)
      ensures !old(items)[id].gone && !old(items)[id].decaying && old(items)[id].duration <= 0 ==>
        fired == old(fired)[id := tick]
        && Turned(next, old(items)[id].kind, old(nextId), old(items), old(toDecayItems), items, toDecayItems)
    {
      var item := items[id];
      if item.gone || item.decaying {
        return;
      }
      ghost var s, heirs0 := View(), heirs;
      OpenVisit(s, lastBucket, tick);
      if item.duration > 0 {
        items, toDecayItems := items[id := item.(decaying := true)], [id] + toDecayItems;
        Join(s, lastBucket, tick, |s.buckets[lastBucket]|, id, items[id], View());
        InheritNone(next, s.items, due, fired, heirs, id, items[id]);
      } else {
        fired := fired[id := tick];
        FiredAtOnce(s, lastBucket, tick, id, View());
        OpenVisit(View(), lastBucket, tick);
        FiredKnown(s);
        ghost var x := nextId;
        Become(next, id, item.kind, lastBucket, tick, |View().buckets[lastBucket]|);
        assert s.items[id := item] == s.items;
        InheritOne(next, s.items, due, s.fired, heirs0, id, item, tick, x, items, heirs);
      }
      EndVisit(View(), lastBucket, tick);
    }

    /** The rest of `internalDecayItem`: the item an item turns into starts to decay in its turn. */
    method Become(next: Becomes, ghost from: int, kind: int, ghost bucket: nat, ghost n: nat, ghost i: nat)
      requires decayItems.Length == BUCKETS && Visiting(View(), bucket, n, i) && Known() && Lasting(next)
      modifies this`items, this`nextId, this`toDecayItems, this`heirs
      ensures Visiting(View(), bucket, n, i) && Known() && old(nextId) !in old(items)
      ensures Turned(next, kind, old(nextId), old(items), old(toDecayItems), items, toDecayItems)
      ensures heirs == if next(kind).Some? then old(heirs)[from := old(nextId)] else old(heirs)
    {
      if next(kind).Some? {
        ghost var s := View();
        var (kind', duration) := next(kind).value;
        var id := nextId;
        assert FiredWell(s, id);
        assert id !in items && id !in due && id !in fired;
        nextId := nextId + 1;
        items, toDecayItems := items[id := Entry(kind', duration, true, false)], [id] + toDecayItems;
        heirs := heirs[from := id];
        Join(s, bucket, n, i, id, items[id], View());
      }
    }

    /** The decaying half of `cleanup`: pending items go to the wheel. */
    method Cleanup(next: Becomes)
      requires Valid(next)
      modifies this`toDecayItems, this`due, decayItems
      ensures Valid(next) && toDecayItems == []
      ensures Scheduled(old(toDecayItems), items, old(due), due, tick)
    {
      ghost var k, all, due0 := 0, toDecayItems, due;
      while toDecayItems != []
        invariant Valid(next) && k <= |all| && toDecayItems == all[k..]
        invariant Scheduled(all[..k], items, due0, due, tick)
      {
        ghost var id, due1 := toDecayItems[0], due;
        PlaceFirst(next);
        ScheduledOne(all, k, items, due0, due1, due, tick, id);
        k := k + 1;
      }
      assert all[..k] == all;
    }

    /** The first pending item is placed. */
    method PlaceFirst(next: Becomes)
      requires Valid(next) && toDecayItems != []
      modifies this`toDecayItems, this`due, decayItems
      ensures Valid(next) && toDecayItems == old(toDecayItems)[1..]
      ensures old(toDecayItems)[0] in items && items[old(toDecayItems)[0]].duration > 0
      ensures old(toDecayItems)[0] !in old(due)
      ensures due == old(due)[old(toDecayItems)[0] := tick + FirstDue(items[old(toDecayItems)[0]].duration)]
    {
      ghost var s := View();
      var id := toDecayItems[0];
      assert Unplaced(s, s.pending[0]);
      var dur := items[id].duration;
      var b := if dur >= ROUND then lastBucket else (lastBucket + 1 + dur / 1000) % BUCKETS;
      assert dur < ROUND ==> dur / 1000 == 0;
      decayItems[b] := decayItems[b] + [id];
      toDecayItems := toDecayItems[1..];
      due := due[id := tick + FirstDue(dur)];
      Place(s, lastBucket, tick, id, b, View());
    }

    /**
     * `checkDecay`: one tick. Exactly the items that are due, and can still decay, fire; each turns into one new item
     * or into nothing, and what is new or was pending is placed.
     */
    method CheckDecay(next: Becomes)
      requires Valid(next)
      modifies this, decayItems
      ensures Valid(next) && tick == old(tick) + 1 && toDecayItems == []
      ensures Kept(old(items), old(due), old(fired), items, due, fired, tick)
      ensures FiredExactly(old(View()), fired, tick)
      ensures Inherited(next, old(items), old(due), old(heirs), items, heirs)
      ensures NewlyDue(old(items), old(toDecayItems), old(due), items, due, tick)
    {
      ghost var s := View();
      VisitAll(next);
      ghost var pending := toDecayItems;
      Cleanup(next);
      QueuedDue(s.items, s.pending, s.due, items, pending, due, tick);
      KeptPlaced(s.items, s.due, s.fired, items, fired, pending, due, tick);
    }

    /** The visits of a tick. */
    method VisitAll(next: Becomes)
      requires Valid(next)
      modifies this, decayItems
      ensures Valid(next) && tick == old(tick) + 1 && due == old(due)
      ensures Kept(old(items), due, old(fired), items, due, fired, tick)
      ensures FiredExactly(old(View()), fired, tick)
      ensures VisitedTo(next, old(items), old(heirs), old(toDecayItems), items, heirs, toDecayItems, due)
    {
      var bucket := (lastBucket + 1) % BUCKETS;
      ghost var n, s, heirs0 := tick + 1, View(), heirs;
      StartVisit(s, lastBucket, tick, bucket);
      var i := 0;
      while i < |decayItems[bucket]|
        invariant decayItems.Length == BUCKETS && 0 <= i <= |decayItems[bucket]| && tick + 1 == n
        invariant Visiting(View(), bucket, n, i) && Known() && Lasting(next)
        invariant Lineage(next, items, fired, heirs) && due == s.due
        invariant Ticked(next, s, heirs0, items, fired, heirs, toDecayItems, n)
        decreases |decayItems[bucket]| - i
      {
        ghost var items1, fired1, heirs1, pending1 := items, fired, heirs, toDecayItems;
        i := Visit(next, bucket, i, n);
        TickedOn(next, s, heirs0, items1, fired1, heirs1, pending1, items, fired, heirs, toDecayItems, n);
      }
      EndVisit(View(), bucket, n);
      lastBucket := bucket;
      tick := n;
      AllFired(s, View(), bucket, n);
    }

    /** What visits do to the family of the items. */
    ghost predicate Visited(next: Becomes, items0: map<int, Entry>, heirs0: map<int, int>, pending0: seq<int>,
                            due: map<int, int>)
      reads this
    {
      && Lineage(next, items, fired, heirs)
      && VisitedTo(next, items0, heirs0, pending0, items, heirs, toDecayItems, due)
    }

    /** The visited item fires and leaves the wheel. */
    method Fire(next: Becomes, bucket: nat, i: nat, item: Entry, ghost n: nat)
      requires decayItems.Length == BUCKETS && bucket < BUCKETS && i < |decayItems[bucket]|
      requires Visiting(View(), bucket, n, i) && Known() && Lasting(next) && Lineage(next, items, fired, heirs)
      requires decayItems[bucket][i] in items && item.decaying && !item.gone && !items[decayItems[bucket][i]].gone
      requires item.kind == items[decayItems[bucket][i]].kind
      requires items[decayItems[bucket][i]].duration > 0 && Extra(items[decayItems[bucket][i]].duration) == 0
      modifies this`items, this`nextId, this`toDecayItems, this`fired, this`heirs, decayItems
      ensures Visiting(View(), bucket, n, i) && Known() && |decayItems[bucket]| < |old(decayItems[bucket])|
      ensures Kept(old(items), due, old(fired), items, due, fired, n)
      ensures Visited(next, old(items), old(heirs), old(toDecayItems), due)
    {
      ghost var s, heirs0, x := View(), heirs, nextId;
      FiredKnown(s);
      assert x !in items;
      var list := decayItems[bucket];
      var id := list[i];
      DueAt(s, bucket, n, i, bucket, i);
      items := items[id := item];
      decayItems[bucket] := list[..i] + list[i + 1..];
      fired := fired[id := n];
      Leave(s, bucket, n, i, id, item, fired, s.buckets[bucket := list[..i] + list[i + 1..]], View());
      KeptFire(s.items, due, s.fired, id, item, n);
      ghost var left := items;
      Become(next, id, item.kind, bucket, n, i);
      assert Kept(left, due, fired, items, due, fired, n);
      KeptTwice(s.items, due, s.fired, left, fired, items, fired, n);
      InheritOne(next, s.items, due, s.fired, heirs0, id, item, n, x, items, heirs);
    }

    /** The visited item stops decaying and leaves the wheel. */
    method Drop(ghost next: Becomes, bucket: nat, i: nat, ghost n: nat)
      requires decayItems.Length == BUCKETS && bucket < BUCKETS && i < |decayItems[bucket]|
      requires Visiting(View(), bucket, n, i) && Known() && Lineage(next, items, fired, heirs)
      requires decayItems[bucket][i] in items && items[decayItems[bucket][i]].gone
      modifies this`items, decayItems
      ensures Visiting(View(), bucket, n, i) && Known() && |decayItems[bucket]| < |old(decayItems[bucket])|
      ensures Kept(old(items), due, fired, items, due, fired, n)
      ensures Visited(next, old(items), heirs, toDecayItems, due)
    {
      ghost var s := View();
      DueAt(s, bucket, n, i, bucket, i);
      var list := decayItems[bucket];
      var id := list[i];
      items := items[id := items[id].(decaying := false)];
      decayItems[bucket] := list[..i] + list[i + 1..];
      Leave(s, bucket, n, i, id, items[id], fired, s.buckets[bucket := list[..i] + list[i + 1..]], View());
      VisitedOne(next, s.items, due, fired, heirs, toDecayItems, id, items[id], items);
    }

    /** The visited item goes to another bucket. */
    method Rebucket(ghost next: Becomes, bucket: nat, i: nat, newBucket: nat, item: Entry, ghost n: nat)
      requires decayItems.Length == BUCKETS && bucket < BUCKETS && i < |decayItems[bucket]|
      requires Visiting(View(), bucket, n, i) && Known() && newBucket == (bucket + 1) % BUCKETS
      requires Lineage(next, items, fired, heirs)
      requires decayItems[bucket][i] in items
      requires item == items[decayItems[bucket][i]].(duration := items[decayItems[bucket][i]].duration - ROUND)
      requires ROUND - HALF_INTERVAL <= item.duration < ROUND
      modifies this`items, decayItems
      ensures Visiting(View(), bucket, n, i) && Known() && |decayItems[bucket]| < |old(decayItems[bucket])|
      ensures Kept(old(items), due, fired, items, due, fired, n)
      ensures Visited(next, old(items), heirs, toDecayItems, due)
    {
      ghost var s := View();
      DueAt(s, bucket, n, i, bucket, i);
      var list := decayItems[bucket];
      var id := list[i];
      ghost var without := s.buckets[bucket := list[..i] + list[i + 1..]];
      items := items[id := item];
      decayItems[bucket] := list[..i] + list[i + 1..];
      decayItems[newBucket] := decayItems[newBucket] + [id];
      ghost var buckets := without[newBucket := s.buckets[newBucket] + [id]];
      assert View() == State(buckets, s.pending, s.items[id := item], s.due, s.fired);
      Move(s, bucket, n, i, id, newBucket, item, without, buckets, View());
      VisitedOne(next, s.items, due, fired, heirs, toDecayItems, id, item, items);
      KeptOne(s.items, due, fired, id, item, items, n);
    }

    /** One item of the visited bucket. */
    method Visit(next: Becomes, bucket: nat, i: nat, ghost n: nat) returns (i': nat)
      requires decayItems.Length == BUCKETS && bucket < BUCKETS && i < |decayItems[bucket]|
      requires Visiting(View(), bucket, n, i) && Known() && Lasting(next) && Lineage(next, items, fired, heirs)
      modifies this`items, this`nextId, this`toDecayItems, this`fired, this`heirs, decayItems
      ensures Visiting(View(), bucket, n, i') && Known() && i' <= |decayItems[bucket]|
      ensures |decayItems[bucket]| - i' < |old(decayItems[bucket])| - i
      ensures Kept(old(items), due, old(fired), items, due, fired, n)
      ensures Visited(next, old(items), old(heirs), old(toDecayItems), due)
    {
      ghost var s := View();
      var id := decayItems[bucket][i];
      DueAt(s, bucket, n, i, bucket, i);
      var item := items[id];
      i' := i;
      if item.gone {
        Drop(next, bucket, i, n);
        return;
      }
      var decreaseTime := if item.duration < ROUND then item.duration else ROUND;
      var duration := item.duration - decreaseTime;
      if duration <= 0 {
        Fire(next, bucket, i, item.(duration := duration), n);
      } else if duration < ROUND {
        var newBucket := (bucket + (duration + HALF_INTERVAL) / 1000) % BUCKETS;
        if newBucket == bucket {
          Fire(next, bucket, i, item.(duration := duration), n);
        } else {
          Rebucket(next, bucket, i, newBucket, item.(duration := duration), n);
        }
      } else {
        items := items[id := item.(duration := duration)];
        Stay(s, bucket, n, i, items[id], View());
        VisitedOne(next, s.items, due, fired, heirs, toDecayItems, id, items[id], items);
        i' := i + 1;
      }
    }

    /** Any number of ticks: an item on the wheel that can decay fires at the tick it is due, and not before. */
    method Run(next: Becomes, ticks: nat, ghost id: int)
      requires Valid(next) && Ready(View(), id)
      modifies this, decayItems
      ensures Valid(next) && tick == old(tick) + ticks
      ensures id in fired <==> tick >= old(due)[id]
      ensures id in fired ==> fired[id] == old(due)[id]
    {
      DueLater(View(), lastBucket, tick, id);
      var t := 0;
      while t < ticks
        invariant 0 <= t <= ticks && Valid(next) && tick == old(tick) + t
        invariant id in items && id in due && due[id] == old(due)[id] && !items[id].gone
        invariant id in fired <==> tick >= old(due)[id]
        invariant if id in fired then fired[id] == old(due)[id] else items[id].decaying
      {
        CheckDecay(next);
        t := t + 1;
      }
    }

    /** From the pending list: an item fires at the tick that its duration says, counted from its placing. */
    method RunPending(next: Becomes, ticks: nat, ghost id: int)
      requires Valid(next) && id in toDecayItems && id in items && !items[id].gone && items[id].duration > 0
      modifies this, decayItems
      ensures Valid(next) && tick == old(tick) + ticks
      ensures id in fired <==> ticks >= FirstDue(old(items)[id].duration)
      ensures id in fired ==> fired[id] == old(tick) + FirstDue(old(items)[id].duration)
    {
      ghost var k :| 0 <= k < |toDecayItems| && toDecayItems[k] == id;
      assert Unplaced(View(), View().pending[k]);
      Cleanup(next);
      assert ScheduledAt(old(toDecayItems)[k], items, due, tick);
      Run(next, ticks, id);
    }
  }

  /** A new item, or a mark on an item, changes nothing on the wheel. */
  lemma Grown(s: State, last: nat, tick: nat, id: int, e: Entry, s': State)
    requires Sound(s, last, tick) && s' == s.(items := s.items[id := e])
    requires if id in s.items then e == s.items[id].(gone := true) else !e.decaying
    ensures Sound(s', last, tick)
  {
    assert Places(s.buckets, s.pending, id) <= 1;
    StillOnePlace(s, s', id, e);
    Untouched(s, last, tick, s');
  }

  /** Pending items stay pending, due ones due, and what fired has fired as before. */
  lemma Untouched(s: State, last: nat, tick: nat, s': State)
    requires Sound(s, last, tick) && OnePlace(s') && s'.buckets == s.buckets && s'.pending == s.pending
    requires s'.due == s.due
    requires forall id {:trigger Pending(s', id)} :: Pending(s, id) ==>
      Pending(s', id) && s'.items[id].duration == s.items[id].duration
    requires forall id {:trigger FiredWell(s', id)} :: FiredWell(s, id) ==> FiredWell(s', id)
    ensures Sound(s', last, tick)
  {
    OpenVisit(s, last, tick);
    forall j {:trigger s'.pending[j]} | 0 <= j < |s'.pending| ensures Unplaced(s', s'.pending[j]) {
      assert Unplaced(s, s.pending[j]) && Pending(s', s.pending[j]);
    }
    forall x {:trigger FiredWell(s', x)} ensures FiredWell(s', x) {
      assert FiredWell(s, x);
    }
    var i := |s.buckets[last]|;
    forall b, j {:trigger s'.buckets[b][j]} | 0 <= b < BUCKETS && 0 <= j < |s'.buckets[b]|
      ensures Due(s', s'.buckets[b][j], tick + if b != last then Distance(last, b) else if j < i then BUCKETS else 0)
    {
      DueAt(s, last, tick, i, b, j);
      assert Pending(s', s.buckets[b][j]);
    }
    Gather(s', last, tick, i);
    EndVisit(s', last, tick);
  }

  /** Between ticks the wheel stands as after the visit of the last bucket. */
  lemma OpenVisit(s: State, last: nat, tick: nat)
    requires Sound(s, last, tick)
    ensures Visiting(s, last, tick, |s.buckets[last]|)
  {
    assert s.buckets[last][..|s.buckets[last]|] == s.buckets[last];
    assert BucketDue(s, last, tick, last) && tick + Distance(last, last) == tick + BUCKETS;
    assert s.buckets[last][|s.buckets[last]|..] == [];
  }

  /** An item without any duration fires without having been placed. */
  lemma FiredAtOnce(s: State, last: nat, tick: nat, id: int, s': State)
    requires Sound(s, last, tick) && id in s.items && !s.items[id].decaying && id !in s.due && id !in s.fired
    requires s' == s.(fired := s.fired[id := tick])
    ensures Sound(s', last, tick)
  {
    forall x {:trigger Places(s'.buckets, s'.pending, x)}
      ensures Places(s'.buckets, s'.pending, x) <= 1
      ensures x in s'.items && s'.items[x].decaying && x !in s'.fired ==> Places(s'.buckets, s'.pending, x) == 1
    {
      assert Places(s.buckets, s.pending, x) <= 1;
    }
    Untouched(s, last, tick, s');
  }
}
