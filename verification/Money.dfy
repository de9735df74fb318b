/** Paying with stacks of coins and notes, and making change. */
module Money {
  import opened Options
  import opened Words

  datatype Note = Coin | Dollar | Hundred | TenThousand | Million

  /** A stack of coins or notes. */
  datatype Stack = Stack(note: Note, count: nat)

  /** What lies in a container: money, another container, or something else. */
  datatype Thing = Pile(stack: Stack) | Bag(items: seq<Thing>) | Other

  const DOLLAR := 100
  const HUNDRED := 1_0000
  const TEN_THOUSAND := 100_0000
  const MILLION := 1_0000_0000

  /** What one coin or note is worth. */
  function Unit(n: Note): nat {
    match n
    case Coin => 1
    case Dollar => DOLLAR
    case Hundred => HUNDRED
    case TenThousand => TEN_THOUSAND
    case Million => MILLION
  }

  /** A number of units, as `getWorth` multiplies them. */
  function Times(n: Note, count: int): int {
    match n
    case Coin => count
    case Dollar => count * DOLLAR
    case Hundred => count * HUNDRED
    case TenThousand => count * TEN_THOUSAND
    case Million => count * MILLION
  }

  function StackWorth(s: Stack): nat { Times(s.note, s.count) }

  function Worth(stacks: seq<Stack>): nat { if stacks == [] then 0 else StackWorth(stacks[0]) + Worth(stacks[1..]) }

  ghost predicate Coins(stacks: seq<Stack>) {
    forall i {:trigger stacks[i]} :: 0 <= i < |stacks| ==> stacks[i].count >= 1
  }

  lemma {:induction false} WorthConcat(a: seq<Stack>, b: seq<Stack>)
    ensures Worth(a + b) == Worth(a) + Worth(b)
  {
    if a == [] {
      assert a + b == b;
    } else {
      assert (a + b)[1..] == a[1..] + b;
      WorthConcat(a[1..], b);
    }
  }

  lemma WorthOne(s: Stack)
    ensures Worth([s]) == StackWorth(s)
  {
    assert [s][1..] == [];
  }

  // ---------- the money map ----------

  predicate Ascending(s: seq<Stack>) { forall i, j :: 0 <= i < j < |s| ==> StackWorth(s[i]) <= StackWorth(s[j]) }

  /** The stacks of one worth, in their order. */
  function OfWorth(s: seq<Stack>, worth: nat): seq<Stack> {
    if s == [] then [] else (if StackWorth(s[0]) == worth then [s[0]] else []) + OfWorth(s[1..], worth)
  }

  lemma {:induction false} OfWorthConcat(a: seq<Stack>, b: seq<Stack>, worth: nat)
    ensures OfWorth(a + b, worth) == OfWorth(a, worth) + OfWorth(b, worth)
  {
    if a == [] {
      assert a + b == b;
    } else {
      assert (a + b)[0] == a[0] && (a + b)[1..] == a[1..] + b;
      OfWorthConcat(a[1..], b, worth);
      var first := if StackWorth(a[0]) == worth then [a[0]] else [];
      var more, last := OfWorth(a[1..], worth), OfWorth(b, worth);
      assert OfWorth(a + b, worth) == first + (more + last) == (first + more) + last;
    }
  }

  lemma {:induction false} OfWorthNone(s: seq<Stack>, worth: nat)
    requires forall i :: 0 <= i < |s| ==> StackWorth(s[i]) != worth
    ensures OfWorth(s, worth) == []
  {
    if s != [] {
      OfWorthNone(s[1..], worth);
    }
  }

  /** In r the stacks of s are sorted, and those of the same worth are in the order of s. */
  ghost predicate SortedFrom(r: seq<Stack>, s: seq<Stack>) {
    Ascending(r) && forall w {:trigger OfWorth(r, w)} :: OfWorth(r, w) == OfWorth(s, w)
  }

  /** `emplace` of a multimap: behind the entries with the same key. */
  method Emplace(moneyMap: seq<Stack>, item: Stack) returns (r: seq<Stack>)
    requires Ascending(moneyMap)
    ensures Ascending(r) && multiset(r) == multiset(moneyMap) + multiset{item}
    ensures Worth(r) == Worth(moneyMap) + StackWorth(item)
    ensures forall w {:trigger OfWorth(r, w)} :: OfWorth(r, w) == OfWorth(moneyMap, w) + OfWorth([item], w)
  {
    var i := |moneyMap|;
    while i > 0 && StackWorth(moneyMap[i - 1]) > StackWorth(item)
      invariant 0 <= i <= |moneyMap|
      invariant forall j :: i <= j < |moneyMap| ==> StackWorth(moneyMap[j]) > StackWorth(item)
    {
      i := i - 1;
    }
    r := moneyMap[..i] + [item] + moneyMap[i..];
    InsertedInOrder(moneyMap, i, item, r);
    InsertedWorth(moneyMap, i, item, r);
    forall w {:trigger OfWorth(r, w)} ensures OfWorth(r, w) == OfWorth(moneyMap, w) + OfWorth([item], w) {
      InsertedLast(moneyMap, i, item, r, w);
    }
  }

  /** Behind the stacks of its worth, and in front of those worth more. */
  lemma InsertedLast(s: seq<Stack>, i: nat, item: Stack, r: seq<Stack>, worth: nat)
    requires i <= |s| && r == s[..i] + [item] + s[i..]
    requires forall j :: i <= j < |s| ==> StackWorth(s[j]) > StackWorth(item)
    ensures OfWorth(r, worth) == OfWorth(s, worth) + OfWorth([item], worth)
  {
    var front, back := s[..i], s[i..];
    assert s == front + back;
    OfWorthConcat(front + [item], back, worth);
    OfWorthConcat(front, [item], worth);
    OfWorthConcat(front, back, worth);
    OneInFront(front, back, item, worth);
  }

  lemma OneInFront(front: seq<Stack>, back: seq<Stack>, item: Stack, worth: nat)
    requires forall j :: 0 <= j < |back| ==> StackWorth(back[j]) > StackWorth(item)
    ensures (OfWorth(front, worth) + OfWorth([item], worth)) + OfWorth(back, worth) ==
      (OfWorth(front, worth) + OfWorth(back, worth)) + OfWorth([item], worth)
  {
    if worth == StackWorth(item) {
      OfWorthNone(back, worth);
    } else {
      OfWorthNone([item], worth);
    }
  }

  lemma InsertedInOrder(s: seq<Stack>, i: nat, item: Stack, r: seq<Stack>)
    requires Ascending(s) && i <= |s| && r == s[..i] + [item] + s[i..]
    requires i > 0 ==> StackWorth(s[i - 1]) <= StackWorth(item)
    requires forall j :: i <= j < |s| ==> StackWorth(s[j]) > StackWorth(item)
    ensures Ascending(r)
  {
    forall j, k | 0 <= j < k < |r| ensures StackWorth(r[j]) <= StackWorth(r[k]) {
      var j', k' := if j < i then j else j - 1, if k < i then k else k - 1;
      assert j != i ==> r[j] == s[j'];
      assert k != i ==> r[k] == s[k'];
      if k == i {
        assert j == i - 1 || StackWorth(s[j]) <= StackWorth(s[i - 1]);
      }
    }
  }

  lemma InsertedWorth(s: seq<Stack>, i: nat, item: Stack, r: seq<Stack>)
    requires i <= |s| && r == s[..i] + [item] + s[i..]
    ensures multiset(r) == multiset(s) + multiset{item} && Worth(r) == Worth(s) + StackWorth(item)
  {
    assert s == s[..i] + s[i..];
    WorthConcat(s[..i], s[i..]);
    WorthConcat(s[..i] + [item], s[i..]);
    WorthConcat(s[..i], [item]);
    WorthOne(item);
  }

  // ---------- gathering from nested containers ----------

  /** The stacks of money at any depth. */
  function Piles(ts: seq<Thing>): multiset<Stack> {
    if ts == [] then multiset{}
    else (match ts[0]
          case Pile(s) => if StackWorth(s) != 0 then multiset{s} else multiset{}
          case Bag(items) => Piles(items)
          case Other => multiset{}) + Piles(ts[1..])
  }

  /** What all the money is worth, at any depth. */
  function Holdings(ts: seq<Thing>): nat {
    if ts == [] then 0
    else (match ts[0]
          case Pile(s) => StackWorth(s)
          case Bag(items) => Holdings(items)
          case Other => 0) + Holdings(ts[1..])
  }

  function Size(ts: seq<Thing>): nat {
    if ts == [] then 0 else 1 + (if ts[0].Bag? then Size(ts[0].items) else 0) + Size(ts[1..])
  }

  function AllPiles(q: seq<seq<Thing>>): multiset<Stack> {
    if q == [] then multiset{} else Piles(q[0]) + AllPiles(q[1..])
  }

  function AllHoldings(q: seq<seq<Thing>>): nat { if q == [] then 0 else Holdings(q[0]) + AllHoldings(q[1..]) }

  function QueueSize(q: seq<seq<Thing>>): nat { if q == [] then 0 else 1 + Size(q[0]) + QueueSize(q[1..]) }

  lemma {:induction false} Queued(q: seq<seq<Thing>>, bag: seq<Thing>)
    ensures AllPiles(q + [bag]) == AllPiles(q) + Piles(bag) && AllHoldings(q + [bag]) == AllHoldings(q) + Holdings(bag)
    ensures QueueSize(q + [bag]) == QueueSize(q) + 1 + Size(bag)
  {
    if q == [] {
      assert q + [bag] == [bag] && [bag][1..] == [];
    } else {
      assert (q + [bag])[1..] == q[1..] + [bag];
      Queued(q[1..], bag);
    }
  }

  /** The money at the top of a container. */
  function Here(ts: seq<Thing>): seq<Stack> {
    if ts == [] then []
    else (if ts[0].Pile? && StackWorth(ts[0].stack) != 0 then [ts[0].stack] else []) + Here(ts[1..])
  }

  /** The containers at the top of a container. */
  function Bags(ts: seq<Thing>): seq<seq<Thing>> {
    if ts == [] then [] else (if ts[0].Bag? then [ts[0].items] else []) + Bags(ts[1..])
  }

  lemma {:induction false} QueueConcat(q: seq<seq<Thing>>, r: seq<seq<Thing>>)
    ensures QueueSize(q + r) == QueueSize(q) + QueueSize(r)
  {
    if q == [] {
      assert q + r == r;
    } else {
      assert (q + r)[1..] == q[1..] + r;
      QueueConcat(q[1..], r);
    }
  }

  lemma {:induction false} BagsFit(ts: seq<Thing>)
    ensures QueueSize(Bags(ts)) <= Size(ts)
  {
    if ts != [] {
      BagsFit(ts[1..]);
      var first := if ts[0].Bag? then [ts[0].items] else [];
      QueueConcat(first, Bags(ts[1..]));
      assert first != [] ==> first[1..] == [];
    }
  }

  /** The money of the queued containers, and of those inside, in the order in which it is met. */
  function Met(q: seq<seq<Thing>>): seq<Stack>
    decreases QueueSize(q)
  {
    if q == [] then []
    else
      QueueConcat(q[1..], Bags(q[0]));
      BagsFit(q[0]);
      Here(q[0]) + Met(q[1..] + Bags(q[0]))
  }

  /** What is in the map and what is still to be met make up all of the money, worth by worth and in order. */
  ghost predicate InOrder(met: seq<Stack>, moneyMap: seq<Stack>, rest: seq<Thing>, queue: seq<seq<Thing>>) {
    forall w {:trigger OfWorth(moneyMap, w)} ::
      OfWorth(met, w) == OfWorth(moneyMap, w) + OfWorth(Here(rest) + Met(queue + Bags(rest)), w)
  }

  lemma InOrderBag(met: seq<Stack>, moneyMap: seq<Stack>, rest: seq<Thing>, queue: seq<seq<Thing>>)
    requires InOrder(met, moneyMap, rest, queue) && rest != [] && rest[0].Bag?
    ensures InOrder(met, moneyMap, rest[1..], queue + [rest[0].items])
  {
    assert queue + Bags(rest) == (queue + [rest[0].items]) + Bags(rest[1..]);
    assert Here(rest) == Here(rest[1..]);
  }

  lemma InOrderPile(met: seq<Stack>, moneyMap: seq<Stack>, rest: seq<Thing>, queue: seq<seq<Thing>>,
                    moneyMap': seq<Stack>)
    requires InOrder(met, moneyMap, rest, queue) && rest != [] && rest[0].Pile? && StackWorth(rest[0].stack) != 0
    requires forall w {:trigger OfWorth(moneyMap', w)} ::
      OfWorth(moneyMap', w) == OfWorth(moneyMap, w) + OfWorth([rest[0].stack], w)
    ensures InOrder(met, moneyMap', rest[1..], queue)
  {
    var item, later := rest[0].stack, Here(rest[1..]) + Met(queue + Bags(rest[1..]));
    assert Bags(rest) == Bags(rest[1..]);
    assert Here(rest) + Met(queue + Bags(rest)) == [item] + later;
    forall w {:trigger OfWorth(moneyMap', w)} ensures OfWorth(met, w) == OfWorth(moneyMap', w) + OfWorth(later, w) {
      assert OfWorth(met, w) == OfWorth(moneyMap, w) + OfWorth([item] + later, w);
      FirstMoves(OfWorth(met, w), OfWorth(moneyMap, w), item, later, w);
    }
  }

  lemma FirstMoves(all: seq<Stack>, front: seq<Stack>, item: Stack, later: seq<Stack>, w: nat)
    requires all == front + OfWorth([item] + later, w)
    ensures all == (front + OfWorth([item], w)) + OfWorth(later, w)
  {
    OfWorthConcat([item], later, w);
  }

  /** What is neither money nor a container is passed over. */
  lemma InOrderSkip(met: seq<Stack>, moneyMap: seq<Stack>, rest: seq<Thing>, queue: seq<seq<Thing>>)
    requires InOrder(met, moneyMap, rest, queue) && rest != [] && !rest[0].Bag?
    requires rest[0].Pile? ==> StackWorth(rest[0].stack) == 0
    ensures InOrder(met, moneyMap, rest[1..], queue)
  {
    assert Bags(rest) == Bags(rest[1..]) && Here(rest) == Here(rest[1..]);
  }

  /** The next container of the queue is opened. */
  lemma InOrderOpen(met: seq<Stack>, moneyMap: seq<Stack>, queue: seq<seq<Thing>>)
    requires InOrder(met, moneyMap, [], queue) && queue != []
    ensures InOrder(met, moneyMap, queue[0], queue[1..])
  {
    assert queue + Bags([]) == queue && [] + Met(queue) == Met(queue);
  }

  /** Some of the money is in the map, and the rest lies in the other things and the queued containers. */
  ghost predicate Gathering(all: multiset<Stack>, worth: nat, moneyMap: seq<Stack>, moneyCount: nat, rest: seq<Thing>,
                            queue: seq<seq<Thing>>) {
    && Ascending(moneyMap) && Coins(moneyMap) && Worth(moneyMap) == moneyCount
    && multiset(moneyMap) + Piles(rest) + AllPiles(queue) == all
    && moneyCount + Holdings(rest) + AllHoldings(queue) == worth
  }

  /** The loop over the things of one container: containers are queued, money is put into the map. */
  method GatherOne(things: seq<Thing>, moneyMap0: seq<Stack>, moneyCount0: nat, queue0: seq<seq<Thing>>,
                   ghost all: multiset<Stack>, ghost worth: nat, ghost met: seq<Stack>)
    returns (moneyMap: seq<Stack>, moneyCount: nat, queue: seq<seq<Thing>>)
    requires Gathering(all, worth, moneyMap0, moneyCount0, things, queue0) && InOrder(met, moneyMap0, things, queue0)
    ensures Gathering(all, worth, moneyMap, moneyCount, [], queue) && InOrder(met, moneyMap, [], queue)
    ensures QueueSize(queue) <= QueueSize(queue0) + Size(things)
  {
    moneyMap, moneyCount, queue := moneyMap0, moneyCount0, queue0;
    var i := 0;
    assert things[0..] == things;
    while i < |things|
      invariant 0 <= i <= |things| && Gathering(all, worth, moneyMap, moneyCount, things[i..], queue)
      invariant InOrder(met, moneyMap, things[i..], queue)
      invariant QueueSize(queue) + Size(things[i..]) <= QueueSize(queue0) + Size(things)
    {
      assert things[i..][0] == things[i] && things[i..][1..] == things[i + 1..];
      match things[i] {
        case Bag(items) =>
          Queued(queue, items);
          InOrderBag(met, moneyMap, things[i..], queue);
          queue := queue + [items];
        case Pile(stack) =>
          var itemWorth := StackWorth(stack);
          if itemWorth != 0 {
            ghost var before := moneyMap;
            moneyCount := moneyCount + itemWorth;
            moneyMap := Emplace(moneyMap, stack);
            EmplacedCoins(before, stack, moneyMap);
            InOrderPile(met, before, things[i..], queue, moneyMap);
          } else {
            InOrderSkip(met, moneyMap, things[i..], queue);
          }
        case Other =>
          InOrderSkip(met, moneyMap, things[i..], queue);
      }
      i := i + 1;
    }
    assert things[|things|..] == [];
  }

  lemma EmplacedCoins(s: seq<Stack>, x: Stack, r: seq<Stack>)
    requires Coins(s) && StackWorth(x) != 0 && multiset(r) == multiset(s) + multiset{x}
    ensures Coins(r)
  {
    forall i {:trigger r[i]} | 0 <= i < |r| ensures r[i].count >= 1 {
      assert r[i] in multiset(r);
    }
  }

  /**
   * The map holds the money of every depth in ascending order of worth, and what is worth the same in the order in
   * which it is met, container by container; and its worth is counted.
   */
  method Collect(things: seq<Thing>) returns (moneyMap: seq<Stack>, moneyCount: nat)
    ensures SortedFrom(moneyMap, Met([things])) && Coins(moneyMap) && multiset(moneyMap) == Piles(things)
    ensures Worth(moneyMap) == Holdings(things) == moneyCount
  {
    ghost var all, worth, met := Piles(things), Holdings(things), Met([things]);
    assert [things][1..] + Bags(things) == [] + Bags(things);
    var containers;
    moneyMap, moneyCount, containers := GatherOne(things, [], 0, [], all, worth, met);
    while containers != []
      invariant Gathering(all, worth, moneyMap, moneyCount, [], containers) && InOrder(met, moneyMap, [], containers)
      decreases QueueSize(containers)
    {
      InOrderOpen(met, moneyMap, containers);
      moneyMap, moneyCount, containers :=
        GatherOne(containers[0], moneyMap, moneyCount, containers[1..], all, worth, met);
    }
    assert Here([]) + Met([] + Bags([])) == [];
    forall w {:trigger OfWorth(moneyMap, w)} ensures OfWorth(moneyMap, w) == OfWorth(met, w) {
      assert OfWorth([], w) == [];
    }
  }

  // ---------- adding money ----------

  /** One round of the first loop: the stack size is the smaller of the maximum and the low 32 bits. */
  function NextNotes(notes: nat, max: nat): nat {
    var count := if max < U32(notes) then max else U32(notes);
    notes - count
  }

  function AfterRounds(notes: nat, max: nat, rounds: nat): nat {
    if rounds == 0 then notes else AfterRounds(NextNotes(notes, max), max, rounds - 1)
  }

  lemma {:induction false} OneRoundMore(notes: nat, max: nat, rounds: nat)
    ensures AfterRounds(notes, max, rounds + 1) == NextNotes(AfterRounds(notes, max, rounds), max)
    decreases rounds
  {
    if rounds > 0 {
      OneRoundMore(NextNotes(notes, max), max, rounds - 1);
    }
  }

  /** The first loop of `addMoney` never ends when there are 2^32 notes or more. */
  lemma {:induction false} NotesNeverEnd(notes: nat, max: nat, rounds: nat)
    requires notes >= TWO32
    ensures AfterRounds(notes, max, rounds) >= TWO32
    decreases rounds
  {
    if rounds > 0 {
      assert notes - U32(notes) == notes / TWO32 * TWO32 >= TWO32;
      NotesNeverEnd(NextNotes(notes, max), max, rounds - 1);
    }
  }

  /** With fewer notes the loop ends, after one round for every started stack. */
  lemma {:induction false} NotesEnd(notes: nat, max: nat, rounds: nat)
    requires notes < TWO32 && max >= 1 && rounds >= notes
    ensures AfterRounds(notes, max, rounds) == 0
    decreases rounds
  {
    if rounds > 0 {
      if notes == 0 {
        assert NextNotes(notes, max) == 0;
      }
      NotesEnd(NextNotes(notes, max), max, rounds - 1);
    }
  }

  /** The first loop ends if and only if there are fewer than 2^32 notes. */
  lemma NotesEndExactly(notes: nat, max: nat)
    requires max >= 1
    ensures (exists rounds: nat {:trigger AfterRounds(notes, max, rounds)} ::
      AfterRounds(notes, max, rounds) == 0) <==> notes < TWO32
  {
    if notes < TWO32 {
      NotesEnd(notes, max, notes);
    } else {
      forall rounds: nat ensures AfterRounds(notes, max, rounds) >= TWO32 {
        NotesNeverEnd(notes, max, rounds);
      }
    }
  }

  /**
   * The highest note comes first, in full stacks but for the last of them; of each lower note there is at most one
   * stack, of fewer than a hundred, and the notes fall.
   */
  ghost predicate Change(created: seq<Stack>, max: nat) {
    && (forall i {:trigger created[i]} :: 0 <= i < |created| ==>
          1 <= created[i].count <= if created[i].note == Million then max else 99)
    && (forall i, j {:trigger created[i], created[j]} :: 0 <= i < j < |created| ==>
          Follows(created[i], created[j], max))
  }

  ghost predicate Follows(s: Stack, t: Stack, max: nat) {
    Unit(s.note) > Unit(t.note) || (s.note == Million && t.note == Million && s.count == max)
  }

  /** A stack of a lower note, if there is any. */
  function Hand(note: Note, count: nat): seq<Stack> { if count != 0 then [Stack(note, count)] else [] }

  lemma HandWorth(note: Note, count: nat)
    ensures Worth(Hand(note, count)) == Times(note, count)
  {
    if count != 0 {
      WorthOne(Stack(note, count));
    }
  }

  /** Stacks of the highest note, all of them full, or all but the last. */
  ghost predicate Notes(created: seq<Stack>, max: nat, full: bool) {
    forall i {:trigger created[i]} :: 0 <= i < |created| ==>
      created[i].note == Million && 1 <= created[i].count <= max
      && (full || i + 1 < |created| ==> created[i].count == max)
  }

  lemma NotesOn(created: seq<Stack>, max: nat, count: nat)
    requires Notes(created, max, true) && 1 <= count <= max
    ensures Notes(created + [Stack(Million, count)], max, count == max)
    ensures Worth(created + [Stack(Million, count)]) == Worth(created) + count * MILLION
  {
    WorthConcat(created, [Stack(Million, count)]);
    WorthOne(Stack(Million, count));
  }

  lemma NotesAreChange(created: seq<Stack>, max: nat, full: bool)
    requires Notes(created, max, full)
    ensures Change(created, max)
  {
  }

  /** The first loop of `addMoney`, a stack for each round. */
  method AddNotes(notes: nat, max: nat) returns (created: seq<Stack>)
    requires max >= 1 && notes < TWO32
    ensures Worth(created) == notes * MILLION && Change(created, max)
    ensures forall i {:trigger created[i]} :: 0 <= i < |created| ==> created[i].note == Million
    ensures AfterRounds(notes, max, |created|) == 0 && (created != [] ==> AfterRounds(notes, max, |created| - 1) > 0)
  {
    created := [];
    var millionDollarNotes: nat := notes;
    while millionDollarNotes > 0
      invariant millionDollarNotes <= notes && Notes(created, max, millionDollarNotes > 0)
      invariant Worth(created) == (notes - millionDollarNotes) * MILLION
      invariant millionDollarNotes == AfterRounds(notes, max, |created|)
      invariant created != [] ==> AfterRounds(notes, max, |created| - 1) > 0
    {
      var count := if max < U32(millionDollarNotes) then max else U32(millionDollarNotes);
      NotesOn(created, max, count);
      OneRoundMore(notes, max, |created|);
      created := created + [Stack(Million, count)];
      millionDollarNotes := millionDollarNotes - count;
    }
    NotesAreChange(created, max, false);
  }

  /** `addMoney`: new stacks worth exactly the money. */
  method AddMoney(money0: nat, max: nat) returns (created: seq<Stack>)
    requires max >= 1 && money0 / MILLION < TWO32
    ensures Worth(created) == money0 && Change(created, max)
  {
    var money: nat := money0;
    var millionDollarNotes := money / MILLION;
    money := money - millionDollarNotes * MILLION;
    created := AddNotes(millionDollarNotes, max);
    var tenThousandDollarNotes := money / TEN_THOUSAND;
    created := HandOut(created, TenThousand, tenThousandDollarNotes, max);
    money := money - tenThousandDollarNotes * TEN_THOUSAND;
    var hundredDollarNotes := money / HUNDRED;
    created := HandOut(created, Hundred, hundredDollarNotes, max);
    money := money - hundredDollarNotes * HUNDRED;
    var dollarNotes := money / DOLLAR;
    created := HandOut(created, Dollar, dollarNotes, max);
    money := money - dollarNotes * DOLLAR;
    created := HandOut(created, Coin, money, max);
  }

  method HandOut(created0: seq<Stack>, note: Note, count: nat, max: nat) returns (created: seq<Stack>)
    requires Change(created0, max) && note != Million && count <= 99
    requires forall i {:trigger created0[i]} :: 0 <= i < |created0| ==> Unit(created0[i].note) > Unit(note)
    ensures Change(created, max) && Worth(created) == Worth(created0) + Times(note, count)
    ensures forall i {:trigger created[i]} :: 0 <= i < |created| ==> Unit(created[i].note) >= Unit(note)
  {
    created := created0 + Hand(note, count);
    WorthConcat(created0, Hand(note, count));
    HandWorth(note, count);
  }

  // ---------- removing money ----------

  /** The units that cover an amount, rounded up. */
  function Covering(n: Note, money: nat): nat { (money + Unit(n) - 1) / Unit(n) }

  /** Breaking a stack that is worth more than the rest: some units go, and less than one unit comes back. */
  lemma Breaking(s: Stack, money: nat)
    requires 0 < money < StackWorth(s)
    ensures 1 <= Covering(s.note, money) <= s.count
    ensures 0 <= Times(s.note, Covering(s.note, money)) - money < Unit(s.note)
  {
    match s.note {
      case Coin =>
      case Dollar =>
      case Hundred =>
      case TenThousand =>
      case Million =>
    }
  }

  /**
   * How an amount was paid. In ascending order the stacks before number i are worth less than the money and are
   * gone, and stack i covers the rest: some of its units are gone, and what they were worth too much came back
   * as stacks of lower notes. All later stacks stay.
   */
  ghost predicate Paid(things: seq<Thing>, money: nat, left: seq<Stack>, order: seq<Stack>, i: nat, removed: nat,
                       change: seq<Stack>, max: nat) {
    && Change(change, max) && SortedFrom(order, Met([things])) && multiset(order) == Piles(things)
    && Worth(order) == Holdings(things)
    && i < |order| && Worth(order[..i]) < money <= Worth(order[..i]) + StackWorth(order[i])
    && 1 <= removed <= order[i].count && 0 <= Worth(change) < Unit(order[i].note)
    && Worth(order[..i]) + Times(order[i].note, removed) == money + Worth(change)
    && (forall j {:trigger change[j]} :: 0 <= j < |change| ==> Unit(change[j].note) < Unit(order[i].note))
    && left == change + (Hand(order[i].note, order[i].count - removed) + order[i + 1..])
  }

  /** Nothing in less than one unit of a note is worth that unit. */
  lemma {:induction false} LowerNotes(change: seq<Stack>, note: Note, j: nat)
    requires j < |change| && Worth(change) < Unit(note) && Coins(change)
    ensures Unit(change[j].note) < Unit(note)
  {
    var first := change[0];
    assert first.count >= 1 && StackWorth(first) >= Unit(first.note);
    if j > 0 {
      forall k {:trigger change[1..][k]} | 0 <= k < |change[1..]| ensures change[1..][k].count >= 1 {
        assert change[1..][k] == change[k + 1];
      }
      LowerNotes(change[1..], note, j - 1);
    }
  }

  /** `removeMoney`: nothing is touched without enough money; otherwise exactly the money is gone. */
  method RemoveMoney(things: seq<Thing>, money0: nat, max: nat)
    returns (ok: bool, left: Option<seq<Stack>>, ghost order: seq<Stack>, ghost at: nat, ghost removed: nat,
             ghost change: seq<Stack>)
    requires max >= 1
    ensures ok <==> Holdings(things) >= money0
    ensures left.Some? <==> ok && money0 > 0
    ensures left.Some? ==> Worth(left.value) == Holdings(things) - money0 && Coins(left.value)
    ensures left.Some? ==> Paid(things, money0, left.value, order, at, removed, change, max)
  {
    order, at, removed, change := [], 0, 0, [];
    if money0 == 0 {
      ok, left := true, None;
      return;
    }
    var moneyMap, moneyCount := Collect(things);
    if moneyCount < money0 {
      ok, left := false, None;
      return;
    }
    var rest;
    order, ok := moneyMap, true;
    rest, at, removed, change := Pay(things, moneyMap, money0, max);
    left := Some(rest);
  }

  /** The ascending loop of `removeMoney`, which always ends on a covering stack. */
  method Pay(ghost things: seq<Thing>, moneyMap: seq<Stack>, money0: nat, max: nat)
    returns (left: seq<Stack>, ghost at: nat, ghost removed: nat, ghost change: seq<Stack>)
    requires SortedFrom(moneyMap, Met([things])) && Coins(moneyMap) && multiset(moneyMap) == Piles(things)
    requires 0 < money0 <= Worth(moneyMap) == Holdings(things) && max >= 1
    ensures Paid(things, money0, left, moneyMap, at, removed, change, max)
    ensures Worth(left) == Holdings(things) - money0 && Coins(left)
  {
    at, removed, change := 0, 0, [];
    var money: nat := money0;
    var i := 0;
    assert moneyMap[0..] == moneyMap;
    while true
      invariant 0 <= i <= |moneyMap| && 0 < money <= Worth(moneyMap[i..])
      invariant Worth(moneyMap[..i]) + money == money0
      decreases |moneyMap| - i
    {
      var item := moneyMap[i];
      SplitAt(moneyMap, i, item);
      if StackWorth(item) < money {
        money := money - StackWorth(item);
        i := i + 1;
      } else if StackWorth(item) > money {
        at := i;
        left, removed, change := BreakStack(moneyMap, i, money, max);
        PaidPart(things, money0, left, moneyMap, i, removed, change, max);
        break;
      } else {
        left, at, removed := moneyMap[i + 1..], i, item.count;
        PaidWhole(things, money0, left, moneyMap, i, max);
        break;
      }
    }
    PaidWorth(things, money0, left, moneyMap, at, removed, change, max);
  }

  /** The last stack goes whole. */
  lemma PaidWhole(things: seq<Thing>, money: nat, left: seq<Stack>, order: seq<Stack>, i: nat, max: nat)
    requires SortedFrom(order, Met([things])) && Coins(order) && multiset(order) == Piles(things)
    requires Worth(order) == Holdings(things)
    requires i < |order| && Worth(order[..i]) < money == Worth(order[..i]) + StackWorth(order[i])
    requires left == order[i + 1..]
    ensures Paid(things, money, left, order, i, order[i].count, [], max)
  {
    UnitsWorth(order[i].note, order[i].count);
    assert Hand(order[i].note, 0) == [] && [] + ([] + left) == left;
  }

  /** The last stack is broken. */
  lemma PaidPart(things: seq<Thing>, money: nat, left: seq<Stack>, order: seq<Stack>, i: nat, removed: nat,
                 change: seq<Stack>, max: nat)
    requires SortedFrom(order, Met([things])) && multiset(order) == Piles(things) && Worth(order) == Holdings(things)
    requires i < |order| && Worth(order[..i]) < money < Worth(order[..i]) + StackWorth(order[i])
    requires 1 <= removed <= order[i].count && Worth(change) < Unit(order[i].note) && Change(change, max)
    requires Worth(change) == Times(order[i].note, removed) - (money - Worth(order[..i]))
    requires forall j {:trigger change[j]} :: 0 <= j < |change| ==> Unit(change[j].note) < Unit(order[i].note)
    requires left == change + (Hand(order[i].note, order[i].count - removed) + order[i + 1..])
    ensures Paid(things, money, left, order, i, removed, change, max)
  {
  }

  lemma SplitAt(s: seq<Stack>, i: nat, item: Stack)
    requires i < |s| && s[i] == item
    ensures Worth(s[..i + 1]) == Worth(s[..i]) + StackWorth(item)
    ensures Worth(s[i..]) == StackWorth(item) + Worth(s[i + 1..])
    ensures Worth(s) == Worth(s[..i]) + Worth(s[i..])
  {
    assert s[..i + 1] == s[..i] + [item] && s[i..][1..] == s[i + 1..] && s == s[..i] + s[i..];
    WorthConcat(s[..i], [item]);
    WorthOne(item);
    WorthConcat(s[..i], s[i..]);
  }

  lemma UnitsWorth(note: Note, count: nat)
    requires count >= 1
    ensures Times(note, count) >= Unit(note) >= 1
  {
  }

  /** Paying takes exactly the money. */
  lemma PaidWorth(things: seq<Thing>, money: nat, left: seq<Stack>, order: seq<Stack>, i: nat, removed: nat,
                  change: seq<Stack>, max: nat)
    requires Paid(things, money, left, order, i, removed, change, max)
    ensures Worth(left) == Holdings(things) - money
  {
    var note, count, later := order[i].note, order[i].count, order[i + 1..];
    var kept := count - removed;
    var rest := Hand(note, kept);
    SplitAt(order, i, order[i]);
    ThreeParts(change, rest, later, left);
    HandWorth(note, kept);
    TimesSplit(note, count, removed, kept);
  }

  lemma ThreeParts(a: seq<Stack>, b: seq<Stack>, c: seq<Stack>, whole: seq<Stack>)
    requires whole == a + (b + c)
    ensures Worth(whole) == Worth(a) + Worth(b) + Worth(c)
  {
    WorthConcat(a, b + c);
    WorthConcat(b, c);
  }

  lemma TimesSplit(n: Note, count: int, removed: int, kept: int)
    requires kept == count - removed
    ensures Times(n, kept) == Times(n, count) - Times(n, removed)
  {
    match n {
      case Coin =>
      case Dollar =>
      case Hundred =>
      case TenThousand =>
      case Million =>
    }
  }

  /** The stack at index i covers the rest: units are taken, and the change is added. */
  method BreakStack(moneyMap: seq<Stack>, i: nat, money: nat, max: nat)
    returns (left: seq<Stack>, removeCount: nat, change: seq<Stack>)
    requires Coins(moneyMap) && i < |moneyMap| && 0 < money < StackWorth(moneyMap[i]) && max >= 1
    ensures Change(change, max) && Coins(left) && Worth(change) == Times(moneyMap[i].note, removeCount) - money
    ensures 1 <= removeCount <= moneyMap[i].count && Worth(change) < Unit(moneyMap[i].note)
    ensures forall j {:trigger change[j]} :: 0 <= j < |change| ==> Unit(change[j].note) < Unit(moneyMap[i].note)
    ensures left == change + (Hand(moneyMap[i].note, moneyMap[i].count - removeCount) + moneyMap[i + 1..])
  {
    var item := moneyMap[i];
    removeCount := Covering(item.note, money);
    Breaking(item, money);
    change := AddMoney(Times(item.note, removeCount) - money, max);
    forall j {:trigger change[j]} | 0 <= j < |change| ensures Unit(change[j].note) < Unit(item.note) {
      LowerNotes(change, item.note, j);
    }
    var rest := Hand(item.note, item.count - removeCount);
    left := change + (rest + moneyMap[i + 1..]);
  }
}
