/** Trades between two players: who trades with whom, what is offered, and the references that offers hold. */
module Trade {
  import opened Options

  datatype TradeState = NoTrade | Initiated | Accept | Acknowledge | Transfer

  class Player {
    const id: int
    var tradePartner: Player?
    var tradeItem: Option<int>
    var tradeState: TradeState

    constructor (id: int)
      ensures this.id == id && Seen() == Nobody(id)
    {
      this.id := id;
      tradePartner, tradeItem, tradeState := null, None, NoTrade;
    }

    ghost function Seen(): Record
      reads this
    {
      Record(id, tradePartner, tradeItem, tradeState)
    }
  }

  /** The fields of a player at one moment. */
  datatype Record = Record(id: int, partner: Player?, item: Option<int>, state: TradeState)

  type Table = map<Player, Record>

  ghost function Nobody(id: int): Record { Record(id, null, None, NoTrade) }

  ghost function Snap(players: set<Player>): (w: Table)
    reads players
    ensures w.Keys == players
  {
    map p | p in players :: p.Seen()
  }

  /** What the checks and moves of a transfer answer: both must fit and come free, and then each is moved. */
  datatype Answers = Answers(fits1: bool, fits2: bool, free1: bool, free2: bool, moves1: bool, moves2: bool)

  /** What an acceptance leads to; the items change hands in the last two cases, in the first of them only one does. */
  datatype Outcome = Nothing | Waiting | Refused | Failed | OneWay | Exchanged

  /** A transfer fails if any check or the first move does; whether the second item moves is not looked at. */
  function Transfers(a: Answers): Outcome {
    if !(a.fits1 && a.fits2 && a.free1 && a.free2 && a.moves1) then Failed
    else if a.moves2 then Exchanged
    else OneWay
  }

  /** Both items change hands or neither, if and only if the second moves whenever the first does. */
  lemma TransferIsFair(a: Answers)
    ensures Transfers(a) != OneWay <==> (a.fits1 && a.fits2 && a.free1 && a.free2 && a.moves1 ==> a.moves2)
  {
  }

  // ---------- what every operation keeps ----------

  /** Partners point at each other, and the state tells whether there is a partner and an item. */
  ghost predicate Linked(w: Table, p: Player)
    requires p in w
  {
    var r := w[p];
    && (r.state == NoTrade <==> r.partner == null)
    && (r.state == NoTrade || r.state == Acknowledge ==> r.item == None)
    && (r.state == Initiated ==> r.item.Some?)
    && (r.partner != null ==>
          && r.partner in w && r.partner != p && w[r.partner].partner == p
          && (r.item.Some? || w[r.partner].item.Some?)
          && (r.state == Transfer <==> w[r.partner].state == Transfer))
  }

  /** Offered items are in the table under their owner; those being transferred no longer are. */
  ghost predicate Listed(w: Table, items: map<int, int>, p: Player)
    requires p in w
  {
    w[p].item.Some? ==>
      if w[p].state == Transfer then w[p].item.value !in items
      else w[p].item.value in items && items[w[p].item.value] == w[p].id
  }

  /** The item is offered by somebody, and not on its way. */
  ghost predicate Offers(w: Table, p: Player, item: int) { p in w && w[p].item == Some(item) && w[p].state != Transfer }

  ghost predicate Owned(w: Table, items: map<int, int>, item: int) {
    item in items ==> exists p {:trigger Offers(w, p, item)} :: p in w && Offers(w, p, item)
  }

  function Refs(refs: map<int, nat>, item: int): nat { if item in refs then refs[item] else 0 }

  /** One reference for being offered, and one for every release that waits. */
  ghost predicate Counted(items: map<int, int>, toRelease: seq<int>, refs: map<int, nat>, item: int) {
    Refs(refs, item) == (if item in items then 1 else 0) + multiset(toRelease)[item]
  }

  ghost predicate Apart(w: Table, p: Player, q: Player)
    requires p in w && q in w
  {
    p != q ==> w[p].id != w[q].id && (w[p].item.Some? ==> w[p].item != w[q].item)
  }

  ghost predicate Good(w: Table, items: map<int, int>, toRelease: seq<int>, refs: map<int, nat>) {
    && (forall p {:trigger Linked(w, p)} :: p in w ==> Linked(w, p))
    && (forall p {:trigger Listed(w, items, p)} :: p in w ==> Listed(w, items, p))
    && (forall item {:trigger Owned(w, items, item)} :: Owned(w, items, item))
    && (forall item {:trigger Counted(items, toRelease, refs, item)} :: Counted(items, toRelease, refs, item))
    && (forall p, q {:trigger Apart(w, p, q)} :: p in w && q in w ==> Apart(w, p, q))
  }

  ghost predicate Quiet(w: Table) { forall p {:trigger w[p]} :: p in w ==> w[p].state != Transfer }

  // ---------- starting ----------

  ghost function Asked(r: Record, asker: Player): Record {
    if r.state == NoTrade then r.(state := Acknowledge, partner := asker) else r
  }

  lemma NotOffered(w: Table, items: map<int, int>, toRelease: seq<int>, refs: map<int, nat>, item: int)
    requires Good(w, items, toRelease, refs) && Quiet(w) && item !in items
    ensures forall p {:trigger w[p]} :: p in w ==> w[p].item != Some(item)
  {
    forall p | p in w ensures w[p].item != Some(item) {
      assert Listed(w, items, p) && w[p].state != Transfer;
    }
  }

  lemma Started(w: Table, items: map<int, int>, toRelease: seq<int>, refs: map<int, nat>, a: Player, b: Player,
                item: int, w': Table, items': map<int, int>, refs': map<int, nat>)
    requires Good(w, items, toRelease, refs) && Quiet(w) && a in w && b in w && a != b && item !in items
    requires w[a].state == NoTrade || (w[a].state == Acknowledge && w[a].partner == b)
    requires w[b].state == NoTrade || w[b].partner == a
    requires w' == w[a := Record(w[a].id, b, Some(item), Initiated)][b := Asked(w[b], a)]
    requires items' == items[item := w[a].id] && refs' == refs[item := Refs(refs, item) + 1]
    ensures Good(w', items', toRelease, refs') && Quiet(w')
  {
    NotOffered(w, items, toRelease, refs, item);
    assert Linked(w, a) && Linked(w, b);
    forall p {:trigger Linked(w', p)} | p in w' ensures Linked(w', p) {
      assert Linked(w, p);
    }
    forall p {:trigger Listed(w', items', p)} | p in w' ensures Listed(w', items', p) {
      assert Listed(w, items, p) && Apart(w, a, p);
    }
    forall i {:trigger Owned(w', items', i)} ensures Owned(w', items', i) {
      assert Owned(w, items, i);
      if i == item {
        assert Offers(w', a, i);
      } else if i in items {
        var p :| p in w && Offers(w, p, i);
        assert Offers(w', p, i);
      }
    }
    forall i {:trigger Counted(items', toRelease, refs', i)} ensures Counted(items', toRelease, refs', i) {
      assert Counted(items, toRelease, refs, i);
    }
    forall p, q {:trigger Apart(w', p, q)} | p in w' && q in w' ensures Apart(w', p, q) {
      assert Apart(w, p, q);
    }
  }

  // ---------- closing ----------

  /** The table without an item. */
  function Without(items: map<int, int>, item: Option<int>): map<int, int> {
    map i | i in items && item != Some(i) :: items[i]
  }

  /** A release for an item that is in the table. */
  function Released(items: map<int, int>, item: Option<int>): seq<int> {
    if item.Some? && item.value in items then [item.value] else []
  }

  /** Both sides lose their offers and are free. */
  lemma ClosedBoth(w: Table, items: map<int, int>, toRelease: seq<int>, refs: map<int, nat>, a: Player, b: Player,
                   w': Table, items': map<int, int>, toRelease': seq<int>)
    requires Good(w, items, toRelease, refs) && a in w && b in w && w[a].partner == b && w[a].state != Transfer
    requires w' == w[a := Nobody(w[a].id)][b := Nobody(w[b].id)]
    requires items' == Without(Without(items, w[a].item), w[b].item)
    requires toRelease' == toRelease + Released(items, w[a].item) + Released(Without(items, w[a].item), w[b].item)
    ensures Good(w', items', toRelease', refs)
  {
    assert Linked(w, a) && Linked(w, b) && Listed(w, items, a) && Listed(w, items, b) && Apart(w, a, b);
    forall p {:trigger Linked(w', p)} | p in w' ensures Linked(w', p) {
      assert Linked(w, p);
    }
    forall p {:trigger Listed(w', items', p)} | p in w' ensures Listed(w', items', p) {
      assert Listed(w, items, p) && Apart(w, a, p) && Apart(w, b, p);
    }
    forall i {:trigger Owned(w', items', i)} ensures Owned(w', items', i) {
      assert Owned(w, items, i);
      if i in items' {
        var p :| p in w && Offers(w, p, i);
        assert Offers(w', p, i);
      }
    }
    forall i {:trigger Counted(items', toRelease', refs, i)} ensures Counted(items', toRelease', refs, i) {
      assert Counted(items, toRelease, refs, i);
    }
    forall p, q {:trigger Apart(w', p, q)} | p in w' && q in w' ensures Apart(w', p, q) {
      assert Apart(w, p, q);
    }
  }

  // ---------- transferring ----------

  lemma CountedStill(items: map<int, int>, toRelease: seq<int>, refs: map<int, nat>, x: Option<int>, y: Option<int>,
                     items': map<int, int>, toRelease': seq<int>, i: int)
    requires Counted(items, toRelease, refs, i)
    requires items' == Without(Without(items, x), y)
    requires toRelease' == toRelease + Released(items, x) + Released(Without(items, x), y)
    ensures Counted(items', toRelease', refs, i)
  {
  }

  lemma OwnedStill(w: Table, items: map<int, int>, a: Player, b: Player, w': Table, items': map<int, int>, i: int)
    requires a in w && b in w && Owned(w, items, i)
    requires w' == w[a := w[a].(state := Transfer)][b := w[b].(state := Transfer)]
    requires items' == Without(Without(items, w[a].item), w[b].item)
    ensures Owned(w', items', i)
  {
    if i in items' {
      var p :| p in w && Offers(w, p, i);
      assert Offers(w', p, i);
    }
  }

  /** Both sides have accepted: their items leave the table before they change hands. */
  lemma Transferring(w: Table, items: map<int, int>, toRelease: seq<int>, refs: map<int, nat>, a: Player, b: Player,
                     w': Table, items': map<int, int>, toRelease': seq<int>)
    requires Good(w, items, toRelease, refs) && a in w && b in w && w[a].partner == b && w[a].state != Transfer
    requires w' == w[a := w[a].(state := Transfer)][b := w[b].(state := Transfer)]
    requires items' == Without(Without(items, w[a].item), w[b].item)
    requires toRelease' == toRelease + Released(items, w[a].item) + Released(Without(items, w[a].item), w[b].item)
    ensures Good(w', items', toRelease', refs)
  {
    assert Linked(w, a) && Linked(w, b) && Listed(w, items, a) && Listed(w, items, b) && Apart(w, a, b);
    forall p {:trigger Linked(w', p)} | p in w' ensures Linked(w', p) {
      assert Linked(w, p);
    }
    forall p {:trigger Listed(w', items', p)} | p in w' ensures Listed(w', items', p) {
      assert Listed(w, items, p) && Apart(w, a, p) && Apart(w, b, p);
    }
    forall i {:trigger Owned(w', items', i)} ensures Owned(w', items', i) {
      assert Owned(w, items, i);
      OwnedStill(w, items, a, b, w', items', i);
    }
    forall i {:trigger Counted(items', toRelease', refs, i)} ensures Counted(items', toRelease', refs, i) {
      assert Counted(items, toRelease, refs, i);
      CountedStill(items, toRelease, refs, w[a].item, w[b].item, items', toRelease', i);
    }
    forall p, q {:trigger Apart(w', p, q)} | p in w' && q in w' ensures Apart(w', p, q) {
      assert Apart(w, p, q);
    }
  }

  /** After the transfer both sides are free; their items are no longer in the table. */
  lemma Transferred(w: Table, items: map<int, int>, toRelease: seq<int>, refs: map<int, nat>, a: Player, b: Player,
                    w': Table)
    requires Good(w, items, toRelease, refs) && a in w && b in w && w[a].partner == b && w[a].state == Transfer
    requires w' == w[a := Nobody(w[a].id)][b := Nobody(w[b].id)]
    ensures Good(w', items, toRelease, refs)
  {
    assert Linked(w, a) && Linked(w, b) && Listed(w, items, a) && Listed(w, items, b) && Apart(w, a, b);
    forall p {:trigger Linked(w', p)} | p in w' ensures Linked(w', p) {
      assert Linked(w, p);
    }
    forall p {:trigger Listed(w', items, p)} | p in w' ensures Listed(w', items, p) {
      assert Listed(w, items, p);
    }
    forall i {:trigger Owned(w', items, i)} ensures Owned(w', items, i) {
      assert Owned(w, items, i);
      if i in items {
        var p :| p in w && Offers(w, p, i);
        assert Offers(w', p, i);
      }
    }
    forall p, q {:trigger Apart(w', p, q)} | p in w' && q in w' ensures Apart(w', p, q) {
      assert Apart(w, p, q);
    }
  }

  /** Accepting alone only changes the state. */
  lemma Accepted(w: Table, items: map<int, int>, toRelease: seq<int>, refs: map<int, nat>, a: Player, w': Table)
    requires Good(w, items, toRelease, refs) && Quiet(w) && a in w && w[a].partner != null
    requires w' == w[a := w[a].(state := Accept)]
    ensures Good(w', items, toRelease, refs) && Quiet(w')
  {
    assert Linked(w, a);
    forall p {:trigger Linked(w', p)} | p in w' ensures Linked(w', p) {
      assert Linked(w, p) && w[p].state != Transfer;
    }
    forall p {:trigger Listed(w', items, p)} | p in w' ensures Listed(w', items, p) {
      assert Listed(w, items, p);
    }
    forall i {:trigger Owned(w', items, i)} ensures Owned(w', items, i) {
      assert Owned(w, items, i);
      if i in items {
        var p :| p in w && Offers(w, p, i);
        assert Offers(w', p, i);
      }
    }
    forall p, q {:trigger Apart(w', p, q)} | p in w' && q in w' ensures Apart(w', p, q) {
      assert Apart(w, p, q);
    }
  }

  // ---------- the game's side ----------

  lemma {:induction false} SnapAfter(players: set<Player>, w: Table, a: Player, b: Player, ra: Record, rb: Record,
                                     w': Table)
    requires a in w && b in w && a != b && w'.Keys == w.Keys && w'[a] == ra && w'[b] == rb
    requires forall p :: p in w && p != a && p != b ==> w'[p] == w[p]
    ensures w' == w[a := ra][b := rb]
  {
  }

  lemma BothTwice(w: Table, a: Player, b: Player, w1: Table, w2: Table)
    requires a in w && b in w && a != b && Quiet(w)
    requires w1 == w[a := w[a].(state := Transfer)][b := w[b].(state := Transfer)]
    requires w2 == w1[a := Nobody(a.id)][b := Nobody(b.id)]
    ensures w2 == w[a := Nobody(a.id)][b := Nobody(b.id)] && Quiet(w2)
  {
    forall p {:trigger w2[p]} | p in w2 ensures w2[p].state != Transfer {
      assert p in w && w[p].state != Transfer;
    }
  }

  lemma StillQuiet(w: Table, a: Player, b: Player, w': Table)
    requires Quiet(w) && a in w && b in w && w' == w[a := Nobody(a.id)][b := Nobody(b.id)]
    ensures Quiet(w')
  {
    forall p {:trigger w'[p]} | p in w' ensures w'[p].state != Transfer {
      assert w[p].state != Transfer;
    }
  }

  lemma TwiceFreed(w: Table, a: Player, b: Player, w1: Table, w2: Table)
    requires a in w && b in w && w1 == w[a := w[a].(state := Accept)]
    requires w2 == w1[a := Nobody(a.id)][b := Nobody(b.id)]
    ensures w2 == w[a := Nobody(a.id)][b := Nobody(b.id)]
  {
  }

  class Trades {
    const players: set<Player>
    /** The offered items with the ids of their owners. */
    var tradeItems: map<int, int>
    /** Items whose extra reference is given up at the next cleanup. */
    var toRelease: seq<int>
    /** The extra references that trades hold on items. */
    var refs: map<int, nat>

    ghost predicate Valid()
      reads this, players
    {
      Good(Snap(players), tradeItems, toRelease, refs)
    }

    constructor (players: set<Player>)
      requires forall p :: p in players ==> p.Seen() == Nobody(p.id)
      requires forall p, q :: p in players && q in players && p.id == q.id ==> p == q
      ensures this.players == players && Valid() && tradeItems == map[] && toRelease == []
    {
      this.players := players;
      tradeItems, toRelease, refs := map[], [], map[];
    }

    /** `internalStartTrade`. */
    method StartTrade(player: Player, tradePartner: Player, tradeItem: int) returns (ok: bool)
      requires Valid() && Quiet(Snap(players)) && player in players && tradePartner in players && player != tradePartner
      requires tradeItem !in tradeItems
      modifies this, player, tradePartner
      ensures Valid() && Quiet(Snap(players))
      ensures ok <==> (old(player.tradeState) == NoTrade
                       || (old(player.tradeState) == Acknowledge && old(player.tradePartner) == tradePartner))
                      && (old(tradePartner.tradeState) == NoTrade || old(tradePartner.tradePartner) == player)
      ensures !ok ==> unchanged(this) && unchanged(player) && unchanged(tradePartner)
      ensures ok ==> player.Seen() == Record(player.id, tradePartner, Some(tradeItem), Initiated)
      ensures ok ==> tradePartner.Seen() == Asked(old(tradePartner.Seen()), player)
      ensures ok ==> tradeItems == old(tradeItems)[tradeItem := player.id] && toRelease == old(toRelease)
    {
      ghost var w := Snap(players);
      if player.tradeState != NoTrade && !(player.tradeState == Acknowledge && player.tradePartner == tradePartner) {
        return false;
      } else if tradePartner.tradeState != NoTrade && tradePartner.tradePartner != player {
        return false;
      }
      ghost var items0, refs0 := tradeItems, refs;
      Offer(player, tradePartner, tradeItem);
      Ask(tradePartner, player);
      ok := true;
      ghost var a, b := Record(player.id, tradePartner, Some(tradeItem), Initiated), Asked(w[tradePartner], player);
      SnapAfter(players, w, player, tradePartner, a, b, Snap(players));
      Started(w, items0, toRelease, refs0, player, tradePartner, tradeItem, Snap(players), tradeItems, refs);
    }

    /** The starting side: the item is listed and gets its reference. */
    method Offer(player: Player, tradePartner: Player, tradeItem: int)
      modifies this`tradeItems, this`refs, player
      ensures player.Seen() == Record(player.id, tradePartner, Some(tradeItem), Initiated)
      ensures tradeItems == old(tradeItems)[tradeItem := player.id]
      ensures refs == old(refs)[tradeItem := Refs(old(refs), tradeItem) + 1]
    {
      player.tradePartner := tradePartner;
      player.tradeItem := Some(tradeItem);
      player.tradeState := Initiated;
      refs := refs[tradeItem := Refs(refs, tradeItem) + 1];
      tradeItems := tradeItems[tradeItem := player.id];
    }

    /** The other side, unless it has started already. */
    method Ask(tradePartner: Player, player: Player)
      modifies tradePartner
      ensures tradePartner.Seen() == Asked(old(tradePartner.Seen()), player)
    {
      if tradePartner.tradeState == NoTrade {
        tradePartner.tradeState := Acknowledge;
        tradePartner.tradePartner := player;
      }
    }

    /** An offered item leaves the table, and its extra reference waits to be given up. */
    method TakeOff(item: Option<int>)
      modifies this`tradeItems, this`toRelease
      ensures tradeItems == Without(old(tradeItems), item)
      ensures toRelease == old(toRelease) + Released(old(tradeItems), item)
      ensures item == None ==> unchanged(this)
    {
      if item.Some? {
        if item.value in tradeItems {
          toRelease := toRelease + [item.value];
        }
        tradeItems := Without(tradeItems, item);
      } else {
        assert Without(tradeItems, item) == tradeItems;
      }
    }

    /** One side of closing: the offer leaves the table, and the player is free. */
    method Withdraw(player: Player)
      modifies this`tradeItems, this`toRelease, player
      ensures player.Seen() == Nobody(player.id)
      ensures tradeItems == Without(old(tradeItems), old(player.tradeItem))
      ensures toRelease == old(toRelease) + Released(old(tradeItems), old(player.tradeItem))
      ensures old(player.tradeItem) == None ==> unchanged(this)
    {
      TakeOff(player.tradeItem);
      player.tradeItem := None;
      player.tradeState := NoTrade;
      player.tradePartner := null;
    }

    /** `internalCloseTrade`: nothing during a transfer or without a trade, and otherwise both sides are free again. */
    method CloseTrade(player: Player)
      requires Valid() && player in players
      modifies this`tradeItems, this`toRelease, player, player.tradePartner
      ensures Valid()
      ensures old(player.tradeState) == Transfer || old(player.tradePartner) == null ==>
        unchanged(this) && player.Seen() == old(player.Seen())
      ensures old(player.tradePartner) != null && old(player.tradeState) == Transfer ==>
        old(player.tradePartner).Seen() == old(player.tradePartner.Seen())
      ensures old(player.tradePartner) != null && old(player.tradeState) != Transfer ==>
        && Snap(players) == old(Snap(players))[player := Nobody(player.id)]
                            [old(player.tradePartner) := Nobody(old(player.tradePartner).id)]
        && tradeItems == Without(Without(old(tradeItems), old(player.tradeItem)), old(player.tradePartner.tradeItem))
    {
      ghost var w := Snap(players);
      assert Linked(w, player);
      var tradePartner := player.tradePartner;
      if (tradePartner != null && tradePartner.tradeState == Transfer) || player.tradeState == Transfer {
        return;
      }
      Withdraw(player);
      if tradePartner == null {
        assert Snap(players) == w;
        return;
      }
      Withdraw(tradePartner);
      SnapAfter(players, w, player, tradePartner, Nobody(player.id), Nobody(tradePartner.id), Snap(players));
      ClosedBoth(w, old(tradeItems), old(toRelease), refs, player, tradePartner, Snap(players), tradeItems, toRelease);
    }

    /** Re-entrant closing from the hooks of a transfer: whoever asks, and however often, nothing changes. */
    method CloseFromHooks(player: Player, tradePartner: Player, closers: seq<bool>)
      requires Valid() && player in players && tradePartner in players
      requires player.tradePartner == tradePartner && tradePartner.tradePartner == player
      requires player.tradeState == Transfer && tradePartner.tradeState == Transfer
      modifies this`tradeItems, this`toRelease, player, tradePartner
      ensures unchanged(this) && player.Seen() == old(player.Seen()) && tradePartner.Seen() == old(tradePartner.Seen())
    {
      for i := 0 to |closers|
        invariant unchanged(this) && player.Seen() == old(player.Seen())
        invariant tradePartner.Seen() == old(tradePartner.Seen())
        invariant Snap(players) == old(Snap(players))
      {
        if closers[i] {
          CloseTrade(player);
        } else {
          CloseTrade(tradePartner);
        }
      }
    }

    /** `playerAcceptTrade`; `agreed` is the script's answer, and the hooks of the transfer may close again. */
    method AcceptTrade(player: Player, reachable: bool, agreed: bool, answers: Answers, closers: seq<bool>)
      returns (outcome: Outcome)
      requires Valid() && Quiet(Snap(players)) && player in players
      modifies this`tradeItems, this`toRelease, player, player.tradePartner
      ensures Valid() && Quiet(Snap(players))
      ensures outcome ==
        if !MayAccept(old(player.Seen())) || !reachable then Nothing
        else if old(player.tradePartner.tradeState) != Accept then Waiting
        else if !agreed then Refused
        else Transfers(answers)
      ensures !MayAccept(old(player.Seen())) || !reachable ==> Snap(players) == old(Snap(players)) && unchanged(this)
      ensures MayAccept(old(player.Seen())) && reachable ==>
        if old(player.tradePartner.tradeState) != Accept
        then Snap(players) == old(Snap(players))[player := old(player.Seen()).(state := Accept)] && unchanged(this)
        else Snap(players) == old(Snap(players))[player := Nobody(player.id)]
                              [old(player.tradePartner) := Nobody(old(player.tradePartner).id)]
             && tradeItems ==
               Without(Without(old(tradeItems), old(player.tradeItem)), old(player.tradePartner.tradeItem))
    {
      ghost var w := Snap(players);
      assert Linked(w, player);
      outcome := Nothing;
      if !(player.tradeState == Acknowledge || player.tradeState == Initiated) {
        return;
      }
      var tradePartner := player.tradePartner;
      if tradePartner == null || !reachable {
        return;
      }
      assert Linked(w, tradePartner);
      Mark(player);
      ghost var w1 := Snap(players);
      assert tradePartner.Seen() == w1[tradePartner] == w[tradePartner];
      outcome := Waiting;
      if tradePartner.tradeState == Accept {
        outcome := Finish(player, tradePartner, agreed, answers, closers);
        TwiceFreed(w, player, tradePartner, w1, Snap(players));
      }
    }

    /** A player's own acceptance. */
    method Mark(player: Player)
      requires Valid() && Quiet(Snap(players)) && player in players && player.tradePartner != null
      modifies player
      ensures Valid() && Quiet(Snap(players))
      ensures Snap(players) == old(Snap(players))[player := old(player.Seen()).(state := Accept)]
      ensures player.Seen() == old(player.Seen()).(state := Accept)
    {
      ghost var w := Snap(players);
      player.tradeState := Accept;
      assert Snap(players) == w[player := w[player].(state := Accept)];
      Accepted(w, tradeItems, toRelease, refs, player, Snap(players));
    }

    /** Both have accepted: unless the script refuses, the items change hands; either way both sides are free. */
    method Finish(player: Player, tradePartner: Player, agreed: bool, answers: Answers, closers: seq<bool>)
      returns (outcome: Outcome)
      requires Valid() && Quiet(Snap(players)) && player in players && tradePartner in players && player != tradePartner
      requires player.tradePartner == tradePartner && tradePartner.tradePartner == player
      requires player.tradeState != Transfer
      modifies this`tradeItems, this`toRelease, player, tradePartner
      ensures Valid() && Quiet(Snap(players)) && outcome == if agreed then Transfers(answers) else Refused
      ensures Snap(players) == old(Snap(players))[player := Nobody(player.id)][tradePartner := Nobody(tradePartner.id)]
      ensures tradeItems == Without(Without(old(tradeItems), old(player.tradeItem)), old(tradePartner.tradeItem))
    {
      if agreed {
        outcome := HandOver(player, tradePartner, answers, closers);
      } else {
        ghost var w := Snap(players);
        CloseTrade(player);
        outcome := Refused;
        StillQuiet(w, player, tradePartner, Snap(players));
      }
    }

    /** The transfer begins: both items leave the table. */
    method BeginTransfer(player: Player, tradePartner: Player)
      requires Valid() && player in players && tradePartner in players && player != tradePartner
      requires player.tradePartner == tradePartner && player.tradeState != Transfer
      modifies this`tradeItems, this`toRelease, player, tradePartner
      ensures Valid()
      ensures Snap(players) == old(Snap(players))[player := old(player.Seen()).(state := Transfer)]
                                                 [tradePartner := old(tradePartner.Seen()).(state := Transfer)]
      ensures tradeItems == Without(Without(old(tradeItems), old(player.tradeItem)), old(tradePartner.tradeItem))
    {
      ghost var w := Snap(players);
      player.tradeState := Transfer;
      tradePartner.tradeState := Transfer;
      TakeOff(player.tradeItem);
      TakeOff(tradePartner.tradeItem);
      SnapAfter(players, w, player, tradePartner, player.Seen(), tradePartner.Seen(), Snap(players));
      Transferring(w, old(tradeItems), old(toRelease), refs, player, tradePartner, Snap(players), tradeItems,
        toRelease);
    }

    /** The transfer ends: both sides are free. */
    method EndTransfer(player: Player, tradePartner: Player)
      requires Valid() && player in players && tradePartner in players && player != tradePartner
      requires player.tradePartner == tradePartner && player.tradeState == Transfer
      modifies player, tradePartner
      ensures Valid()
      ensures Snap(players) == old(Snap(players))[player := Nobody(player.id)][tradePartner := Nobody(tradePartner.id)]
    {
      ghost var w := Snap(players);
      player.tradeState, player.tradeItem, player.tradePartner := NoTrade, None, null;
      tradePartner.tradeState, tradePartner.tradeItem, tradePartner.tradePartner := NoTrade, None, null;
      SnapAfter(players, w, player, tradePartner, player.Seen(), tradePartner.Seen(), Snap(players));
      Transferred(w, tradeItems, toRelease, refs, player, tradePartner, Snap(players));
    }

    /** The checks of a transfer and its two moves, by what they answer. */
    method Move(answers: Answers) returns (outcome: Outcome)
      ensures outcome == Transfers(answers)
    {
      outcome := Failed;
      if answers.fits1 && answers.fits2 {
        if answers.free1 && answers.free2 {
          if answers.moves1 {
            outcome := if answers.moves2 then Exchanged else OneWay;
          }
        }
      }
    }

    /** The transfer: both items leave the table and change hands, and both sides are free. */
    method HandOver(player: Player, tradePartner: Player, answers: Answers, closers: seq<bool>)
      returns (outcome: Outcome)
      requires Valid() && Quiet(Snap(players)) && player in players && tradePartner in players && player != tradePartner
      requires player.tradePartner == tradePartner && tradePartner.tradePartner == player
      modifies this`tradeItems, this`toRelease, player, tradePartner
      ensures Valid() && Quiet(Snap(players)) && outcome == Transfers(answers)
      ensures Snap(players) == old(Snap(players))[player := Nobody(player.id)][tradePartner := Nobody(tradePartner.id)]
      ensures tradeItems == Without(Without(old(tradeItems), old(player.tradeItem)), old(tradePartner.tradeItem))
    {
      ghost var w := Snap(players);
      assert w[player].state != Transfer;
      BeginTransfer(player, tradePartner);
      ghost var w1 := Snap(players);
      assert player.Seen() == w1[player] && tradePartner.Seen() == w1[tradePartner];
      outcome := Move(answers);
      CloseFromHooks(player, tradePartner, closers);
      assert Snap(players) == w1;
      EndTransfer(player, tradePartner);
      BothTwice(w, player, tradePartner, w1, Snap(players));
    }

    /** `cleanup`: every waiting release gives up one reference. */
    method Cleanup()
      requires Valid()
      modifies this`toRelease, this`refs
      ensures Valid() && toRelease == [] && forall item :: Refs(refs, item) == if item in tradeItems then 1 else 0
    {
      ghost var w := Snap(players);
      while toRelease != []
        invariant Good(w, tradeItems, toRelease, refs)
        decreases |toRelease|
      {
        var item := toRelease[0];
        ghost var before, left := refs, toRelease;
        assert Counted(tradeItems, toRelease, refs, item) && toRelease == [item] + toRelease[1..];
        refs := refs[item := Refs(refs, item) - 1];
        toRelease := toRelease[1..];
        forall i {:trigger Counted(tradeItems, toRelease, refs, i)} ensures Counted(tradeItems, toRelease, refs, i) {
          assert Counted(tradeItems, left, before, i);
        }
      }
      forall item ensures Refs(refs, item) == if item in tradeItems then 1 else 0 {
        assert Counted(tradeItems, toRelease, refs, item);
      }
    }

    ghost function Now(): Moment
      reads this, players
    {
      Moment(Snap(players), tradeItems)
    }

    /**
     * Any run of requests: the links, the table and the references are sound after each of them, and who trades what
     * with whom is what the requests make of it one after the other.
     */
    method Run(events: seq<Event>)
      requires Valid() && Quiet(Snap(players))
      requires forall i :: 0 <= i < |events| ==> Concerns(events[i], players)
      modifies this, players
      ensures Valid() && Quiet(Snap(players)) && Now() == After(old(Now()), events)
    {
      assert events[..0] == [];
      for i := 0 to |events|
        invariant Valid() && Quiet(Snap(players)) && Now() == After(old(Now()), events[..i])
      {
        Handle(events[i]);
        assert events[..i + 1][..i] == events[..i];
      }
      assert events[..|events|] == events;
    }

    /** One request. */
    method Handle(event: Event)
      requires Valid() && Quiet(Snap(players)) && Concerns(event, players)
      modifies this, players
      ensures Valid() && Quiet(Snap(players)) && Now() == Next(old(Now()), event)
    {
      ghost var w := Snap(players);
      match event {
        case Request(player, tradePartner, item, nested) =>
          // the item, or a container around or inside it, may already be offered
          if player != tradePartner && item !in tradeItems && !nested {
            var ok := StartTrade(player, tradePartner, item);
            if ok {
              SnapAfter(players, w, player, tradePartner, Record(player.id, tradePartner, Some(item), Initiated),
                Asked(w[tradePartner], player), Snap(players));
            } else {
              assert Snap(players) == w;
            }
          }
        case Agree(player, reachable, agreed, answers, closers) =>
          assert Linked(w, player);
          var outcome := AcceptTrade(player, reachable, agreed, answers, closers);
        case Cancel(player) =>
          assert Linked(w, player);
          QuietClose(player);
        case Tick =>
          Cleanup();
      }
    }

    method QuietClose(player: Player)
      requires Valid() && Quiet(Snap(players)) && player in players
      modifies this`tradeItems, this`toRelease, player, player.tradePartner
      ensures Valid() && Quiet(Snap(players)) && Now() == Freed(old(Now()), player)
    {
      ghost var w := Snap(players);
      assert Linked(w, player) && w[player].state != Transfer;
      CloseTrade(player);
      if w[player].partner == null {
        assert Snap(players) == w;
      } else {
        assert Linked(w, w[player].partner);
        forall p {:trigger Snap(players)[p]} | p in Snap(players) ensures Snap(players)[p].state != Transfer {
          assert w[p].state != Transfer;
        }
      }
    }
  }

  // ---------- what requests come to ----------

  /** Who trades with whom, and what is offered. */
  datatype Moment = Moment(w: Table, items: map<int, int>)

  ghost predicate Concerns(e: Event, players: set<Player>) {
    && (!e.Tick? ==> e.player in players) && (e.Request? ==> e.tradePartner in players)
  }

  /** Both sides of a player's trade are free again. */
  ghost function Freed(m: Moment, p: Player): Moment {
    if p !in m.w || m.w[p].partner == null || m.w[p].partner !in m.w then m
    else
      var q := m.w[p].partner;
      Moment(m.w[p := Nobody(p.id)][q := Nobody(q.id)], Without(Without(m.items, m.w[p].item), m.w[q].item))
  }

  /** A request changes something only between two players who are free for each other, and for a free item. */
  ghost predicate MayStart(m: Moment, p: Player, q: Player, item: int) {
    && p in m.w && q in m.w && p != q && item !in m.items
    && (m.w[p].state == NoTrade || (m.w[p].state == Acknowledge && m.w[p].partner == q))
    && (m.w[q].state == NoTrade || m.w[q].partner == p)
  }

  ghost function Next(m: Moment, e: Event): Moment {
    match e
    case Request(p, q, item, nested) =>
      if nested || !MayStart(m, p, q, item) then m
      else Moment(m.w[p := Record(p.id, q, Some(item), Initiated)][q := Asked(m.w[q], p)], m.items[item := p.id])
    case Agree(p, reachable, _, _, _) =>
      if p !in m.w || !MayAccept(m.w[p]) || !reachable || m.w[p].partner !in m.w then m
      else if m.w[m.w[p].partner].state != Accept then m.(w := m.w[p := m.w[p].(state := Accept)])
      else Freed(m, p)
    case Cancel(p) => Freed(m, p)
    case Tick => m
  }

  ghost function After(m: Moment, events: seq<Event>): Moment {
    if events == [] then m else Next(After(m, events[..|events| - 1]), events[|events| - 1])
  }

  datatype Event =
    | Request(player: Player, tradePartner: Player, item: int, nested: bool)
    | Agree(player: Player, reachable: bool, agreed: bool, answers: Answers, closers: seq<bool>)
    | Cancel(player: Player)
    | Tick

  predicate MayAccept(r: Record) { (r.state == Acknowledge || r.state == Initiated) && r.partner != null }
}
