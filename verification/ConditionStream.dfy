/** The conditions of a player as bytes, written at logout and read back at login. */
module ConditionStream {
  import opened Options
  import opened Words
  import opened Sums
  import opened Streams

  const TYPE: Byte := 1
  const ID: Byte := 2
  const TICKS: Byte := 3
  const DELAYED: Byte := 6
  const OWNER: Byte := 7
  const INTERVAL_DATA: Byte := 8
  const SPEED_DELTA: Byte := 9
  const LIGHT_COLOR: Byte := 14
  const LIGHT_LEVEL: Byte := 15
  const SKILLS: Byte := 18
  const STATS: Byte := 19
  const OUTFIT: Byte := 20
  const PERIOD_DAMAGE: Byte := 21
  const IS_BUFF: Byte := 22
  const SUB_ID: Byte := 23
  const END: Byte := 254

  const SKILL_COUNT := 7
  const STAT_COUNT := 1
  const OUTFIT_SIZE := 12

  datatype Interval = Interval(timeLeft: int, value: int, interval: int)

  /** What the class of a condition adds: plain numbers are kept by their tags. */
  datatype Extra =
    | Generic
    | Damage(delayed: bool, periodDamage: int, damageList: seq<Interval>)
    | Numbers(tags: seq<Byte>, values: map<Byte, int>)
    | Outfit(raw: seq<Byte>)
    | Attributes(skills: seq<int>, stats: seq<int>, currentSkill: nat, currentStat: nat)

  datatype Condition = Condition(ctype: int, id: int, ticks: int, isBuff: bool, subId: int, extra: Extra)

  const REGENERATION: seq<Byte> := [4, 5]
  const SPEED: seq<Byte> := [9, 10, 11, 12, 13]
  const LIGHT: seq<Byte> := [14, 15, 16, 17]

  function Zeros(n: nat): seq<int> { seq(n, i => 0) }

  function ZeroBytes(n: nat): seq<Byte> { seq(n, i => 0) }

  function Blank(tags: seq<Byte>): map<Byte, int> { map t | t in tags :: 0 }

  /** The class that a condition type creates, with its fields as constructed. */
  function NewExtra(ctype: int): Option<Extra> {
    if ctype in {0x1, 0x2, 0x4, 0x2000, 0x4_0000, 0x8_0000, 0x10_0000, 0x8} then Some(Damage(false, 0, []))
    else if ctype in {0x10, 0x20} then Some(Numbers(SPEED, Blank(SPEED)))
    else if ctype == 0x40 then Some(Outfit(ZeroBytes(OUTFIT_SIZE)))
    else if ctype == 0x100 then Some(Numbers(LIGHT, Blank(LIGHT)))
    else if ctype == 0x1000 then Some(Numbers(REGENERATION, Blank(REGENERATION)[4 := 1000]))
    else if ctype == 0x2_0000 then Some(Attributes(Zeros(SKILL_COUNT), Zeros(STAT_COUNT), 0, 0))
    else if ctype in {0x80, 0x400, 0x800, 0x4000, 0x8000, 0x1_0000, 0x20_0000, 0x40_0000, 0x80_0000, 0x100_0000}
      then Some(Generic)
    else None
  }

  /** `createCondition`: damage conditions start without any ticks. */
  function Create(ctype: int, id: int, ticks: int, isBuff: bool, subId: int): Option<Condition> {
    var extra := NewExtra(ctype);
    if extra.None? then None
    else Some(Condition(ctype, id, if extra.value.Damage? then 0 else ticks, isBuff, subId, extra.value))
  }

  const MUTED := 0x4000

  predicate IsPersistent(c: Condition) {
    c.ticks != -1 && (c.id == -1 || c.id == 0 || c.ctype == MUTED)
  }

  // ---------- writing ----------

  function Base(c: Condition): seq<Byte> {
    [TYPE] + (Bytes(c.ctype, 4) + ([ID] + (Bytes(c.id, 4) + ([TICKS] + (Bytes(c.ticks, 4) +
    ([IS_BUFF, if c.isBuff then 1 else 0] + ([SUB_ID] + Bytes(c.subId, 4))))))))
  }

  function IntervalBytes(i: Interval): seq<Byte> {
    [INTERVAL_DATA] + (Bytes(i.timeLeft, 4) + (Bytes(i.value, 4) + Bytes(i.interval, 4)))
  }

  function IntervalsBytes(list: seq<Interval>): seq<Byte> {
    if list == [] then [] else IntervalBytes(list[0]) + IntervalsBytes(list[1..])
  }

  function NumbersBytes(tags: seq<Byte>, values: map<Byte, int>): seq<Byte>
    requires forall t :: t in tags ==> t in values
  {
    if tags == [] then [] else ([tags[0]] + Bytes(values[tags[0]], 4)) + NumbersBytes(tags[1..], values)
  }

  function ListBytes(tag: Byte, list: seq<int>): seq<Byte> {
    if list == [] then [] else ([tag] + Bytes(list[0], 4)) + ListBytes(tag, list[1..])
  }

  ghost predicate Complete(c: Condition) {
    c.extra.Numbers? ==> forall t :: t in c.extra.tags ==> t in c.extra.values
  }

  function ExtraBytes(e: Extra): seq<Byte>
    requires e.Numbers? ==> forall t :: t in e.tags ==> t in e.values
  {
    match e
    case Generic => []
    case Damage(delayed, period, list) =>
      [DELAYED, if delayed then 1 else 0] + (([PERIOD_DAMAGE] + Bytes(period, 4)) + IntervalsBytes(list))
    case Numbers(tags, values) => NumbersBytes(tags, values)
    case Outfit(raw) => [OUTFIT] + raw
    case Attributes(skills, stats, _, _) => ListBytes(SKILLS, skills) + ListBytes(STATS, stats)
  }

  function Save(c: Condition): seq<Byte>
    requires Complete(c)
  {
    Base(c) + (ExtraBytes(c.extra) + [END])
  }

  function SaveAll(cs: seq<Condition>): seq<Byte>
    requires forall i :: 0 <= i < |cs| ==> Complete(cs[i])
  {
    if cs == [] then []
    else (if IsPersistent(cs[0]) then Save(cs[0]) else []) + SaveAll(cs[1..])
  }

  // ---------- reading ----------

  function Stored(tag: Byte, v: nat): int {
    if tag == SPEED_DELTA then I32(v) else if tag == LIGHT_COLOR || tag == LIGHT_LEVEL then U8(v) else v
  }

  function AddInterval(c: Condition, i: Interval): Condition
    requires c.extra.Damage?
  {
    c.(extra := c.extra.(damageList := c.extra.damageList + [i]),
       ticks := if c.ticks != -1 then c.ticks + i.interval else c.ticks)
  }

  /** Entries past the end of the two arrays are refused; the source would write outside them. */
  function ReadExtra(c: Condition, tag: Byte, b: seq<Byte>, p: nat): Option<(Condition, nat)> {
    match c.extra
    case Generic => None
    case Damage(_, _, list) =>
      if tag == DELAYED then
        if p < |b| then Some((c.(extra := c.extra.(delayed := b[p] != 0)), p + 1)) else None
      else if tag == PERIOD_DAMAGE then
        var v := ReadInt(b, p, 4);
        if v.None? then None else Some((c.(extra := c.extra.(periodDamage := I32(v.value))), p + 4))
      else if tag == OWNER then if p + 4 <= |b| then Some((c, p + 4)) else None
      else if tag == INTERVAL_DATA then ReadInterval(c, b, p)
      else None
    case Numbers(tags, values) =>
      if tag !in tags then None
      else
        var v := ReadInt(b, p, 4);
        if v.None? then None
        else Some((c.(extra := c.extra.(values := values[tag := Stored(tag, v.value)])), p + 4))
    case Outfit(_) =>
      if tag == OUTFIT && p + OUTFIT_SIZE <= |b| then
        Some((c.(extra := Outfit(b[p..p + OUTFIT_SIZE])), p + OUTFIT_SIZE))
      else None
    case Attributes(skills, stats, k, l) =>
      var v := ReadInt(b, p, 4);
      if v.None? then None
      else if tag == SKILLS && k < |skills| then
        Some((c.(extra := Attributes(skills[k := I32(v.value)], stats, k + 1, l)), p + 4))
      else if tag == STATS && l < |stats| then
        Some((c.(extra := Attributes(skills, stats[l := I32(v.value)], k, l + 1)), p + 4))
      else None
  }

  function ReadInterval(c: Condition, b: seq<Byte>, p: nat): Option<(Condition, nat)>
    requires c.extra.Damage?
  {
    var timeLeft, value, interval := ReadInt(b, p, 4), ReadInt(b, p + 4, 4), ReadInt(b, p + 8, 4);
    if interval.None? || value.None? || timeLeft.None? then None
    else Some((AddInterval(c, Interval(I32(timeLeft.value), I32(value.value), I32(interval.value))), p + 12))
  }

  predicate OwnTag(e: Extra, tag: Byte) {
    match e
    case Generic => false
    case Damage(_, _, _) => tag == DELAYED || tag == PERIOD_DAMAGE || tag == OWNER || tag == INTERVAL_DATA
    case Numbers(tags, _) => tag in tags
    case Outfit(_) => tag == OUTFIT
    case Attributes(_, _, _, _) => tag == SKILLS || tag == STATS
  }

  /** `unserializeProp`: first the tags of the class, then those of every condition. */
  function ReadProp(c: Condition, tag: Byte, b: seq<Byte>, p: nat): (r: Option<(Condition, nat)>)
    ensures r.Some? ==> r.value.1 >= p
  {
    if OwnTag(c.extra, tag) then ReadExtra(c, tag, b, p)
    else if tag == IS_BUFF then if p < |b| then Some((c.(isBuff := b[p] != 0), p + 1)) else None
    else if tag == TYPE || tag == ID || tag == TICKS || tag == SUB_ID then
      var v := ReadInt(b, p, 4);
      if v.None? then None
      else if tag == TYPE then Some((c.(ctype := I32(v.value)), p + 4))
      else if tag == ID then Some((c.(id := I8(v.value)), p + 4))
      else if tag == TICKS then Some((c.(ticks := I32(v.value)), p + 4))
      else Some((c.(subId := v.value), p + 4))
    else if tag == END then Some((c, p))
    else None
  }

  /** Whether the properties could be read, the condition, and where the stream stands in either case. */
  function Unserialize(c: Condition, b: seq<Byte>, p: nat): (r: (bool, Condition, nat))
    ensures r.2 >= p
    decreases |b| - p
  {
    if p >= |b| then (true, c, p)
    else if b[p] == END then (true, c, p + 1)
    else
      var r := ReadProp(c, b[p], b, p + 1);
      if r.None? then (false, c, p + 1) else Unserialize(r.value.0, b, r.value.1)
  }

  /** `createCondition` on a stream: the five base properties, in order. */
  function ReadBase(b: seq<Byte>, p: nat): (r: Option<(Condition, nat)>)
    ensures r.Some? ==> r.value.1 > p
  {
    if p + 22 > |b| || b[p] != TYPE || b[p + 5] != ID || b[p + 10] != TICKS || b[p + 15] != IS_BUFF ||
      b[p + 17] != SUB_ID
    then None
    else
      var ctype, id, ticks, subId :=
        ReadInt(b, p + 1, 4).value, ReadInt(b, p + 6, 4).value, ReadInt(b, p + 11, 4).value,
        ReadInt(b, p + 18, 4).value;
      var c := Create(I32(ctype), I8(id), I32(ticks), b[p + 16] != 0, subId);
      if c.None? then None else Some((c.value, p + 22))
  }

  /** The login loop: every readable condition goes in front of the ones before it. */
  function LoadAll(stored: seq<Condition>, b: seq<Byte>, p: nat): seq<Condition>
    decreases |b| - p
  {
    var c := ReadBase(b, p);
    if c.None? then stored
    else
      var (ok, x, q) := Unserialize(c.value.0, b, c.value.1);
      LoadAll(if ok then [x] + stored else stored, b, q)
  }

  // ---------- what comes back ----------

  predicate Fits32(v: int) { -0x8000_0000 <= v < 0x8000_0000 }

  predicate NumberOk(tag: Byte, v: int) {
    if tag == SPEED_DELTA then Fits32(v)
    else if tag == LIGHT_COLOR || tag == LIGHT_LEVEL then 0 <= v < 0x100
    else 0 <= v < TWO32
  }

  predicate IntervalOk(i: Interval) { Fits32(i.timeLeft) && Fits32(i.value) && Fits32(i.interval) }

  /** The fields have the widths of the source, and the class is the one of the type. */
  ghost predicate Wide(c: Condition) {
    && Fits32(c.ctype) && -0x80 <= c.id < 0x80 && Fits32(c.ticks) && 0 <= c.subId < TWO32 && NewExtra(c.ctype).Some?
    && match NewExtra(c.ctype).value
       case Generic => c.extra.Generic?
       case Damage(_, _, _) => c.extra.Damage? && DamageOk(c.extra)
       case Numbers(tags, _) => c.extra.Numbers? && c.extra.tags == tags && NumbersOk(c.extra)
       case Outfit(_) => c.extra.Outfit? && |c.extra.raw| == OUTFIT_SIZE
       case Attributes(_, _, _, _) => c.extra.Attributes? && AttributesOk(c.extra)
  }

  ghost predicate DamageOk(e: Extra)
    requires e.Damage?
  {
    Fits32(e.periodDamage) && forall i :: 0 <= i < |e.damageList| ==> IntervalOk(e.damageList[i])
  }

  ghost predicate NumbersOk(e: Extra)
    requires e.Numbers?
  {
    (forall t :: t in e.values <==> t in e.tags) && forall t :: t in e.tags ==> NumberOk(t, e.values[t])
  }

  ghost predicate AttributesOk(e: Extra)
    requires e.Attributes?
  {
    && |e.skills| == SKILL_COUNT && |e.stats| == STAT_COUNT
    && (forall i :: 0 <= i < |e.skills| ==> Fits32(e.skills[i]))
    && (forall i :: 0 <= i < |e.stats| ==> Fits32(e.stats[i]))
  }

  /** The ticks gathered from a damage list: once they are -1 they stay. */
  function Gathered(ticks: int, list: seq<Interval>): int
    decreases |list|
  {
    if list == [] then ticks
    else Gathered(if ticks != -1 then ticks + list[0].interval else ticks, list[1..])
  }

  function Lengths(list: seq<Interval>): seq<int> { seq(|list|, i requires 0 <= i < |list| => list[i].interval) }

  /** No interval is negative, so the gathered ticks are the sum of the intervals. */
  lemma {:induction false} GatheredIsSum(ticks: nat, list: seq<Interval>)
    requires forall i :: 0 <= i < |list| ==> list[i].interval >= 0
    ensures Gathered(ticks, list) == ticks + Sum(Lengths(list))
    decreases |list|
  {
    if list != [] {
      GatheredIsSum(ticks + list[0].interval, list[1..]);
      assert Lengths(list)[1..] == Lengths(list[1..]);
    }
  }

  /** What a saved condition comes back as: only the ticks of damage are counted afresh. */
  function Normal(c: Condition): Condition {
    match c.extra
    case Damage(_, _, list) => c.(ticks := Gathered(0, list))
    case Attributes(skills, stats, _, _) => c.(extra := Attributes(skills, stats, |skills|, |stats|))
    case _ => c
  }

  // ---------- one property ----------

  lemma PropStep(c: Condition, b: seq<Byte>, p: nat, p1: nat, x: Condition, q: nat)
    requires p < |b| && b[p] != END && p1 == p + 1 && ReadProp(c, b[p], b, p1) == Some((x, q))
    ensures Unserialize(c, b, p) == Unserialize(x, b, q)
  {
  }

  /** A tag and a number of four bytes. */
  lemma TaggedNumber(b: seq<Byte>, p: nat, whole: seq<Byte>, tag: Byte, v: int, r: nat, p1: nat)
    requires Found(b, p, whole) && whole == [tag] + Bytes(v, 4) && r == Low(v, 4) && p1 == p + 1
    ensures p < |b| && b[p] == tag && ReadInt(b, p1, 4) == Some(r)
  {
    FoundOne(b, p, whole, tag, Bytes(v, 4), p1);
    ReadWritten(b, p1, v, 4, r);
  }

  lemma SignedBack(v: int)
    requires Fits32(v)
    ensures I32(Low(v, 4)) == v
  {
  }

  lemma NumberBack(tag: Byte, v: int)
    requires NumberOk(tag, v)
    ensures Stored(tag, Low(v, 4)) == v
  {
  }

  // ---------- the plain numbers of a class ----------

  function Filled(cur: map<Byte, int>, rest: seq<Byte>, values: map<Byte, int>): map<Byte, int>
    requires forall t :: t in rest ==> t in values
    decreases |rest|
  {
    if rest == [] then cur else Filled(cur[rest[0] := values[rest[0]]], rest[1..], values)
  }

  lemma {:induction false} FilledAt(cur: map<Byte, int>, rest: seq<Byte>, values: map<Byte, int>, t: Byte)
    requires forall t :: t in rest ==> t in values
    ensures t in Filled(cur, rest, values) <==> t in cur || t in rest
    ensures t in Filled(cur, rest, values) ==> Filled(cur, rest, values)[t] == if t in rest then values[t] else cur[t]
    decreases |rest|
  {
    if rest != [] {
      FilledAt(cur[rest[0] := values[rest[0]]], rest[1..], values, t);
    }
  }

  lemma FilledAll(cur: map<Byte, int>, tags: seq<Byte>, values: map<Byte, int>)
    requires forall t :: t in values <==> t in tags
    requires forall t :: t in cur ==> t in tags
    ensures Filled(cur, tags, values) == values
  {
    var all := Filled(cur, tags, values);
    forall t ensures t in all <==> t in values {
      FilledAt(cur, tags, values, t);
    }
    forall t | t in all ensures all[t] == values[t] {
      FilledAt(cur, tags, values, t);
    }
  }

  lemma {:induction false} NumbersRun(c: Condition, tags: seq<Byte>, cur: map<Byte, int>, rest: seq<Byte>,
                                      values: map<Byte, int>, b: seq<Byte>, p: nat, end: nat, x: Condition)
    requires c.extra == Numbers(tags, cur) && (forall t :: t in rest ==> t in tags && t in values)
    requires forall t :: t in rest ==> NumberOk(t, values[t]) && t != END
    requires Found(b, p, NumbersBytes(rest, values)) && end == p + |NumbersBytes(rest, values)|
    requires x == c.(extra := Numbers(tags, Filled(cur, rest, values)))
    ensures Unserialize(c, b, p) == Unserialize(x, b, end)
    decreases |rest|
  {
    if rest != [] {
      var tag, v := rest[0], values[rest[0]];
      var first, q := [tag] + Bytes(v, 4), p + 5;
      FoundSplit(b, p, NumbersBytes(rest, values), first, NumbersBytes(rest[1..], values), q);
      TaggedNumber(b, p, first, tag, v, Low(v, 4), p + 1);
      NumberBack(tag, v);
      var y := c.(extra := Numbers(tags, cur[tag := v]));
      PropStep(c, b, p, p + 1, y, q);
      NumbersRun(y, tags, cur[tag := v], rest[1..], values, b, q, end, x);
    } else {
      assert x == c && p == end;
    }
  }

  // ---------- skills and stats ----------

  /** A saved number of a list is read into the next place. */
  lemma SkillStep(c: Condition, cur: seq<int>, stats: seq<int>, k: nat, l: nat, v: int, b: seq<Byte>, p: nat, q: nat,
                  y: Condition)
    requires c.extra == Attributes(cur, stats, k, l) && k < |cur| && Fits32(v)
    requires Found(b, p, [SKILLS] + Bytes(v, 4)) && q == p + 5
    requires y == c.(extra := Attributes(cur[k := v], stats, k + 1, l))
    ensures Unserialize(c, b, p) == Unserialize(y, b, q)
  {
    TaggedNumber(b, p, [SKILLS] + Bytes(v, 4), SKILLS, v, Low(v, 4), p + 1);
    SignedBack(v);
    PropStep(c, b, p, p + 1, y, q);
  }

  lemma StatStep(c: Condition, skills: seq<int>, cur: seq<int>, k: nat, l: nat, v: int, b: seq<Byte>, p: nat, q: nat,
                 y: Condition)
    requires c.extra == Attributes(skills, cur, k, l) && l < |cur| && Fits32(v)
    requires Found(b, p, [STATS] + Bytes(v, 4)) && q == p + 5
    requires y == c.(extra := Attributes(skills, cur[l := v], k, l + 1))
    ensures Unserialize(c, b, p) == Unserialize(y, b, q)
  {
    TaggedNumber(b, p, [STATS] + Bytes(v, 4), STATS, v, Low(v, 4), p + 1);
    SignedBack(v);
    PropStep(c, b, p, p + 1, y, q);
  }

  lemma ListSplit(tag: Byte, list: seq<int>, b: seq<Byte>, p: nat, v: int, rest: seq<int>, q: nat)
    requires list == [v] + rest && Found(b, p, ListBytes(tag, list)) && q == p + 5
    ensures Found(b, p, [tag] + Bytes(v, 4)) && Found(b, q, ListBytes(tag, rest))
    ensures p + |ListBytes(tag, list)| == q + |ListBytes(tag, rest)|
  {
    assert list[0] == v && list[1..] == rest;
    FoundSplit(b, p, ListBytes(tag, list), [tag] + Bytes(v, 4), ListBytes(tag, rest), q);
  }

  lemma {:induction false} SkillsRun(c: Condition, skills: seq<int>, cur: seq<int>, stats: seq<int>, k: nat, l: nat,
                                     b: seq<Byte>, p: nat, end: nat, x: Condition)
    requires c.extra == Attributes(cur, stats, k, l) && |cur| == |skills| && k <= |skills| && cur[..k] == skills[..k]
    requires forall i :: 0 <= i < |skills| ==> Fits32(skills[i])
    requires Found(b, p, ListBytes(SKILLS, skills[k..])) && end == p + |ListBytes(SKILLS, skills[k..])|
    requires x == c.(extra := Attributes(skills, stats, |skills|, l))
    ensures Unserialize(c, b, p) == Unserialize(x, b, end)
    decreases |skills| - k
  {
    if k < |skills| {
      var v, q, next := skills[k], p + 5, cur[k := skills[k]];
      ListSplit(SKILLS, skills[k..], b, p, v, skills[k + 1..], q);
      var y := c.(extra := Attributes(next, stats, k + 1, l));
      SkillStep(c, cur, stats, k, l, v, b, p, q, y);
      assert next[..k + 1] == cur[..k] + [v] == skills[..k + 1];
      SkillsRun(y, skills, next, stats, k + 1, l, b, q, end, x);
    } else {
      assert cur[..k] == cur && skills[..k] == skills;
      assert x == c && p == end;
    }
  }

  lemma {:induction false} StatsRun(c: Condition, stats: seq<int>, cur: seq<int>, skills: seq<int>, k: nat, l: nat,
                                    b: seq<Byte>, p: nat, end: nat, x: Condition)
    requires c.extra == Attributes(skills, cur, k, l) && |cur| == |stats| && l <= |stats| && cur[..l] == stats[..l]
    requires forall i :: 0 <= i < |stats| ==> Fits32(stats[i])
    requires Found(b, p, ListBytes(STATS, stats[l..])) && end == p + |ListBytes(STATS, stats[l..])|
    requires x == c.(extra := Attributes(skills, stats, k, |stats|))
    ensures Unserialize(c, b, p) == Unserialize(x, b, end)
    decreases |stats| - l
  {
    if l < |stats| {
      var v, q, next := stats[l], p + 5, cur[l := stats[l]];
      ListSplit(STATS, stats[l..], b, p, v, stats[l + 1..], q);
      var y := c.(extra := Attributes(skills, next, k, l + 1));
      StatStep(c, skills, cur, k, l, v, b, p, q, y);
      assert next[..l + 1] == cur[..l] + [v] == stats[..l + 1];
      StatsRun(y, stats, next, skills, k, l + 1, b, q, end, x);
    } else {
      assert cur[..l] == cur && stats[..l] == stats;
      assert x == c && p == end;
    }
  }

  // ---------- the damage list ----------

  lemma IntervalFound(b: seq<Byte>, p: nat, i: Interval, p1: nat)
    requires IntervalOk(i) && Found(b, p, IntervalBytes(i)) && p1 == p + 1
    ensures p < |b| && b[p] == INTERVAL_DATA
    ensures ReadInt(b, p1, 4) == Some(Low(i.timeLeft, 4))
    ensures ReadInt(b, p1 + 4, 4) == Some(Low(i.value, 4))
    ensures ReadInt(b, p1 + 8, 4) == Some(Low(i.interval, 4))
  {
    var x, y, z := Bytes(i.timeLeft, 4), Bytes(i.value, 4), Bytes(i.interval, 4);
    FoundOne(b, p, IntervalBytes(i), INTERVAL_DATA, x + (y + z), p1);
    FoundSplit(b, p1, x + (y + z), x, y + z, p1 + 4);
    FoundSplit(b, p1 + 4, y + z, y, z, p1 + 8);
    ReadWritten(b, p1, i.timeLeft, 4, Low(i.timeLeft, 4));
    ReadWritten(b, p1 + 4, i.value, 4, Low(i.value, 4));
    ReadWritten(b, p1 + 8, i.interval, 4, Low(i.interval, 4));
  }

  lemma IntervalStep(c: Condition, b: seq<Byte>, p: nat, i: Interval, q: nat, x: Condition)
    requires c.extra.Damage? && IntervalOk(i) && Found(b, p, IntervalBytes(i)) && q == p + 13 && x == AddInterval(c, i)
    ensures Unserialize(c, b, p) == Unserialize(x, b, q)
  {
    IntervalFound(b, p, i, p + 1);
    SignedBack(i.timeLeft);
    SignedBack(i.value);
    SignedBack(i.interval);
    assert ReadInterval(c, b, p + 1) == Some((x, q));
    PropStep(c, b, p, p + 1, x, q);
  }

  lemma IntervalsSplit(b: seq<Byte>, p: nat, list: seq<Interval>, first: Interval, rest: seq<Interval>, q: nat,
                       end: nat)
    requires list != [] && list[0] == first && list[1..] == rest && Found(b, p, IntervalsBytes(list)) && q == p + 13
    requires end == p + |IntervalsBytes(list)|
    ensures Found(b, p, IntervalBytes(first)) && Found(b, q, IntervalsBytes(rest)) && end == q + |IntervalsBytes(rest)|
  {
    FoundSplit(b, p, IntervalsBytes(list), IntervalBytes(first), IntervalsBytes(rest), q);
  }

  /** Intervals that are ready to be read back. */
  ghost predicate ToRead(c: Condition, sofar: seq<Interval>, list: seq<Interval>, all: seq<Interval>, ticks: int,
                         x: Condition) {
    && c.extra.Damage? && c.extra.damageList == sofar && all == sofar + list && ticks == Gathered(c.ticks, list)
    && (forall i {:trigger IntervalOk(list[i])} :: 0 <= i < |list| ==> IntervalOk(list[i]))
    && x == c.(extra := c.extra.(damageList := all), ticks := ticks)
  }

  lemma OneRead(c: Condition, sofar: seq<Interval>, list: seq<Interval>, all: seq<Interval>, ticks: int, x: Condition,
                first: Interval, rest: seq<Interval>, y: Condition, sofar': seq<Interval>)
    requires ToRead(c, sofar, list, all, ticks, x) && list != [] && list[0] == first && list[1..] == rest
    requires y == AddInterval(c, first) && sofar' == sofar + [first]
    ensures IntervalOk(first) && ToRead(y, sofar', rest, all, ticks, x)
  {
    assert IntervalOk(list[0]) && list == [first] + rest;
    forall i {:trigger IntervalOk(rest[i])} | 0 <= i < |rest| ensures IntervalOk(rest[i]) {
      assert IntervalOk(list[i + 1]);
    }
  }

  lemma {:induction false} IntervalsRun(c: Condition, sofar: seq<Interval>, list: seq<Interval>, all: seq<Interval>,
                                        ticks: int, b: seq<Byte>, p: nat, end: nat, x: Condition)
    requires ToRead(c, sofar, list, all, ticks, x)
    requires Found(b, p, IntervalsBytes(list)) && end == p + |IntervalsBytes(list)|
    ensures Unserialize(c, b, p) == Unserialize(x, b, end)
    decreases |list|
  {
    if list == [] {
      assert all == sofar;
      assert x == c && p == end;
    } else {
      var first, rest, q := list[0], list[1..], p + 13;
      var y, sofar' := AddInterval(c, first), sofar + [first];
      OneRead(c, sofar, list, all, ticks, x, first, rest, y, sofar');
      IntervalsSplit(b, p, list, first, rest, q, end);
      IntervalStep(c, b, p, first, q, y);
      IntervalsRun(y, sofar', rest, all, ticks, b, q, end, x);
    }
  }

  // ---------- a whole condition ----------

  lemma DelayedStep(c: Condition, d: bool, byte: Byte, whole: seq<Byte>, rest: seq<Byte>, b: seq<Byte>, p: nat, q: nat,
                    x: Condition)
    requires c.extra.Damage? && byte == if d then 1 else 0
    requires Found(b, p, whole) && whole == [DELAYED, byte] + rest && q == p + 2
    requires x == c.(extra := c.extra.(delayed := d))
    ensures Unserialize(c, b, p) == Unserialize(x, b, q) && Found(b, q, rest)
  {
    FoundOne(b, p, whole, DELAYED, [byte] + rest, p + 1);
    FoundOne(b, p + 1, [byte] + rest, byte, rest, q);
    PropStep(c, b, p, p + 1, x, q);
  }

  lemma PeriodStep(c: Condition, v: int, whole: seq<Byte>, rest: seq<Byte>, b: seq<Byte>, p: nat, q: nat, x: Condition)
    requires c.extra.Damage? && Fits32(v) && Found(b, p, whole) && whole == ([PERIOD_DAMAGE] + Bytes(v, 4)) + rest
    requires q == p + 5 && x == c.(extra := c.extra.(periodDamage := v))
    ensures Unserialize(c, b, p) == Unserialize(x, b, q) && Found(b, q, rest)
  {
    FoundSplit(b, p, whole, [PERIOD_DAMAGE] + Bytes(v, 4), rest, q);
    TaggedNumber(b, p, [PERIOD_DAMAGE] + Bytes(v, 4), PERIOD_DAMAGE, v, Low(v, 4), p + 1);
    SignedBack(v);
    PropStep(c, b, p, p + 1, x, q);
  }

  lemma DamageRun(c: Condition, e: Extra, b: seq<Byte>, p: nat, end: nat, x: Condition)
    requires c.extra == Damage(false, 0, []) && e.Damage? && DamageOk(e)
    requires Found(b, p, ExtraBytes(e)) && end == p + |ExtraBytes(e)|
    requires x == c.(extra := e, ticks := Gathered(c.ticks, e.damageList))
    ensures Unserialize(c, b, p) == Unserialize(x, b, end)
  {
    var list := IntervalsBytes(e.damageList);
    var rest := ([PERIOD_DAMAGE] + Bytes(e.periodDamage, 4)) + list;
    var c1 := c.(extra := Damage(e.delayed, 0, []));
    var c2 := c.(extra := Damage(e.delayed, e.periodDamage, []));
    var q, r := p + 2, p + 7;
    assert end == r + |list|;
    DelayedStep(c, e.delayed, if e.delayed then 1 else 0, ExtraBytes(e), rest, b, p, q, c1);
    PeriodStep(c1, e.periodDamage, rest, list, b, q, r, c2);
    IntervalsRun(c2, [], e.damageList, e.damageList, x.ticks, b, r, end, x);
  }

  lemma AttributesRun(c: Condition, e: Extra, b: seq<Byte>, p: nat, end: nat, x: Condition)
    requires c.extra == Attributes(Zeros(SKILL_COUNT), Zeros(STAT_COUNT), 0, 0) && e.Attributes? && AttributesOk(e)
    requires Found(b, p, ExtraBytes(e)) && end == p + |ExtraBytes(e)|
    requires x == c.(extra := Attributes(e.skills, e.stats, |e.skills|, |e.stats|))
    ensures Unserialize(c, b, p) == Unserialize(x, b, end)
  {
    var skills, stats := ListBytes(SKILLS, e.skills), ListBytes(STATS, e.stats);
    var q := p + |skills|;
    FoundSplit(b, p, ExtraBytes(e), skills, stats, q);
    var c1 := c.(extra := Attributes(e.skills, Zeros(STAT_COUNT), |e.skills|, 0));
    assert e.skills[0..] == e.skills && e.stats[0..] == e.stats;
    SkillsRun(c, e.skills, Zeros(SKILL_COUNT), Zeros(STAT_COUNT), 0, 0, b, p, q, c1);
    StatsRun(c1, e.stats, Zeros(STAT_COUNT), e.skills, |e.skills|, 0, b, q, end, x);
  }

  lemma OutfitRun(c: Condition, raw: seq<Byte>, b: seq<Byte>, p: nat, end: nat, x: Condition)
    requires c.extra.Outfit? && |raw| == OUTFIT_SIZE && Found(b, p, [OUTFIT] + raw) && end == p + 1 + OUTFIT_SIZE
    requires x == c.(extra := Outfit(raw))
    ensures Unserialize(c, b, p) == Unserialize(x, b, end)
  {
    FoundOne(b, p, [OUTFIT] + raw, OUTFIT, raw, p + 1);
    PropStep(c, b, p, p + 1, x, end);
  }

  lemma NumbersAllRun(c: Condition, tags: seq<Byte>, cur: map<Byte, int>, values: map<Byte, int>, b: seq<Byte>, p: nat,
                      end: nat, x: Condition)
    requires c.extra == Numbers(tags, cur) && NumbersOk(Numbers(tags, values)) && END !in tags
    requires forall t :: t in cur ==> t in tags
    requires Found(b, p, NumbersBytes(tags, values)) && end == p + |NumbersBytes(tags, values)|
    requires x == c.(extra := Numbers(tags, values))
    ensures Unserialize(c, b, p) == Unserialize(x, b, end)
  {
    FilledAll(cur, tags, values);
    NumbersRun(c, tags, cur, tags, values, b, p, end, x);
  }

  lemma NewNumbers(ctype: int)
    requires NewExtra(ctype).Some? && NewExtra(ctype).value.Numbers?
    ensures var e := NewExtra(ctype).value; END !in e.tags && forall t :: t in e.values ==> t in e.tags
  {
  }

  /** All that a class wrote is read back. */
  lemma ExtraRun(c: Condition, fresh0: Condition, b: seq<Byte>, p: nat, end: nat)
    requires Wide(c) && Complete(c) && Create(c.ctype, c.id, c.ticks, c.isBuff, c.subId) == Some(fresh0)
    requires Found(b, p, ExtraBytes(c.extra)) && end == p + |ExtraBytes(c.extra)|
    ensures Unserialize(fresh0, b, p) == Unserialize(Normal(c), b, end)
  {
    match c.extra {
      case Generic => assert fresh0 == c && p == end;
      case Damage(_, _, _) => DamageRun(fresh0, c.extra, b, p, end, Normal(c));
      case Numbers(tags, values) =>
        NewNumbers(c.ctype);
        NumbersAllRun(fresh0, tags, fresh0.extra.values, values, b, p, end, c);
      case Outfit(raw) => OutfitRun(fresh0, raw, b, p, end, c);
      case Attributes(_, _, _, _) => AttributesRun(fresh0, c.extra, b, p, end, Normal(c));
    }
  }

  lemma BaseFound(c: Condition, b: seq<Byte>, p: nat, q: nat, buff: Byte)
    requires Found(b, p, Base(c)) && q == p + 22 && buff == if c.isBuff then 1 else 0
    ensures q <= |b| && b[p] == TYPE && b[p + 5] == ID && b[p + 10] == TICKS && b[p + 15] == IS_BUFF
    ensures b[p + 17] == SUB_ID
    ensures b[p + 16] == buff
    ensures ReadInt(b, p + 1, 4) == Some(Low(c.ctype, 4)) && ReadInt(b, p + 6, 4) == Some(Low(c.id, 4))
    ensures ReadInt(b, p + 11, 4) == Some(Low(c.ticks, 4)) && ReadInt(b, p + 18, 4) == Some(Low(c.subId, 4))
  {
    var d := [IS_BUFF, buff] + ([SUB_ID] + Bytes(c.subId, 4));
    var t := [TICKS] + (Bytes(c.ticks, 4) + d);
    var i := [ID] + (Bytes(c.id, 4) + t);
    NumberFound(b, p, Base(c), TYPE, c.ctype, i, p + 1, p + 5);
    NumberFound(b, p + 5, i, ID, c.id, t, p + 6, p + 10);
    NumberFound(b, p + 10, t, TICKS, c.ticks, d, p + 11, p + 15);
    FlagFound(b, p + 15, buff, c.subId, p + 16, p + 17, p + 18, q);
  }

  lemma FlagFound(b: seq<Byte>, p: nat, buff: Byte, subId: int, p1: nat, p2: nat, p3: nat, q: nat)
    requires Found(b, p, [IS_BUFF, buff] + ([SUB_ID] + Bytes(subId, 4)))
    requires p1 == p + 1 && p2 == p + 2 && p3 == p + 3 && q == p + 7
    ensures q <= |b| && b[p] == IS_BUFF && b[p1] == buff && b[p2] == SUB_ID && ReadInt(b, p3, 4) == Some(Low(subId, 4))
  {
    var e := [SUB_ID] + Bytes(subId, 4);
    var d := [buff] + e;
    assert [IS_BUFF, buff] + e == [IS_BUFF] + d;
    FoundOne(b, p, [IS_BUFF, buff] + e, IS_BUFF, d, p1);
    FoundOne(b, p1, d, buff, e, p2);
    NumberFound(b, p2, e, SUB_ID, subId, [], p3, q);
  }

  /** The five base properties are read back and create the condition anew. */
  lemma BaseRead(c: Condition, b: seq<Byte>, p: nat, q: nat)
    requires Wide(c) && Found(b, p, Base(c)) && q == p + 22
    ensures Create(c.ctype, c.id, c.ticks, c.isBuff, c.subId).Some?
    ensures ReadBase(b, p) == Some((Create(c.ctype, c.id, c.ticks, c.isBuff, c.subId).value, q))
  {
    BaseFound(c, b, p, q, if c.isBuff then 1 else 0);
    BaseIs(c, b, p, q, Low(c.ctype, 4), Low(c.id, 4), Low(c.ticks, 4));
  }

  lemma BaseIs(c: Condition, b: seq<Byte>, p: nat, q: nat, ctype: nat, id: nat, ticks: nat)
    requires Wide(c) && q == p + 22 && q <= |b|
    requires b[p] == TYPE && b[p + 5] == ID && b[p + 10] == TICKS && b[p + 15] == IS_BUFF && b[p + 17] == SUB_ID
    requires b[p + 16] == if c.isBuff then 1 else 0
    requires ctype == Low(c.ctype, 4) && id == Low(c.id, 4) && ticks == Low(c.ticks, 4)
    requires ReadInt(b, p + 1, 4) == Some(ctype) && ReadInt(b, p + 6, 4) == Some(id)
    requires ReadInt(b, p + 11, 4) == Some(ticks) && ReadInt(b, p + 18, 4) == Some(Low(c.subId, 4))
    ensures ReadBase(b, p) == Some((Create(c.ctype, c.id, c.ticks, c.isBuff, c.subId).value, q))
  {
    SignedBack(c.ctype);
    SignedBack(c.ticks);
    SmallBack(c.id);
    assert I32(ctype) == c.ctype && I8(id) == c.id && I32(ticks) == c.ticks && Low(c.subId, 4) == c.subId;
  }

  lemma NumberFound(b: seq<Byte>, p: nat, whole: seq<Byte>, tag: Byte, v: int, rest: seq<Byte>, p1: nat, q: nat)
    requires Found(b, p, whole)
    requires whole == [tag] + (Bytes(v, 4) + rest) || (rest == [] && whole == [tag] + Bytes(v, 4))
    requires p1 == p + 1 && q == p + 5
    ensures q <= |b| && b[p] == tag && ReadInt(b, p1, 4) == Some(Low(v, 4)) && Found(b, q, rest)
  {
    if rest == [] {
      assert Bytes(v, 4) + rest == Bytes(v, 4);
    }
    FoundOne(b, p, whole, tag, Bytes(v, 4) + rest, p1);
    FoundSplit(b, p1, Bytes(v, 4) + rest, Bytes(v, 4), rest, q);
    ReadWritten(b, p1, v, 4, Low(v, 4));
  }

  lemma SmallBack(v: int)
    requires -0x80 <= v < 0x80
    ensures I8(Low(v, 4)) == v
  {
  }

  lemma {:induction false} ConditionRead(c: Condition, b: seq<Byte>, p: nat, end: nat) returns (q: nat)
    requires Wide(c) && Complete(c) && Found(b, p, Save(c)) && end == p + |Save(c)|
    ensures ReadBase(b, p).Some? && ReadBase(b, p).value.1 == q
    ensures Unserialize(ReadBase(b, p).value.0, b, q) == (true, Normal(c), end)
  {
    q := p + 22;
    var r := q + |ExtraBytes(c.extra)|;
    SavedParts(c, b, p, q, r, end);
    BaseRead(c, b, p, q);
    ExtraRun(c, ReadBase(b, p).value.0, b, q, r);
    EndRead(Normal(c), b, r, end);
  }

  lemma SavedParts(c: Condition, b: seq<Byte>, p: nat, q: nat, r: nat, end: nat)
    requires Complete(c) && Found(b, p, Save(c)) && end == p + |Save(c)| && q == p + 22
    requires r == q + |ExtraBytes(c.extra)|
    ensures Found(b, p, Base(c)) && Found(b, q, ExtraBytes(c.extra)) && r < |b| && b[r] == END && end == r + 1
  {
    var extra := ExtraBytes(c.extra);
    FoundSplit(b, p, Save(c), Base(c), extra + [END], q);
    FoundSplit(b, q, extra + [END], extra, [END], r);
    FoundOne(b, r, [END], END, [], end);
  }

  lemma EndRead(c: Condition, b: seq<Byte>, r: nat, end: nat)
    requires r < |b| && b[r] == END && end == r + 1
    ensures Unserialize(c, b, r) == (true, c, end)
  {
  }

  // ---------- all conditions ----------

  /** The persistent conditions as they come back, the last one first. */
  function Back(cs: seq<Condition>): seq<Condition> {
    if cs == [] then [] else Back(cs[1..]) + if IsPersistent(cs[0]) then [Normal(cs[0])] else []
  }

  lemma {:induction false} AllRead(stored: seq<Condition>, cs: seq<Condition>, b: seq<Byte>, p: nat)
    requires forall i :: 0 <= i < |cs| ==> Complete(cs[i]) && Wide(cs[i])
    requires Found(b, p, SaveAll(cs)) && p + |SaveAll(cs)| == |b|
    ensures LoadAll(stored, b, p) == Back(cs) + stored
    decreases |cs|
  {
    if cs == [] {
      assert Back(cs) + stored == stored;
    } else {
      var first := if IsPersistent(cs[0]) then Save(cs[0]) else [];
      var q := p + |first|;
      FoundSplit(b, p, SaveAll(cs), first, SaveAll(cs[1..]), q);
      if IsPersistent(cs[0]) {
        var r := ConditionRead(cs[0], b, p, q);
        AllRead([Normal(cs[0])] + stored, cs[1..], b, q);
        Reassociate(Back(cs[1..]), [Normal(cs[0])], stored);
      } else {
        AllRead(stored, cs[1..], b, q);
        assert Back(cs) == Back(cs[1..]);
      }
    }
  }

  // ---------- the writer ----------

  method PutNumber(tag: Byte, v: int, stream: PropWriteStream)
    modifies stream
    ensures stream.buffer == old(stream.buffer) + ([tag] + Bytes(v, 4))
  {
    ghost var before := stream.buffer;
    stream.WriteByte(tag);
    stream.Write(v, 4);
    Reassociate(before, [tag], Bytes(v, 4));
  }

  method PutBase(c: Condition, stream: PropWriteStream)
    modifies stream
    ensures stream.buffer == old(stream.buffer) + Base(c)
  {
    ghost var before := stream.buffer;
    PutNumber(TYPE, c.ctype, stream);
    PutNumber(ID, c.id, stream);
    PutNumber(TICKS, c.ticks, stream);
    stream.WriteByte(IS_BUFF);
    stream.WriteByte(if c.isBuff then 1 else 0);
    PutNumber(SUB_ID, c.subId, stream);
    BaseJoined(before, c);
  }

  lemma BaseJoined(before: seq<Byte>, c: Condition)
    ensures ((((((before + ([TYPE] + Bytes(c.ctype, 4))) + ([ID] + Bytes(c.id, 4))) + ([TICKS] + Bytes(c.ticks, 4)))
      + [IS_BUFF]) + [if c.isBuff then 1 else 0]) + ([SUB_ID] + Bytes(c.subId, 4))) == before + Base(c)
  {
    var t, i, k, s := Bytes(c.ctype, 4), Bytes(c.id, 4), Bytes(c.ticks, 4), [SUB_ID] + Bytes(c.subId, 4);
    var buff: Byte := if c.isBuff then 1 else 0;
    var r2 := [IS_BUFF, buff] + s;
    var r1 := ([TICKS] + k) + r2;
    var r0 := ([ID] + i) + r1;
    Reassociate([TICKS], k, r2);
    Reassociate([ID], i, r1);
    Reassociate([TYPE], t, r0);
    assert Base(c) == ([TYPE] + t) + r0;
    var b1 := before + ([TYPE] + t);
    var b2 := b1 + ([ID] + i);
    var b3 := b2 + ([TICKS] + k);
    Reassociate(before, [TYPE] + t, r0);
    Reassociate(b1, [ID] + i, r1);
    Reassociate(b2, [TICKS] + k, r2);
    FlagJoined(b3, buff, s);
  }

  lemma FlagJoined(before: seq<Byte>, buff: Byte, s: seq<Byte>)
    ensures ((before + [IS_BUFF]) + [buff]) + s == before + ([IS_BUFF, buff] + s)
  {
    assert (before + [IS_BUFF]) + [buff] == before + [IS_BUFF, buff];
  }

  method PutIntervals(list: seq<Interval>, stream: PropWriteStream)
    modifies stream
    ensures stream.buffer == old(stream.buffer) + IntervalsBytes(list)
  {
    ghost var start := stream.buffer;
    var i := 0;
    while i < |list|
      invariant 0 <= i <= |list|
      invariant stream.buffer + IntervalsBytes(list[i..]) == start + IntervalsBytes(list)
    {
      ghost var before := stream.buffer;
      PutInterval(list[i], stream);
      assert list[i..][0] == list[i] && list[i..][1..] == list[i + 1..];
      Reassociate(before, IntervalBytes(list[i]), IntervalsBytes(list[i + 1..]));
      i := i + 1;
    }
    assert stream.buffer + [] == stream.buffer;
  }

  method PutInterval(i: Interval, stream: PropWriteStream)
    modifies stream
    ensures stream.buffer == old(stream.buffer) + IntervalBytes(i)
  {
    ghost var before := stream.buffer;
    stream.WriteByte(INTERVAL_DATA);
    stream.Write(i.timeLeft, 4);
    stream.Write(i.value, 4);
    stream.Write(i.interval, 4);
    ghost var x, y, z := Bytes(i.timeLeft, 4), Bytes(i.value, 4), Bytes(i.interval, 4);
    Reassociate((before + [INTERVAL_DATA]) + x, y, z);
    Reassociate(before + [INTERVAL_DATA], x, y + z);
    Reassociate(before, [INTERVAL_DATA], x + (y + z));
  }

  method PutNumbers(tags: seq<Byte>, values: map<Byte, int>, stream: PropWriteStream)
    requires forall t :: t in tags ==> t in values
    modifies stream
    ensures stream.buffer == old(stream.buffer) + NumbersBytes(tags, values)
  {
    ghost var start := stream.buffer;
    var i := 0;
    while i < |tags|
      invariant 0 <= i <= |tags|
      invariant stream.buffer + NumbersBytes(tags[i..], values) == start + NumbersBytes(tags, values)
    {
      ghost var before := stream.buffer;
      PutNumber(tags[i], values[tags[i]], stream);
      assert tags[i..][0] == tags[i] && tags[i..][1..] == tags[i + 1..];
      Reassociate(before, [tags[i]] + Bytes(values[tags[i]], 4), NumbersBytes(tags[i + 1..], values));
      i := i + 1;
    }
    assert stream.buffer + [] == stream.buffer;
  }

  method PutList(tag: Byte, list: seq<int>, stream: PropWriteStream)
    modifies stream
    ensures stream.buffer == old(stream.buffer) + ListBytes(tag, list)
  {
    ghost var start := stream.buffer;
    var i := 0;
    while i < |list|
      invariant 0 <= i <= |list|
      invariant stream.buffer + ListBytes(tag, list[i..]) == start + ListBytes(tag, list)
    {
      ghost var before := stream.buffer;
      PutNumber(tag, list[i], stream);
      assert list[i..][0] == list[i] && list[i..][1..] == list[i + 1..];
      Reassociate(before, [tag] + Bytes(list[i], 4), ListBytes(tag, list[i + 1..]));
      i := i + 1;
    }
    assert stream.buffer + [] == stream.buffer;
  }

  method PutDamage(e: Extra, stream: PropWriteStream)
    requires e.Damage?
    modifies stream
    ensures stream.buffer == old(stream.buffer) + ExtraBytes(e)
  {
    ghost var before := stream.buffer;
    var delayed: Byte := if e.delayed then 1 else 0;
    stream.WriteByte(DELAYED);
    stream.WriteByte(delayed);
    PutNumber(PERIOD_DAMAGE, e.periodDamage, stream);
    PutIntervals(e.damageList, stream);
    ghost var period, list := [PERIOD_DAMAGE] + Bytes(e.periodDamage, 4), IntervalsBytes(e.damageList);
    assert (before + [DELAYED]) + [delayed] == before + [DELAYED, delayed];
    Reassociate(before + [DELAYED, delayed], period, list);
    Reassociate(before, [DELAYED, delayed], period + list);
  }

  /** `serialize` of each class. */
  method Serialize(c: Condition, stream: PropWriteStream)
    requires Complete(c)
    modifies stream
    ensures stream.buffer == old(stream.buffer) + Base(c) + ExtraBytes(c.extra)
  {
    PutBase(c, stream);
    ghost var before := stream.buffer;
    match c.extra {
      case Generic => assert before + [] == before;
      case Damage(_, _, _) => PutDamage(c.extra, stream);
      case Numbers(tags, values) => PutNumbers(tags, values, stream);
      case Outfit(raw) =>
        stream.WriteByte(OUTFIT);
        stream.buffer := stream.buffer + raw;
        Reassociate(before, [OUTFIT], raw);
      case Attributes(skills, stats, _, _) =>
        PutList(SKILLS, skills, stream);
        PutList(STATS, stats, stream);
        Reassociate(before, ListBytes(SKILLS, skills), ListBytes(STATS, stats));
    }
  }

  /** The logout loop: every persistent condition, each with its end tag. */
  method SaveConditions(cs: seq<Condition>, stream: PropWriteStream)
    requires forall i :: 0 <= i < |cs| ==> Complete(cs[i])
    modifies stream
    ensures stream.buffer == old(stream.buffer) + SaveAll(cs)
  {
    ghost var start := stream.buffer;
    var i := 0;
    while i < |cs|
      invariant 0 <= i <= |cs|
      invariant stream.buffer + SaveAll(cs[i..]) == start + SaveAll(cs)
    {
      assert cs[i..][0] == cs[i] && cs[i..][1..] == cs[i + 1..];
      ghost var before, rest := stream.buffer, SaveAll(cs[i + 1..]);
      if IsPersistent(cs[i]) {
        Serialize(cs[i], stream);
        stream.WriteByte(END);
        ghost var base, extra := Base(cs[i]), ExtraBytes(cs[i].extra);
        Reassociate(before + base, extra, [END]);
        Reassociate(before, base, extra + [END]);
        Reassociate(before, Save(cs[i]), rest);
      } else {
        assert SaveAll(cs[i..]) == rest;
      }
      i := i + 1;
    }
    assert stream.buffer + [] == stream.buffer;
  }

  // ---------- the reader ----------

  method GetInterval(c: Condition, s: PropStream) returns (ok: bool, x: Condition)
    requires s.Valid() && c.extra.Damage?
    modifies s`p
    ensures s.Valid() && ok == ReadInterval(c, s.data, old(s.p)).Some?
    ensures ok ==> ReadInterval(c, s.data, old(s.p)) == Some((x, s.p))
    ensures !ok ==> s.p == old(s.p)
  {
    x := c;
    var p := s.p;
    ok := s.Skip(12);
    if ok {
      var timeLeft, value, interval :=
        Value(s.data[p..p + 4]), Value(s.data[p + 4..p + 8]), Value(s.data[p + 8..p + 12]);
      x := AddInterval(c, Interval(I32(timeLeft), I32(value), I32(interval)));
    }
  }

  /** `unserializeProp` of each class, for the tags it knows itself. */
  method GetExtra(c: Condition, tag: Byte, s: PropStream) returns (ok: bool, x: Condition)
    requires s.Valid() && OwnTag(c.extra, tag)
    modifies s`p
    ensures s.Valid() && ok == ReadExtra(c, tag, s.data, old(s.p)).Some?
    ensures ok ==> ReadExtra(c, tag, s.data, old(s.p)) == Some((x, s.p))
    ensures !ok ==> s.p == old(s.p)
  {
    x := c;
    match c.extra {
      case Generic => ok := false;
      case Damage(_, _, _) => ok, x := GetDamage(c, tag, s);
      case Numbers(tags, values) =>
        var v;
        ok, v := s.Read(4);
        if ok {
          x := c.(extra := Numbers(tags, values[tag := Stored(tag, v)]));
        }
      case Outfit(_) =>
        var p := s.p;
        ok := s.Skip(OUTFIT_SIZE);
        if ok {
          x := c.(extra := Outfit(s.data[p..p + OUTFIT_SIZE]));
        }
      case Attributes(skills, stats, k, l) =>
        if (tag == SKILLS && k >= |skills|) || (tag == STATS && l >= |stats|) {
          return false, x;
        }
        var v;
        ok, v := s.Read(4);
        if ok {
          x := c.(extra := if tag == SKILLS then Attributes(skills[k := I32(v)], stats, k + 1, l)
                           else Attributes(skills, stats[l := I32(v)], k, l + 1));
        }
    }
  }

  method GetDamage(c: Condition, tag: Byte, s: PropStream) returns (ok: bool, x: Condition)
    requires s.Valid() && c.extra.Damage? && OwnTag(c.extra, tag)
    modifies s`p
    ensures s.Valid() && ok == ReadExtra(c, tag, s.data, old(s.p)).Some?
    ensures ok ==> ReadExtra(c, tag, s.data, old(s.p)) == Some((x, s.p))
    ensures !ok ==> s.p == old(s.p)
  {
    x := c;
    if tag == DELAYED {
      var d;
      ok, d := s.ReadByte();
      if ok {
        x := c.(extra := c.extra.(delayed := d != 0));
      }
    } else if tag == PERIOD_DAMAGE {
      var v;
      ok, v := s.Read(4);
      if ok {
        x := c.(extra := c.extra.(periodDamage := I32(v)));
      }
    } else if tag == OWNER {
      ok := s.Skip(4);
    } else {
      ok, x := GetInterval(c, s);
    }
  }

  method GetProp(c: Condition, tag: Byte, s: PropStream) returns (ok: bool, x: Condition)
    requires s.Valid()
    modifies s`p
    ensures s.Valid() && ok == ReadProp(c, tag, s.data, old(s.p)).Some?
    ensures ok ==> ReadProp(c, tag, s.data, old(s.p)) == Some((x, s.p))
    ensures !ok ==> s.p == old(s.p)
  {
    x := c;
    if OwnTag(c.extra, tag) {
      ok, x := GetExtra(c, tag, s);
    } else if tag == IS_BUFF {
      var d;
      ok, d := s.ReadByte();
      if ok {
        x := c.(isBuff := d != 0);
      }
    } else if tag == TYPE || tag == ID || tag == TICKS || tag == SUB_ID {
      var v;
      ok, v := s.Read(4);
      if ok {
        x := if tag == TYPE then c.(ctype := I32(v))
             else if tag == ID then c.(id := I8(v))
             else if tag == TICKS then c.(ticks := I32(v))
             else c.(subId := v);
      }
    } else {
      ok := tag == END;
    }
  }

  method UnserializeCondition(c: Condition, s: PropStream) returns (ok: bool, x: Condition)
    requires s.Valid()
    modifies s`p
    ensures s.Valid() && s.p >= old(s.p)
    ensures Unserialize(c, s.data, old(s.p)).0 == ok && Unserialize(c, s.data, old(s.p)).2 == s.p
    ensures ok ==> Unserialize(c, s.data, old(s.p)).1 == x
  {
    x := c;
    while true
      invariant s.Valid() && s.p >= old(s.p)
      invariant Unserialize(x, s.data, s.p) == Unserialize(c, s.data, old(s.p))
      decreases |s.data| - s.p
    {
      var more, tag := s.ReadByte();
      if !more || tag == END {
        return true, x;
      }
      ok, x := GetProp(x, tag, s);
      if !ok {
        return;
      }
    }
  }

  method GetTagged(tag: Byte, s: PropStream) returns (ok: bool, v: nat)
    requires s.Valid()
    modifies s`p
    ensures s.Valid() && s.p >= old(s.p)
    ensures ok <==> old(s.p) + 5 <= |s.data| && s.data[old(s.p)] == tag
    ensures ok ==> ReadInt(s.data, old(s.p) + 1, 4) == Some(v) && s.p == old(s.p) + 5
  {
    v := 0;
    var attr;
    ok, attr := s.ReadByte();
    if !ok || attr != tag {
      return false, 0;
    }
    ok, v := s.Read(4);
  }

  method CreateFromStream(s: PropStream) returns (c: Option<Condition>)
    requires s.Valid()
    modifies s`p
    ensures s.Valid() && s.p >= old(s.p) && c.Some? == ReadBase(s.data, old(s.p)).Some?
    ensures c.Some? ==> ReadBase(s.data, old(s.p)) == Some((c.value, s.p))
  {
    var ok, ctype := GetTagged(TYPE, s);
    if !ok {
      return None;
    }
    var id;
    ok, id := GetTagged(ID, s);
    if !ok {
      return None;
    }
    var ticks;
    ok, ticks := GetTagged(TICKS, s);
    if !ok {
      return None;
    }
    var attr;
    ok, attr := s.ReadByte();
    if !ok || attr != IS_BUFF {
      return None;
    }
    var buff;
    ok, buff := s.ReadByte();
    if !ok {
      return None;
    }
    var subId;
    ok, subId := GetTagged(SUB_ID, s);
    if !ok {
      return None;
    }
    c := Create(I32(ctype), I8(id), I32(ticks), buff != 0, subId);
  }

  /** The login loop. */
  method LoadConditions(s: PropStream) returns (stored: seq<Condition>)
    requires s.Valid()
    modifies s`p
    ensures stored == LoadAll([], s.data, old(s.p))
  {
    stored := [];
    var c := CreateFromStream(s);
    ghost var p := old(s.p);
    while c.Some?
      invariant s.Valid() && c.Some? == ReadBase(s.data, p).Some?
      invariant c.Some? ==> ReadBase(s.data, p) == Some((c.value, s.p))
      invariant LoadAll(stored, s.data, p) == LoadAll([], s.data, old(s.p))
      decreases |s.data| - s.p, c.Some?
    {
      var ok, x := UnserializeCondition(c.value, s);
      if ok {
        stored := [x] + stored;
      }
      p := s.p;
      c := CreateFromStream(s);
    }
  }

  /** Logging out and in again: the persistent conditions come back in reverse order. */
  method SaveAndLoad(cs: seq<Condition>) returns (stored: seq<Condition>)
    requires forall i :: 0 <= i < |cs| ==> Complete(cs[i]) && Wide(cs[i])
    ensures stored == Back(cs)
  {
    var out := new PropWriteStream();
    SaveConditions(cs, out);
    var bytes := out.buffer;
    assert bytes == SaveAll(cs);
    var s := new PropStream(bytes);
    stored := LoadConditions(s);
    assert bytes[0..0 + |bytes|] == bytes;
    AllRead([], cs, bytes, 0);
    assert Back(cs) + [] == Back(cs);
  }
}
