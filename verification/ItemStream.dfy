/** Map items as bytes: a recursive tagged stream, written and read back. */
module ItemStream {
  import opened Options
  import opened Words
  import opened Streams

  // ---------- items ----------

  /** The class of object that an item type creates. */
  datatype Shape = Plain | Box | Fixture

  datatype ItemType = ItemType(known: bool, shape: Shape, stackable: bool, fluid: bool, moveable: bool,
                               decayTime: nat, charges: nat)

  /** The item types, by id. */
  type Types = int -> ItemType

  datatype Attr = ActionId | Text | Date | Writer | Description | Duration | DecayState | Name | Article | PluralName
                | Weight | Price | CorpseGender | CorpseType | PokemonId | CorpseNature | ShinyStatus | FluidType

  datatype Custom = Blank | Chars(text: seq<Byte>) | Number(n: int) | Double(raw: seq<Byte>) | Flag(on: bool)

  type Customs = map<seq<Byte>, Custom>

  /** The order in which a hash map is walked. */
  type Order = Customs -> seq<seq<Byte>>

  datatype StreamItem = StreamItem(box: bool, id: int, count: int, ints: map<Attr, int>, strs: map<Attr, seq<Byte>>,
                       custom: Option<Customs>, items: seq<StreamItem>)

  const DECAYING_PENDING := 2
  const TWO64 := 0x1_0000_0000_0000_0000

  const COUNT: Byte := 15
  const CONTAINER_ITEMS: Byte := 23
  const CUSTOM: Byte := 34

  predicate IsString(a: Attr) {
    a.Text? || a.Writer? || a.Description? || a.Name? || a.Article? || a.PluralName? || a.CorpseType?
  }

  function Tag(a: Attr): Byte {
    match a
    case ActionId => 4
    case Text => 6
    case Description => 7
    case Duration => 16
    case DecayState => 17
    case Date => 18
    case Writer => 19
    case Name => 24
    case Article => 25
    case PluralName => 26
    case Weight => 27
    case Price => 35
    case CorpseGender => 36
    case CorpseType => 37
    case PokemonId => 38
    case CorpseNature => 39
    case ShinyStatus => 40
    case FluidType => 0
  }

  function AttrOf(tag: Byte): Option<Attr> {
    match tag
    case 4 => Some(ActionId)
    case 6 => Some(Text)
    case 7 => Some(Description)
    case 16 => Some(Duration)
    case 17 => Some(DecayState)
    case 18 => Some(Date)
    case 19 => Some(Writer)
    case 24 => Some(Name)
    case 25 => Some(Article)
    case 26 => Some(PluralName)
    case 27 => Some(Weight)
    case 35 => Some(Price)
    case 36 => Some(CorpseGender)
    case 37 => Some(CorpseType)
    case 38 => Some(PokemonId)
    case 39 => Some(CorpseNature)
    case 40 => Some(ShinyStatus)
    case _ => None
  }

  /** Attributes of other classes, which a plain item only passes over. */
  function SkipOf(tag: Byte): Option<nat> {
    match tag
    case 5 => Some(2)
    case 8 => Some(5)
    case 10 => Some(2)
    case 14 => Some(1)
    case 20 => Some(4)
    case 21 => Some(4)
    case _ => None
  }

  function Width(a: Attr): nat {
    match a
    case ActionId => 2
    case DecayState => 1
    case CorpseGender => 1
    case CorpseNature => 1
    case ShinyStatus => 1
    case _ => 4
  }

  function Int(x: StreamItem, a: Attr): int { if a in x.ints then x.ints[a] else 0 }

  function Str(x: StreamItem, a: Attr): seq<Byte> { if a in x.strs then x.strs[a] else [] }

  function SubType(types: Types, x: StreamItem): int {
    if types(x.id).fluid then U16(Int(x, FluidType)) else x.count
  }

  function SetSubType(types: Types, x: StreamItem, n: int): StreamItem {
    if types(x.id).fluid then x.(ints := x.ints[FluidType := n]) else x.(count := n)
  }

  /** What the setters store for a number read from the stream. */
  function Stored(a: Attr, v: nat): int {
    match a
    case ActionId => if v < 100 then 100 else v
    case Duration => if I32(v) < 0 then 0 else I32(v)
    case DecayState => DECAYING_PENDING
    case CorpseGender => v
    case CorpseNature => v
    case ShinyStatus => v
    case _ => I32(v)
  }

  function AfterInt(x: StreamItem, a: Attr, v: nat): StreamItem {
    if a.DecayState? && v == 0 then x else x.(ints := x.ints[a := Stored(a, v)])
  }

  function AfterStr(x: StreamItem, a: Attr, s: seq<Byte>): StreamItem {
    if s == [] then x else x.(strs := x.strs[a := s])
  }

  function LowerByte(c: Byte): Byte { if 65 <= c <= 90 then c + 32 else c }

  function Lower(s: seq<Byte>): seq<Byte> { seq(|s|, i requires 0 <= i < |s| => LowerByte(s[i])) }

  function SetCustom(x: StreamItem, key: seq<Byte>, v: Custom): StreamItem {
    x.(custom := Some((if x.custom.Some? then x.custom.value else map[])[Lower(key) := v]))
  }

  // ---------- creating an item ----------

  /** Some pictures of plain items are replaced when they are created. */
  function Renamed(id: int): int {
    if 2210 <= id <= 2212 then id - 3
    else if id == 2215 || id == 2216 then id - 2
    else if 2202 <= id <= 2206 then id - 37
    else if id == 2640 then 6132
    else if id == 6301 then 6300
    else if id == 18528 then 18408
    else id
  }

  function CreatedId(types: Types, id: int): int {
    if types(id).shape.Plain? then Renamed(id) else id
  }

  /** The count that the constructor is given. */
  function FirstCount(types: Types, id: int): int {
    if types(id).shape.Plain? && types(id).stackable then 1 else 0
  }

  function CreatedCount(types: Types, id: int): int {
    var t, n := types(CreatedId(types, id)), FirstCount(types, id);
    if t.fluid || !t.stackable then 1 else if n != 0 then n else if t.charges != 0 then t.charges else 1
  }

  function DefaultDuration(types: Types, id: int): nat { U32(types(CreatedId(types, id)).decayTime * 1000) }

  function CreatedInts(types: Types, id: int): map<Attr, int> {
    var fluid := if types(CreatedId(types, id)).fluid then map[FluidType := FirstCount(types, id)] else map[];
    if DefaultDuration(types, id) != 0 then fluid[Duration := I32(DefaultDuration(types, id))] else fluid
  }

  function CreateItem(types: Types, id: int): Option<StreamItem> {
    if !types(id).known then None
    else Some(StreamItem(types(id).shape.Box?, CreatedId(types, id), CreatedCount(types, id), CreatedInts(types, id),
                         map[], None, []))
  }

  /** What an item is created as is not replaced again, and no two different items are replaced by the same. */
  lemma RenamedOnce(id: int, other: int)
    ensures Renamed(Renamed(id)) == Renamed(id)
    ensures Renamed(id) != id && Renamed(other) != other && Renamed(id) == Renamed(other) ==> id == other
  {
  }

  /** A fresh item lasts as many seconds as its type says, for up to 24 days; without a time it does not decay. */
  lemma FreshLasts(types: Types, id: int, x: StreamItem)
    requires CreateItem(types, id) == Some(x) && types(x.id).decayTime < 24 * 24 * 60 * 60
    ensures Duration in x.ints <==> types(x.id).decayTime != 0
    ensures Duration in x.ints ==> x.ints[Duration] == 1000 * types(x.id).decayTime
  {
  }

  // ---------- the bytes of an item ----------

  /** The attributes in the order in which they are written. */
  const ORDER: seq<Attr> := [ActionId, Text, Date, Writer, Description, Duration, DecayState, Name, Article, PluralName,
                             Weight, Price, CorpseGender, CorpseType, PokemonId, CorpseNature, ShinyStatus]

  predicate Writes(types: Types, x: StreamItem, a: Attr) {
    match a
    case ActionId => types(x.id).moveable && U16(Int(x, a)) != 0
    case Date => Int(x, a) != 0
    case DecayState => U8(Int(x, a)) == 1 || U8(Int(x, a)) == DECAYING_PENDING
    case FluidType => false
    case _ => if a.Text? || a.Writer? || a.Description? then Str(x, a) != []
              else if IsString(a) then a in x.strs else a in x.ints
  }

  function Section(types: Types, x: StreamItem, a: Attr): seq<Byte> {
    if !Writes(types, x, a) then []
    else [Tag(a)] + if IsString(a) then StringBytes(Str(x, a)) else Bytes(Int(x, a), Width(a))
  }

  function Sections(types: Types, x: StreamItem, attrs: seq<Attr>): seq<Byte> {
    if attrs == [] then [] else Section(types, x, attrs[0]) + Sections(types, x, attrs[1..])
  }

  predicate Counted(types: Types, id: int) { types(id).stackable || types(id).fluid }

  function CountBytes(types: Types, x: StreamItem): seq<Byte> {
    if Counted(types, x.id) then [COUNT] + Bytes(SubType(types, x), 2) else []
  }

  function CustomBytes(v: Custom): seq<Byte> {
    match v
    case Blank => [0]
    case Chars(s) => [1] + StringBytes(s)
    case Number(n) => [2] + Bytes(n, 8)
    case Double(raw) => [3] + raw
    case Flag(on) => [4, if on then 1 else 0]
  }

  function EntryBytes(m: Customs, keys: seq<seq<Byte>>): seq<Byte>
    requires forall k :: k in keys ==> k in m
  {
    if keys == [] then [] else StringBytes(keys[0]) + CustomBytes(m[keys[0]]) + EntryBytes(m, keys[1..])
  }

  /** A walk through a hash map meets every key once. */
  ghost predicate Walks(keys: seq<seq<Byte>>, m: Customs) {
    (forall k :: k in keys <==> k in m) && (forall i, j :: 0 <= i < j < |keys| ==> keys[i] != keys[j])
  }

  ghost predicate Ordered(order: Order) {
    forall m {:trigger order(m)} :: Walks(order(m), m)
  }

  ghost function CustomSection(order: Order, x: StreamItem): seq<Byte>
    requires Ordered(order)
  {
    if x.custom.None? then []
    else
      var keys := order(x.custom.value);
      assert Walks(keys, x.custom.value);
      [CUSTOM] + (Bytes(|keys|, 8) + EntryBytes(x.custom.value, keys))
  }

  ghost function Attributes(types: Types, order: Order, x: StreamItem): seq<Byte>
    requires Ordered(order)
  {
    CountBytes(types, x) + Sections(types, x, ORDER) + CustomSection(order, x)
  }

  ghost function Save(types: Types, order: Order, x: StreamItem): seq<Byte>
    requires Ordered(order)
    decreases x, 1
  {
    Bytes(x.id, 2) + (Attributes(types, order, x) + Ending(types, order, x))
  }

  ghost function Ending(types: Types, order: Order, x: StreamItem): seq<Byte>
    requires Ordered(order)
    decreases x, 0
  {
    if x.box then [CONTAINER_ITEMS] + (Bytes(|x.items|, 4) + (SaveReversed(types, order, x.items) + [0])) else [0]
  }

  ghost function SaveReversed(types: Types, order: Order, items: seq<StreamItem>): seq<Byte>
    requires Ordered(order)
    decreases items
  {
    if items == [] then []
    else Save(types, order, items[|items| - 1]) + SaveReversed(types, order, items[..|items| - 1])
  }

  // ---------- what reading does ----------

  datatype Reading = Going(x: StreamItem, p: nat) | Failed | Ended(x: StreamItem, count: nat, p: nat)

  function ReadCustomValue(b: seq<Byte>, p: nat): Option<(Custom, nat)> {
    if p >= |b| then None
    else match b[p]
      case 1 =>
        var s := ReadString(b, p + 1);
        if s.None? then None else Some((Chars(s.value), p + 3 + |s.value|))
      case 2 =>
        var n := ReadInt(b, p + 1, 8);
        if n.None? then None else Some((Number(I64(n.value)), p + 9))
      case 3 => if p + 9 <= |b| then Some((Double(b[p + 1..p + 9]), p + 9)) else None
      case 4 => if p + 2 <= |b| then Some((Flag(b[p + 1] != 0), p + 2)) else None
      case _ => None
  }

  function I64(v: nat): int {
    if v < 0x8000_0000_0000_0000 then v else v - TWO64
  }

  /** The next entry: its key, its value and the position behind it. */
  function ReadEntry(b: seq<Byte>, p: nat): (r: Option<(seq<Byte>, Custom, nat)>)
    ensures r.Some? ==> r.value.2 >= p
  {
    var key := ReadString(b, p);
    if key.None? then None
    else
      var v := ReadCustomValue(b, p + 2 + |key.value|);
      if v.None? then None else Some((key.value, v.value.0, v.value.1))
  }

  function ReadEntries(x: StreamItem, n: nat, b: seq<Byte>, p: nat): (r: Option<(StreamItem, nat)>)
    ensures r.Some? ==> r.value.1 >= p && r.value.0.box == x.box
    decreases n
  {
    if n == 0 then Some((x, p))
    else
      var e := ReadEntry(b, p);
      if e.None? then None else ReadEntries(SetCustom(x, e.value.0, e.value.1), n - 1, b, e.value.2)
  }

  function ReadAttr(types: Types, x: StreamItem, tag: Byte, b: seq<Byte>, p: nat): (r: Reading)
    ensures r.Failed? || (r.p >= p && r.x.box == x.box)
  {
    if tag == COUNT then
      var v := ReadInt(b, p, 2);
      if v.None? then Failed else Going(SetSubType(types, x, v.value), p + 2)
    else if tag == CONTAINER_ITEMS then
      var v := ReadInt(b, p, 4);
      if !x.box || v.None? then Failed else Ended(x, v.value, p + 4)
    else if tag == CUSTOM then
      var n := ReadInt(b, p, 8);
      if n.None? then Failed
      else
        var r := ReadEntries(x, n.value, b, p + 8);
        if r.None? then Failed else Going(r.value.0, r.value.1)
    else if AttrOf(tag).Some? then
      var a := AttrOf(tag).value;
      if IsString(a) then
        var s := ReadString(b, p);
        if s.None? then Failed else Going(AfterStr(x, a, s.value), p + 2 + |s.value|)
      else
        var v := ReadInt(b, p, Width(a));
        if v.None? then Failed else Going(AfterInt(x, a, v.value), p + Width(a))
    else if SkipOf(tag).Some? && p + SkipOf(tag).value <= |b| then Going(x, p + SkipOf(tag).value)
    else Failed
  }

  /** The item, how many contained items are announced, and where the stream goes on. */
  function Unserialize(types: Types, x: StreamItem, b: seq<Byte>, p: nat): (r: Option<(StreamItem, nat, nat)>)
    ensures r.Some? ==> r.value.2 >= p && r.value.0.box == x.box
    decreases |b| - p
  {
    if p >= |b| then Some((x, 0, p))
    else if b[p] == 0 then Some((x, 0, p + 1))
    else
      match ReadAttr(types, x, b[p], b, p + 1)
      case Failed => None
      case Ended(y, n, q) => Some((y, n, q))
      case Going(y, q) => Unserialize(types, y, b, q)
  }

  function Load(types: Types, b: seq<Byte>, p: nat): (r: Option<(Option<StreamItem>, nat)>)
    ensures r.Some? ==> r.value.1 > p
    decreases |b| - p, 0
  {
    var id := ReadInt(b, p, 2);
    if id.None? then None
    else
      var x := CreateItem(types, id.value);
      if x.None? then Some((None, p + 2))
      else
        var r := Unserialize(types, x.value, b, p + 2);
        if r.None? then None
        else if r.value.0.box then
          var c := LoadContents(types, r.value.0, r.value.1, b, r.value.2);
          if c.None? then None else Some((Some(c.value.0), c.value.1))
        else Some((Some(r.value.0), r.value.2))
  }

  function LoadContents(types: Types, x: StreamItem, n: nat, b: seq<Byte>, p: nat): (r: Option<(StreamItem, nat)>)
    ensures r.Some? ==> r.value.1 > p
    decreases |b| - p, 1
  {
    if n == 0 then if p < |b| && b[p] == 0 then Some((x, p + 1)) else None
    else
      var r := Load(types, b, p);
      if r.None? then None
      else LoadContents(types, if r.value.0.Some? then x.(items := [r.value.0.value] + x.items) else x, n - 1, b,
        r.value.1)
  }

  // ---------- what comes back ----------

  predicate KeepsInt(types: Types, x: StreamItem, a: Attr) {
    match a
    case FluidType => types(CreatedId(types, x.id)).fluid
    case Duration => a in x.ints || DefaultDuration(types, x.id) != 0
    case _ => Writes(types, x, a)
  }

  /** Action ids start at 100, durations at zero, and whatever decays is pending again. */
  function KeptInt(types: Types, x: StreamItem, a: Attr): int {
    match a
    case FluidType => if Counted(types, x.id) then SubType(types, x) else FirstCount(types, x.id)
    case Duration =>
      if a !in x.ints then I32(DefaultDuration(types, x.id)) else if x.ints[a] < 0 then 0 else x.ints[a]
    case ActionId => if U16(Int(x, a)) < 100 then 100 else U16(Int(x, a))
    case DecayState => DECAYING_PENDING
    case CorpseGender => U8(Int(x, a))
    case CorpseNature => U8(Int(x, a))
    case ShinyStatus => U8(Int(x, a))
    case _ => Int(x, a)
  }

  function KeptCustom(v: Custom): Custom { if v.Chars? then Chars(Short(v.text)) else v }

  function KeptCustoms(c: Option<Customs>): Option<Customs> {
    if c.None? || c.value == map[] then None else Some(map k | k in c.value :: KeptCustom(c.value[k]))
  }

  function KeptCount(types: Types, x: StreamItem): int {
    if Counted(types, x.id) && !types(CreatedId(types, x.id)).fluid then SubType(types, x)
      else CreatedCount(types, x.id)
  }

  function KeptInts(types: Types, x: StreamItem): map<Attr, int> {
    map a: Attr | !IsString(a) && KeepsInt(types, x, a) :: KeptInt(types, x, a)
  }

  function KeptStrs(x: StreamItem): map<Attr, seq<Byte>> {
    map a: Attr | IsString(a) && Short(Str(x, a)) != [] :: Str(x, a)
  }

  /** The item that a saved item comes back as. */
  function Normal(types: Types, x: StreamItem): StreamItem
    decreases x
  {
    StreamItem(x.box, CreatedId(types, x.id), KeptCount(types, x),
         KeptInts(types, x), KeptStrs(x), KeptCustoms(x.custom),
         seq(|x.items|, i requires 0 <= i < |x.items| => Normal(types, x.items[i])))
  }

  predicate Fits32(v: int) { -0x8000_0000 <= v < 0x8000_0000 }

  /** The setter leaves every key in lower case. */
  ghost predicate LowerKeys(m: Customs) {
    forall k {:trigger Lower(k)} :: k in m ==> Lower(k) == k
  }

  /** The widths that the fields of an item have in the source. */
  ghost predicate CustomOk(k: seq<Byte>, v: Custom) {
    && |k| <= MAX_STRING
    && (v.Double? ==> |v.raw| == 8)
    && (v.Number? ==> -0x8000_0000_0000_0000 <= v.n < 0x8000_0000_0000_0000)
  }

  ghost predicate Wide(types: Types, x: StreamItem) {
    && 0 <= x.id < 0x1_0000 && types(x.id).known && 0 <= x.count < 0x1_0000
    && x.box == types(x.id).shape.Box? && |x.items| < TWO32 && (x.box || x.items == [])
    && (forall a :: a in x.ints ==> Fits32(x.ints[a]))
    && (x.custom.Some? ==> LowerKeys(x.custom.value))
    && (x.custom.Some? ==> forall k {:trigger CustomOk(k, x.custom.value[k])} :: k in x.custom.value ==>
          CustomOk(k, x.custom.value[k]))
  }

  ghost predicate Saveable(types: Types, order: Order, x: StreamItem)
    requires Ordered(order)
    decreases x
  {
    && Wide(types, x) && (x.custom.Some? ==> |order(x.custom.value)| < TWO64)
    && forall i :: 0 <= i < |x.items| ==> Saveable(types, order, x.items[i])
  }

  /** No custom attribute, at any depth, has a blank value. */
  ghost predicate Readable(x: StreamItem)
    decreases x
  {
    && (x.custom.Some? ==> forall k :: k in x.custom.value ==> !x.custom.value[k].Blank?)
    && forall i :: 0 <= i < |x.items| ==> Readable(x.items[i])
  }

  // ---------- one attribute ----------

  function After(types: Types, x: StreamItem, y: StreamItem, a: Attr): StreamItem {
    if !Writes(types, x, a) then y
    else if IsString(a) then AfterStr(y, a, Short(Str(x, a)))
    else AfterInt(y, a, Low(Int(x, a), Width(a)))
  }

  lemma OneStep(types: Types, y: StreamItem, b: seq<Byte>, p: nat, z: StreamItem, q: nat)
    requires p < |b| && b[p] != 0 && ReadAttr(types, y, b[p], b, p + 1) == Going(z, q)
    ensures Unserialize(types, y, b, p) == Unserialize(types, z, b, q)
  {
  }

  lemma EndStep(types: Types, y: StreamItem, b: seq<Byte>, p: nat, q: nat)
    requires if p < |b| then b[p] == 0 && q == p + 1 else q == p
    ensures Unserialize(types, y, b, p) == Some((y, 0, q))
  {
  }

  lemma FailStep(types: Types, y: StreamItem, b: seq<Byte>, p: nat)
    requires p < |b| && b[p] != 0 && ReadAttr(types, y, b[p], b, p + 1) == Failed
    ensures Unserialize(types, y, b, p) == None
  {
  }

  lemma StopStep(types: Types, y: StreamItem, b: seq<Byte>, p: nat, z: StreamItem, n: nat, q: nat)
    requires p < |b| && b[p] != 0 && ReadAttr(types, y, b[p], b, p + 1) == Ended(z, n, q)
    ensures Unserialize(types, y, b, p) == Some((z, n, q))
  {
  }

  lemma IntAttr(types: Types, y: StreamItem, a: Attr, b: seq<Byte>, p: nat, v: nat, q: nat)
    requires !IsString(a) && !a.FluidType? && ReadInt(b, p, Width(a)) == Some(v) && q == p + Width(a)
    ensures ReadAttr(types, y, Tag(a), b, p) == Going(AfterInt(y, a, v), q)
  {
    assert AttrOf(Tag(a)) == Some(a);
  }

  lemma StrAttr(types: Types, y: StreamItem, a: Attr, b: seq<Byte>, p: nat, s: seq<Byte>, q: nat)
    requires IsString(a) && ReadString(b, p) == Some(s) && q == p + 2 + |s|
    ensures ReadAttr(types, y, Tag(a), b, p) == Going(AfterStr(y, a, s), q)
  {
    assert AttrOf(Tag(a)) == Some(a);
  }

  lemma IntStep(types: Types, x: StreamItem, y: StreamItem, a: Attr, s: seq<Byte>, b: seq<Byte>, p: nat, q: nat,
                z: StreamItem)
    requires !IsString(a) && !a.FluidType? && Found(b, p, s) && s == [Tag(a)] + Bytes(Int(x, a), Width(a))
    requires z == AfterInt(y, a, Low(Int(x, a), Width(a))) && q == p + |s|
    ensures Unserialize(types, y, b, p) == Unserialize(types, z, b, q)
  {
    FoundOne(b, p, s, Tag(a), Bytes(Int(x, a), Width(a)), p + 1);
    var v := Low(Int(x, a), Width(a));
    ReadWritten(b, p + 1, Int(x, a), Width(a), v);
    IntAttr(types, y, a, b, p + 1, v, q);
    OneStep(types, y, b, p, z, q);
  }

  lemma StrStep(types: Types, x: StreamItem, y: StreamItem, a: Attr, s: seq<Byte>, b: seq<Byte>, p: nat, q: nat,
                z: StreamItem)
    requires IsString(a) && Found(b, p, s) && s == [Tag(a)] + StringBytes(Str(x, a))
    requires z == AfterStr(y, a, Short(Str(x, a))) && q == p + |s|
    ensures Unserialize(types, y, b, p) == Unserialize(types, z, b, q)
  {
    FoundOne(b, p, s, Tag(a), StringBytes(Str(x, a)), p + 1);
    var r := Short(Str(x, a));
    ReadWrittenString(b, p + 1, Str(x, a), r);
    StrAttr(types, y, a, b, p + 1, r, q);
    OneStep(types, y, b, p, z, q);
  }

  lemma SectionStep(types: Types, x: StreamItem, y: StreamItem, a: Attr, s: seq<Byte>, b: seq<Byte>, p: nat, q: nat,
                    z: StreamItem)
    requires s == Section(types, x, a) && Found(b, p, s) && q == p + |s| && z == After(types, x, y, a)
    ensures Unserialize(types, y, b, p) == Unserialize(types, z, b, q)
  {
    if !Writes(types, x, a) {
      assert s == [] && z == y && p == q;
    } else if IsString(a) {
      assert s == [Tag(a)] + StringBytes(Str(x, a)) && z == AfterStr(y, a, Short(Str(x, a)));
      StrStep(types, x, y, a, s, b, p, q, z);
    } else {
      assert s == [Tag(a)] + Bytes(Int(x, a), Width(a));
      IntStep(types, x, y, a, s, b, p, q, z);
    }
  }

  function AfterAll(types: Types, x: StreamItem, y: StreamItem, attrs: seq<Attr>): StreamItem
    decreases |attrs|
  {
    if attrs == [] then y else AfterAll(types, x, After(types, x, y, attrs[0]), attrs[1..])
  }

  lemma {:induction false} SectionsRun(types: Types, x: StreamItem, y: StreamItem, attrs: seq<Attr>, b: seq<Byte>,
                                       p: nat, end: nat, z: StreamItem)
    requires Found(b, p, Sections(types, x, attrs)) && end == p + |Sections(types, x, attrs)|
    requires z == AfterAll(types, x, y, attrs)
    ensures Unserialize(types, y, b, p) == Unserialize(types, z, b, end)
    decreases |attrs|
  {
    if attrs == [] {
      assert p == end;
    } else {
      var first, y' := Section(types, x, attrs[0]), After(types, x, y, attrs[0]);
      var q := p + |first|;
      FoundSplit(b, p, Sections(types, x, attrs), first, Sections(types, x, attrs[1..]), q);
      SectionStep(types, x, y, attrs[0], first, b, p, q, y');
      SectionsRun(types, x, y', attrs[1..], b, q, end, z);
    }
  }

  function Started(types: Types, x: StreamItem, y: StreamItem): StreamItem {
    if Counted(types, x.id) then SetSubType(types, y, SubType(types, x)) else y
  }

  lemma CountStep(types: Types, x: StreamItem, y: StreamItem, b: seq<Byte>, p: nat, q: nat)
    requires Wide(types, x) && Found(b, p, CountBytes(types, x)) && q == p + |CountBytes(types, x)|
    ensures Unserialize(types, y, b, p) == Unserialize(types, Started(types, x, y), b, q)
  {
    if Counted(types, x.id) {
      var n := SubType(types, x);
      FoundOne(b, p, CountBytes(types, x), COUNT, Bytes(n, 2), p + 1);
      ReadWritten(b, p + 1, n, 2, n);
      OneStep(types, y, b, p, Started(types, x, y), q);
    } else {
      assert p == q;
    }
  }

  // ---------- all the attributes ----------

  lemma AfterOne(types: Types, x: StreamItem, y: StreamItem, a: Attr, z: StreamItem)
    requires Wide(types, x) && z == After(types, x, y, a)
    ensures z == y.(ints := z.ints, strs := z.strs)
    ensures z.ints == if !IsString(a) && Writes(types, x, a) then y.ints[a := KeptInt(types, x, a)] else y.ints
    ensures z.strs == if IsString(a) && Short(Str(x, a)) != [] then y.strs[a := Str(x, a)] else y.strs
  {
    if Writes(types, x, a) && !IsString(a) {
      assert a in x.ints && Fits32(x.ints[a]);
    }
  }

  lemma {:induction false} AfterAllInt(types: Types, x: StreamItem, y: StreamItem, attrs: seq<Attr>, a: Attr,
                                       z: StreamItem)
    requires Wide(types, x) && z == AfterAll(types, x, y, attrs)
    ensures if a in attrs && !IsString(a) && Writes(types, x, a) then a in z.ints && z.ints[a] == KeptInt(types, x, a)
            else (a in z.ints <==> a in y.ints) && (a in y.ints ==> z.ints[a] == y.ints[a])
    decreases |attrs|
  {
    if attrs != [] {
      var y' := After(types, x, y, attrs[0]);
      AfterOne(types, x, y, attrs[0], y');
      AfterAllInt(types, x, y', attrs[1..], a, z);
    }
  }

  lemma {:induction false} AfterAllStr(types: Types, x: StreamItem, y: StreamItem, attrs: seq<Attr>, a: Attr,
                                       z: StreamItem)
    requires Wide(types, x) && z == AfterAll(types, x, y, attrs)
    ensures if a in attrs && IsString(a) && Short(Str(x, a)) != [] then a in z.strs && z.strs[a] == Str(x, a)
            else (a in z.strs <==> a in y.strs) && (a in y.strs ==> z.strs[a] == y.strs[a])
    decreases |attrs|
  {
    if attrs != [] {
      var y' := After(types, x, y, attrs[0]);
      AfterOne(types, x, y, attrs[0], y');
      AfterAllStr(types, x, y', attrs[1..], a, z);
    }
  }

  lemma {:induction false} AfterAllRest(types: Types, x: StreamItem, y: StreamItem, attrs: seq<Attr>, z: StreamItem)
    requires Wide(types, x) && z == AfterAll(types, x, y, attrs)
    ensures z == y.(ints := z.ints, strs := z.strs)
    decreases |attrs|
  {
    if attrs != [] {
      var y' := After(types, x, y, attrs[0]);
      AfterOne(types, x, y, attrs[0], y');
      AfterAllRest(types, x, y', attrs[1..], z);
    }
  }

  lemma AttrOrder(a: Attr)
    ensures a in ORDER <==> !a.FluidType?
  {
    match a {
      case ActionId => assert ORDER[0] == a;
      case Text => assert ORDER[1] == a;
      case Date => assert ORDER[2] == a;
      case Writer => assert ORDER[3] == a;
      case Description => assert ORDER[4] == a;
      case Duration => assert ORDER[5] == a;
      case DecayState => assert ORDER[6] == a;
      case Name => assert ORDER[7] == a;
      case Article => assert ORDER[8] == a;
      case PluralName => assert ORDER[9] == a;
      case Weight => assert ORDER[10] == a;
      case Price => assert ORDER[11] == a;
      case CorpseGender => assert ORDER[12] == a;
      case CorpseType => assert ORDER[13] == a;
      case PokemonId => assert ORDER[14] == a;
      case CorpseNature => assert ORDER[15] == a;
      case ShinyStatus => assert ORDER[16] == a;
      case FluidType =>
    }
  }

  lemma StartedInt(types: Types, x: StreamItem, y: StreamItem, a: Attr, ints: map<Attr, int>)
    requires CreateItem(types, x.id) == Some(y) && ints == Started(types, x, y).ints
    ensures a in ints <==>
      ((a.FluidType? && KeepsInt(types, x, a)) || (a.Duration? && DefaultDuration(types, x.id) != 0))
    ensures a in ints ==>
      ints[a] == if a.FluidType? then KeptInt(types, x, a) else I32(DefaultDuration(types, x.id))
  {
  }

  lemma IntKept(types: Types, x: StreamItem, y: StreamItem, y1: StreamItem, a: Attr, attrs: seq<Attr>, z: StreamItem)
    requires Wide(types, x) && CreateItem(types, x.id) == Some(y) && y1 == Started(types, x, y)
    requires z == AfterAll(types, x, y1, attrs) && (a in attrs <==> !a.FluidType?)
    ensures a in z.ints <==> (!IsString(a) && KeepsInt(types, x, a))
    ensures a in z.ints ==> z.ints[a] == KeptInt(types, x, a)
  {
    StartedInt(types, x, y, a, y1.ints);
    AfterAllInt(types, x, y1, attrs, a, z);
  }

  lemma StrKept(types: Types, x: StreamItem, y: StreamItem, a: Attr, attrs: seq<Attr>, z: StreamItem)
    requires Wide(types, x) && z == AfterAll(types, x, y, attrs) && (a in attrs <==> !a.FluidType?) && y.strs == map[]
    ensures a in z.strs <==> (IsString(a) && Short(Str(x, a)) != [])
    ensures a in z.strs ==> z.strs[a] == Str(x, a)
  {
    AfterAllStr(types, x, y, attrs, a, z);
  }

  lemma IntsAreKept(types: Types, x: StreamItem, ints: map<Attr, int>)
    requires forall a {:trigger KeepsInt(types, x, a)} :: a in ints <==> (!IsString(a) && KeepsInt(types, x, a))
    requires forall a {:trigger KeptInt(types, x, a)} :: a in ints ==> ints[a] == KeptInt(types, x, a)
    ensures ints == KeptInts(types, x)
  {
    var kept := KeptInts(types, x);
    forall a ensures a in ints <==> a in kept {
      assert KeepsInt(types, x, a) || !KeepsInt(types, x, a);
    }
    forall a | a in kept ensures ints[a] == kept[a] {
      assert kept[a] == KeptInt(types, x, a);
    }
  }

  lemma StrsAreKept(x: StreamItem, strs: map<Attr, seq<Byte>>)
    requires forall a {:trigger Str(x, a)} :: a in strs <==> (IsString(a) && Short(Str(x, a)) != [])
    requires forall a {:trigger Str(x, a)} :: a in strs ==> strs[a] == Str(x, a)
    ensures strs == KeptStrs(x)
  {
    var kept := KeptStrs(x);
    forall a ensures a in strs <==> a in kept {
      assert Str(x, a) == Str(x, a);
    }
    forall a | a in kept ensures strs[a] == kept[a] {
      assert kept[a] == Str(x, a);
    }
  }

  /** After all its attributes were read, an item has what the normalised item has. */
  lemma AllKept(types: Types, x: StreamItem, y: StreamItem, y1: StreamItem, z: StreamItem)
    requires Wide(types, x) && CreateItem(types, x.id) == Some(y) && y1 == Started(types, x, y)
    requires z == AfterAll(types, x, y1, ORDER)
    ensures z.ints == KeptInts(types, x) && z.strs == KeptStrs(x)
  {
    forall a ensures a in z.ints <==> (!IsString(a) && KeepsInt(types, x, a))
             ensures a in z.ints ==> z.ints[a] == KeptInt(types, x, a)
             ensures a in z.strs <==> (IsString(a) && Short(Str(x, a)) != [])
             ensures a in z.strs ==> z.strs[a] == Str(x, a)
    {
      AttrOrder(a);
      IntKept(types, x, y, y1, a, ORDER, z);
      StrKept(types, x, y1, a, ORDER, z);
    }
    IntsAreKept(types, x, z.ints);
    StrsAreKept(x, z.strs);
  }

  // ---------- the custom attributes ----------

  lemma CharsRead(s: seq<Byte>, b: seq<Byte>, p: nat, r: nat)
    requires Found(b, p, CustomBytes(Chars(s))) && r == p + |CustomBytes(Chars(s))|
    ensures ReadCustomValue(b, p) == Some((Chars(Short(s)), r))
  {
    var t := Short(s);
    FoundOne(b, p, CustomBytes(Chars(s)), 1, StringBytes(s), p + 1);
    ReadWrittenString(b, p + 1, s, t);
    assert r == p + 3 + |t|;
  }

  lemma I64OfLow(n: int)
    requires -0x8000_0000_0000_0000 <= n < 0x8000_0000_0000_0000
    ensures I64(Low(n, 8)) == n
  {
  }

  lemma NumberRead(n: int, b: seq<Byte>, p: nat, r: nat)
    requires -0x8000_0000_0000_0000 <= n < 0x8000_0000_0000_0000
    requires Found(b, p, CustomBytes(Number(n))) && r == p + |CustomBytes(Number(n))|
    ensures ReadCustomValue(b, p) == Some((Number(n), r))
  {
    FoundOne(b, p, CustomBytes(Number(n)), 2, Bytes(n, 8), p + 1);
    ReadWritten(b, p + 1, n, 8, Low(n, 8));
    I64OfLow(n);
    assert r == p + 9;
  }

  lemma FlagRead(on: bool, c: Byte, b: seq<Byte>, p: nat, r: nat)
    requires c == if on then 1 else 0
    requires Found(b, p, CustomBytes(Flag(on))) && r == p + |CustomBytes(Flag(on))|
    ensures ReadCustomValue(b, p) == Some((Flag(on), r))
  {
    FoundOne(b, p, CustomBytes(Flag(on)), 4, [c], p + 1);
    FoundOne(b, p + 1, [c], c, [], p + 2);
    assert r == p + 2;
  }

  lemma CustomValueRead(k: seq<Byte>, v: Custom, b: seq<Byte>, p: nat, r: nat)
    requires CustomOk(k, v) && Found(b, p, CustomBytes(v)) && r == p + |CustomBytes(v)|
    ensures ReadCustomValue(b, p) == if v.Blank? then None else Some((KeptCustom(v), r))
  {
    match v {
      case Blank => FoundOne(b, p, CustomBytes(v), 0, [], p + 1);
      case Chars(s) => CharsRead(s, b, p, r);
      case Number(n) => NumberRead(n, b, p, r);
      case Double(raw) =>
        FoundOne(b, p, CustomBytes(v), 3, raw, p + 1);
        assert r == p + 9;
      case Flag(on) => FlagRead(on, if on then 1 else 0, b, p, r);
    }
  }

  ghost predicate KeysOk(m: Customs, keys: seq<seq<Byte>>) {
    (forall k :: k in keys ==> k in m) && forall k {:trigger CustomOk(k, m[k])} :: k in keys ==> CustomOk(k, m[k])
  }

  ghost predicate NoBlank(m: Customs, keys: seq<seq<Byte>>) {
    forall k :: k in keys && k in m ==> !m[k].Blank?
  }

  /** What the given entries add to the attributes that are there. */
  ghost function WithEntries(c: Option<Customs>, m: Customs, keys: seq<seq<Byte>>): Option<Customs>
    requires forall k :: k in keys ==> k in m
  {
    if keys == [] then c
    else Some((if c.Some? then c.value else map[]) + (map k | k in keys :: KeptCustom(m[k])))
  }

  lemma WithFirst(c: Option<Customs>, m: Customs, keys: seq<seq<Byte>>)
    requires keys != [] && forall k :: k in keys ==> k in m
    ensures WithEntries(c, m, keys) ==
      WithEntries(Some((if c.Some? then c.value else map[])[keys[0] := KeptCustom(m[keys[0]])]), m, keys[1..])
  {
    var key, rest := keys[0], keys[1..];
    assert keys == [key] + rest;
    var base := if c.Some? then c.value else map[];
    var first := base[key := KeptCustom(m[key])];
    assert base + (map k | k in keys :: KeptCustom(m[k])) == first + (map k | k in rest :: KeptCustom(m[k]));
    if rest == [] {
      assert first + map[] == first;
    }
  }

  lemma BlankFirst(m: Customs, keys: seq<seq<Byte>>)
    requires keys != [] && keys[0] in m
    ensures NoBlank(m, keys) <==> !m[keys[0]].Blank? && NoBlank(m, keys[1..])
  {
    assert keys == [keys[0]] + keys[1..];
  }

  lemma EntryRead(b: seq<Byte>, p: nat, key: seq<Byte>, q: nat, v: Custom, r: nat)
    requires ReadString(b, p) == Some(key) && q == p + 2 + |key| && ReadCustomValue(b, q) == Some((v, r))
    ensures ReadEntry(b, p) == Some((key, v, r))
  {
  }

  lemma EntryStep(x: StreamItem, n: nat, b: seq<Byte>, p: nat, key: seq<Byte>, v: Custom, r: nat, y: StreamItem,
                  left: nat)
    requires n > 0 && left == n - 1 && ReadEntry(b, p) == Some((key, v, r)) && y == SetCustom(x, key, v)
    ensures ReadEntries(x, n, b, p) == ReadEntries(y, left, b, r)
  {
  }

  lemma EntryFails(x: StreamItem, n: nat, b: seq<Byte>, p: nat, key: seq<Byte>, q: nat)
    requires n > 0 && ReadString(b, p) == Some(key) && q == p + 2 + |key| && ReadCustomValue(b, q) == None
    ensures ReadEntries(x, n, b, p) == None
  {
    assert ReadEntry(b, p) == None;
  }

  lemma EntryFound(m: Customs, keys: seq<seq<Byte>>, b: seq<Byte>, p: nat, q: nat, r: nat)
    requires keys != [] && KeysOk(m, keys) && Found(b, p, EntryBytes(m, keys))
    requires q == p + 2 + |keys[0]| && r == q + |CustomBytes(m[keys[0]])|
    ensures ReadString(b, p) == Some(keys[0]) && Found(b, q, CustomBytes(m[keys[0]]))
    ensures Found(b, r, EntryBytes(m, keys[1..])) && p + |EntryBytes(m, keys)| == r + |EntryBytes(m, keys[1..])|
  {
    var key, rest := keys[0], keys[1..];
    assert CustomOk(key, m[key]);
    var front := StringBytes(key) + CustomBytes(m[key]);
    FoundSplit(b, p, EntryBytes(m, keys), front, EntryBytes(m, rest), r);
    FoundSplit(b, p, front, StringBytes(key), CustomBytes(m[key]), q);
    ReadWrittenString(b, p, key, key);
  }

  lemma SetLower(y: StreamItem, key: seq<Byte>, v: Custom)
    requires Lower(key) == key
    ensures SetCustom(y, key, v) == y.(custom := Some((if y.custom.Some? then y.custom.value else map[])[key := v]))
  {
  }

  lemma {:induction false} EntriesRead(y: StreamItem, m: Customs, keys: seq<seq<Byte>>, b: seq<Byte>, p: nat, end: nat)
    requires KeysOk(m, keys) && LowerKeys(m)
    requires Found(b, p, EntryBytes(m, keys)) && end == p + |EntryBytes(m, keys)|
    ensures ReadEntries(y, |keys|, b, p) ==
      if NoBlank(m, keys) then Some((y.(custom := WithEntries(y.custom, m, keys)), end)) else None
    decreases |keys|
  {
    if keys == [] {
      assert y.(custom := y.custom) == y;
    } else {
      var key, v := keys[0], m[keys[0]];
      var q := p + 2 + |key|;
      var r := q + |CustomBytes(v)|;
      var y' := SetCustom(y, key, KeptCustom(v));
      assert CustomOk(key, v);
      EntryFound(m, keys, b, p, q, r);
      CustomValueRead(key, v, b, q, r);
      BlankFirst(m, keys);
      if v.Blank? {
        EntryFails(y, |keys|, b, p, key, q);
      } else {
        EntryRead(b, p, key, q, KeptCustom(v), r);
        EntryStep(y, |keys|, b, p, key, KeptCustom(v), r, y', |keys[1..]|);
        SetLower(y, key, KeptCustom(v));
        EntriesRead(y', m, keys[1..], b, r, end);
        WithFirst(y.custom, m, keys);
      }
    }
  }

  /** An item's own custom attributes have values. */
  ghost predicate Valued(x: StreamItem) {
    x.custom.Some? ==> forall k :: k in x.custom.value ==> !x.custom.value[k].Blank?
  }

  lemma CustomFound(order: Order, x: StreamItem, b: seq<Byte>, p: nat, end: nat, keys: seq<seq<Byte>>, q: nat)
    requires Ordered(order) && x.custom.Some? && keys == order(x.custom.value) && |keys| < TWO64
    requires Found(b, p, CustomSection(order, x)) && end == p + |CustomSection(order, x)| && q == p + 9
    ensures Walks(keys, x.custom.value) && p < |b| && b[p] == CUSTOM && ReadInt(b, p + 1, 8) == Some(|keys|)
    ensures Found(b, q, EntryBytes(x.custom.value, keys)) && end == q + |EntryBytes(x.custom.value, keys)|
  {
    assert Walks(keys, x.custom.value);
    HeaderFound(b, p, CustomSection(order, x), |keys|, EntryBytes(x.custom.value, keys), end, q);
  }

  lemma SizeRead(b: seq<Byte>, p: nat, n: nat, size: seq<Byte>)
    requires n < TWO64 && size == Bytes(n, 8) && Found(b, p, size)
    ensures ReadInt(b, p, 8) == Some(n)
  {
    ReadWritten(b, p, n, 8, n);
  }

  lemma HeaderFound(b: seq<Byte>, p: nat, whole: seq<Byte>, n: nat, entries: seq<Byte>, end: nat, q: nat)
    requires n < TWO64 && whole == [CUSTOM] + (Bytes(n, 8) + entries)
    requires Found(b, p, whole) && end == p + |whole| && q == p + 9
    ensures p < |b| && b[p] == CUSTOM && ReadInt(b, p + 1, 8) == Some(n) && Found(b, q, entries) && end == q + |entries|
  {
    var size := Bytes(n, 8);
    assert |size| == 8 && |whole| == 1 + |size + entries| && end == q + |entries|;
    FoundOne(b, p, whole, CUSTOM, size + entries, p + 1);
    FoundSplit(b, p + 1, size + entries, size, entries, q);
    SizeRead(b, p + 1, n, size);
  }

  lemma CustomStep(types: Types, order: Order, x: StreamItem, y: StreamItem, b: seq<Byte>, p: nat, end: nat,
                   z: StreamItem)
    requires Ordered(order) && Wide(types, x) && y.custom == None && z == y.(custom := KeptCustoms(x.custom))
    requires x.custom.Some? ==> |order(x.custom.value)| < TWO64
    requires Found(b, p, CustomSection(order, x)) && end == p + |CustomSection(order, x)|
    ensures Unserialize(types, y, b, p) == if Valued(x) then Unserialize(types, z, b, end) else None
  {
    if x.custom.None? {
      assert z == y && p == end;
    } else {
      var m := x.custom.value;
      var keys, q := order(m), p + 9;
      CustomFound(order, x, b, p, end, keys, q);
      EntriesRead(y, m, keys, b, q, end);
      KeptAll(m, keys);
      ValuedWalk(x, keys);
      if Valued(x) {
        CustomAttr(types, y, b, p + 1, |keys|, q, Some((z, end)));
        OneStep(types, y, b, p, z, end);
      } else {
        CustomAttr(types, y, b, p + 1, |keys|, q, None);
      }
    }
  }

  lemma CustomAttr(types: Types, y: StreamItem, b: seq<Byte>, p: nat, n: nat, q: nat, r: Option<(StreamItem, nat)>)
    requires ReadInt(b, p, 8) == Some(n) && q == p + 8 && ReadEntries(y, n, b, q) == r
    ensures ReadAttr(types, y, CUSTOM, b, p) == if r.None? then Failed else Going(r.value.0, r.value.1)
  {
  }

  lemma ValuedWalk(x: StreamItem, keys: seq<seq<Byte>>)
    requires x.custom.Some? && Walks(keys, x.custom.value)
    ensures Valued(x) <==> NoBlank(x.custom.value, keys)
  {
    var m := x.custom.value;
    if NoBlank(m, keys) {
      forall k | k in m ensures !m[k].Blank? {
        assert k in keys;
      }
    }
  }

  lemma KeptAll(m: Customs, keys: seq<seq<Byte>>)
    requires Walks(keys, m)
    ensures WithEntries(None, m, keys) == KeptCustoms(Some(m))
  {
    if keys == [] {
      assert m == map[];
    } else {
      assert keys[0] in m;
      assert map[] + (map k | k in keys :: KeptCustom(m[k])) == (map k | k in m :: KeptCustom(m[k]));
    }
  }

  // ---------- the whole item ----------

  /** What comes back of the item itself, before its contents. */
  function Shell(types: Types, x: StreamItem): StreamItem { Normal(types, x).(items := []) }

  lemma AttributesRead(types: Types, order: Order, x: StreamItem, y: StreamItem, b: seq<Byte>, p: nat, end: nat)
    requires Ordered(order) && Wide(types, x) && CreateItem(types, x.id) == Some(y)
    requires x.custom.Some? ==> |order(x.custom.value)| < TWO64
    requires Found(b, p, Attributes(types, order, x)) && end == p + |Attributes(types, order, x)|
    ensures Unserialize(types, y, b, p) == if Valued(x) then Unserialize(types, Shell(types, x), b, end) else None
  {
    var count, sections, custom := CountBytes(types, x), Sections(types, x, ORDER), CustomSection(order, x);
    var q, r := p + |count|, p + |count + sections|;
    FoundSplit(b, p, Attributes(types, order, x), count + sections, custom, r);
    FoundSplit(b, p, count + sections, count, sections, q);
    CountStep(types, x, y, b, p, q);
    var y1 := Started(types, x, y);
    var y2 := AfterAll(types, x, y1, ORDER);
    SectionsRun(types, x, y1, ORDER, b, q, r, y2);
    AfterAllRest(types, x, y1, ORDER, y2);
    AllKept(types, x, y, y1, y2);
    assert y2.(custom := KeptCustoms(x.custom)) == Shell(types, x);
    CustomStep(types, order, x, y2, b, r, end, Shell(types, x));
  }

  lemma PlainEnds(types: Types, z: StreamItem, b: seq<Byte>, p: nat, q: nat)
    requires Found(b, p, [0]) && q == p + 1
    ensures Unserialize(types, z, b, p) == Some((z, 0, q))
  {
    FoundOne(b, p, [0], 0, [], q);
  }

  lemma BoxEnds(types: Types, z: StreamItem, n: nat, s: seq<Byte>, b: seq<Byte>, p: nat, q: nat)
    requires z.box && n < TWO32 && Found(b, p, [CONTAINER_ITEMS] + (Bytes(n, 4) + s)) && q == p + 5
    ensures Unserialize(types, z, b, p) == Some((z, n, q)) && Found(b, q, s)
  {
    FoundOne(b, p, [CONTAINER_ITEMS] + (Bytes(n, 4) + s), CONTAINER_ITEMS, Bytes(n, 4) + s, p + 1);
    FoundSplit(b, p + 1, Bytes(n, 4) + s, Bytes(n, 4), s, q);
    ReadWritten(b, p + 1, n, 4, n);
  }

  ghost predicate AllReadable(items: seq<StreamItem>) { forall i :: 0 <= i < |items| ==> Readable(items[i]) }

  function NormalAll(types: Types, items: seq<StreamItem>): seq<StreamItem> {
    seq(|items|, i requires 0 <= i < |items| => Normal(types, items[i]))
  }

  ghost predicate AllSaveable(types: Types, order: Order, items: seq<StreamItem>)
    requires Ordered(order)
  {
    forall i :: 0 <= i < |items| ==> Saveable(types, order, items[i])
  }

  lemma LoadStep(types: Types, b: seq<Byte>, p: nat, id: nat, y: StreamItem, r: Option<(StreamItem, nat, nat)>)
    requires ReadInt(b, p, 2) == Some(id) && CreateItem(types, id) == Some(y) && Unserialize(types, y, b, p + 2) == r
    ensures Load(types, b, p) ==
      if r.None? then None
      else if r.value.0.box then
        var c := LoadContents(types, r.value.0, r.value.1, b, r.value.2);
        if c.None? then None else Some((Some(c.value.0), c.value.1))
      else Some((Some(r.value.0), r.value.2))
  {
  }

  /**
   * Reading a saved item: it fails exactly when some custom attribute has a blank value; otherwise the
   * normalised item comes back and exactly its bytes are consumed.
   */
  lemma {:induction false} LoadSaved(types: Types, order: Order, x: StreamItem, b: seq<Byte>, p: nat, end: nat)
    requires Ordered(order) && Saveable(types, order, x)
    requires Found(b, p, Save(types, order, x)) && end == p + |Save(types, order, x)|
    ensures Load(types, b, p) == if Readable(x) then Some((Some(Normal(types, x)), end)) else None
    decreases x, 1
  {
    var attributes, ending := Attributes(types, order, x), Ending(types, order, x);
    var start, q := p + 2, p + 2 + |attributes|;
    FoundSplit(b, p, Save(types, order, x), Bytes(x.id, 2), attributes + ending, start);
    FoundSplit(b, start, attributes + ending, attributes, ending, q);
    ReadWritten(b, p, x.id, 2, x.id);
    var y := CreateItem(types, x.id).value;
    AttributesRead(types, order, x, y, b, start, q);
    if !Valued(x) {
      LoadStep(types, b, p, x.id, y, None);
    } else {
      EndingRead(types, order, x, b, q, end, y, p);
    }
  }

  lemma {:induction false} EndingRead(types: Types, order: Order, x: StreamItem, b: seq<Byte>, q: nat, end: nat,
                                      y: StreamItem, p: nat)
    requires Ordered(order) && Saveable(types, order, x) && Valued(x)
    requires Found(b, q, Ending(types, order, x)) && end == q + |Ending(types, order, x)|
    requires ReadInt(b, p, 2) == Some(x.id) && CreateItem(types, x.id) == Some(y)
    requires Unserialize(types, y, b, p + 2) == Unserialize(types, Shell(types, x), b, q)
    ensures Load(types, b, p) == if Readable(x) then Some((Some(Normal(types, x)), end)) else None
    decreases x, 0
  {
    var z := Shell(types, x);
    if x.box {
      var n, r := |x.items|, q + 5;
      BoxEnds(types, z, n, SaveReversed(types, order, x.items) + [0], b, q, r);
      LoadStep(types, b, p, x.id, y, Some((z, n, r)));
      ContentsRead(types, order, x.items, z, b, r, end);
      assert NormalAll(types, x.items) + [] == Normal(types, x).items;
    } else {
      PlainEnds(types, z, b, q, end);
      LoadStep(types, b, p, x.id, y, Some((z, 0, end)));
      assert z == Normal(types, x);
    }
  }

  lemma {:induction false} ContentsRead(types: Types, order: Order, items: seq<StreamItem>, z: StreamItem,
                                        b: seq<Byte>, p: nat, end: nat)
    requires Ordered(order) && AllSaveable(types, order, items)
    requires Found(b, p, SaveReversed(types, order, items) + [0])
    requires end == p + |SaveReversed(types, order, items)| + 1
    ensures LoadContents(types, z, |items|, b, p) ==
      if AllReadable(items) then Some((z.(items := NormalAll(types, items) + z.items), end)) else None
    decreases items
  {
    if items == [] {
      assert [] + [0] == [0];
      FoundOne(b, p, [0], 0, [], end);
      assert NormalAll(types, items) + z.items == z.items;
    } else {
      var rest, last := items[..|items| - 1], items[|items| - 1];
      var first := Save(types, order, last);
      var whole, tail := SaveReversed(types, order, items) + [0], SaveReversed(types, order, rest) + [0];
      var q := p + |first|;
      assert whole == first + tail;
      FoundSplit(b, p, whole, first, tail, q);
      LoadSaved(types, order, last, b, p, q);
      ReadableLast(items);
      if Readable(last) {
        ContentsStep(types, z, |items|, b, p, Some((Some(Normal(types, last)), q)));
        var z' := z.(items := [Normal(types, last)] + z.items);
        ContentsRead(types, order, rest, z', b, q, end);
        NormalLast(types, items, z.items);
      } else {
        ContentsStep(types, z, |items|, b, p, None);
      }
    }
  }

  lemma ContentsStep(types: Types, x: StreamItem, n: nat, b: seq<Byte>, p: nat, r: Option<(Option<StreamItem>, nat)>)
    requires n > 0 && Load(types, b, p) == r
    ensures LoadContents(types, x, n, b, p) ==
      if r.None? then None
      else LoadContents(types, if r.value.0.Some? then x.(items := [r.value.0.value] + x.items) else x, n - 1, b,
                        r.value.1)
  {
  }

  lemma ReadableLast(items: seq<StreamItem>)
    requires items != []
    ensures AllReadable(items) <==> AllReadable(items[..|items| - 1]) && Readable(items[|items| - 1])
  {
    var rest, last := items[..|items| - 1], items[|items| - 1];
    if AllReadable(rest) && Readable(last) {
      forall i | 0 <= i < |items| ensures Readable(items[i]) {
        if i < |rest| {
          assert rest[i] == items[i];
        }
      }
    }
  }

  lemma NormalLast(types: Types, items: seq<StreamItem>, behind: seq<StreamItem>)
    requires items != []
    ensures NormalAll(types, items) + behind ==
      NormalAll(types, items[..|items| - 1]) + ([Normal(types, items[|items| - 1])] + behind)
  {
    var front, last := NormalAll(types, items[..|items| - 1]), Normal(types, items[|items| - 1]);
    var all := NormalAll(types, items);
    forall i | 0 <= i < |items| ensures all[i] == (front + [last])[i] {
    }
    assert all == front + [last];
    Reassociate(front, [last], behind);
  }

  // ---------- the writer ----------

  function SectionsTo(types: Types, x: StreamItem, k: nat): seq<Byte>
    requires k <= |ORDER|
  {
    if k == 0 then [] else SectionsTo(types, x, k - 1) + Section(types, x, ORDER[k - 1])
  }

  lemma {:induction false} SectionsMeet(types: Types, x: StreamItem, attrs: seq<Attr>, k: nat)
    requires attrs == ORDER && k <= |attrs|
    ensures SectionsTo(types, x, k) + Sections(types, x, attrs[k..]) == Sections(types, x, attrs)
  {
    if k == 0 {
      assert attrs[0..] == attrs;
    } else {
      SectionsMeet(types, x, attrs, k - 1);
      assert attrs[k - 1..][1..] == attrs[k..] && attrs[k - 1..][0] == attrs[k - 1];
      Reassociate(SectionsTo(types, x, k - 1), Section(types, x, attrs[k - 1]), Sections(types, x, attrs[k..]));
    }
  }

  method PutSection(types: Types, x: StreamItem, a: Attr, stream: PropWriteStream)
    modifies stream
    ensures stream.buffer == old(stream.buffer) + Section(types, x, a)
  {
    ghost var before := stream.buffer;
    if Writes(types, x, a) {
      stream.WriteByte(Tag(a));
      if IsString(a) {
        stream.WriteStr(Str(x, a));
        Reassociate(before, [Tag(a)], StringBytes(Str(x, a)));
      } else {
        stream.Write(Int(x, a), Width(a));
        Reassociate(before, [Tag(a)], Bytes(Int(x, a), Width(a)));
      }
    } else {
      assert before + [] == before;
    }
  }

  method PutAttr(types: Types, x: StreamItem, a: Attr, stream: PropWriteStream, ghost start: seq<Byte>, ghost k: nat)
    requires k < |ORDER| && ORDER[k] == a && stream.buffer == start + SectionsTo(types, x, k)
    modifies stream
    ensures stream.buffer == start + SectionsTo(types, x, k + 1)
  {
    PutSection(types, x, a, stream);
    Reassociate(start, SectionsTo(types, x, k), Section(types, x, a));
  }

  method PutCustom(v: Custom, stream: PropWriteStream)
    modifies stream
    ensures stream.buffer == old(stream.buffer) + CustomBytes(v)
  {
    ghost var before := stream.buffer;
    match v {
      case Blank =>
        stream.WriteByte(0);
      case Chars(s) =>
        stream.WriteByte(1);
        stream.WriteStr(s);
        Reassociate(before, [1], StringBytes(s));
      case Number(n) =>
        stream.WriteByte(2);
        stream.Write(n, 8);
        Reassociate(before, [2], Bytes(n, 8));
      case Double(raw) =>
        stream.WriteByte(3);
        stream.buffer := stream.buffer + raw;
        Reassociate(before, [3], raw);
      case Flag(on) =>
        var c: Byte := if on then 1 else 0;
        stream.WriteByte(4);
        stream.WriteByte(c);
        Reassociate(before, [4], [c]);
    }
  }

  method PutCustoms(m: Customs, keys: seq<seq<Byte>>, stream: PropWriteStream)
    requires forall k :: k in keys ==> k in m
    modifies stream
    ensures stream.buffer == old(stream.buffer) + EntryBytes(m, keys)
  {
    ghost var start := stream.buffer;
    var i := 0;
    while i < |keys|
      invariant 0 <= i <= |keys|
      invariant stream.buffer + EntryBytes(m, keys[i..]) == start + EntryBytes(m, keys)
    {
      ghost var before := stream.buffer;
      stream.WriteStr(keys[i]);
      PutCustom(m[keys[i]], stream);
      EntryStart(m, keys, i, before);
      i := i + 1;
    }
    assert stream.buffer + [] == stream.buffer;
  }

  lemma EntryStart(m: Customs, keys: seq<seq<Byte>>, i: nat, before: seq<Byte>)
    requires i < |keys| && forall k :: k in keys ==> k in m
    ensures before + EntryBytes(m, keys[i..]) ==
      ((before + StringBytes(keys[i])) + CustomBytes(m[keys[i]])) + EntryBytes(m, keys[i + 1..])
  {
    var key, value, rest := StringBytes(keys[i]), CustomBytes(m[keys[i]]), EntryBytes(m, keys[i + 1..]);
    assert keys[i..][0] == keys[i] && keys[i..][1..] == keys[i + 1..];
    Reassociate(before, key, value);
    Reassociate(before, key + value, rest);
  }

  method PutCount(types: Types, x: StreamItem, stream: PropWriteStream)
    modifies stream
    ensures stream.buffer == old(stream.buffer) + CountBytes(types, x)
  {
    ghost var before := stream.buffer;
    if types(x.id).stackable || types(x.id).fluid {
      stream.WriteByte(COUNT);
      stream.Write(SubType(types, x), 2);
      Reassociate(before, [COUNT], Bytes(SubType(types, x), 2));
    } else {
      assert before + [] == before;
    }
  }

  method PutAllCustoms(order: Order, x: StreamItem, stream: PropWriteStream)
    requires Ordered(order)
    modifies stream
    ensures stream.buffer == old(stream.buffer) + CustomSection(order, x)
  {
    ghost var before := stream.buffer;
    if x.custom.Some? {
      var m := x.custom.value;
      var keys := order(m);
      assert Walks(keys, m);
      stream.WriteByte(CUSTOM);
      stream.Write(|keys|, 8);
      PutCustoms(m, keys, stream);
      Reassociate(before + [CUSTOM], Bytes(|keys|, 8), EntryBytes(m, keys));
      Reassociate(before, [CUSTOM], Bytes(|keys|, 8) + EntryBytes(m, keys));
    } else {
      assert before + [] == before;
    }
  }

  method PutAttrs(types: Types, x: StreamItem, stream: PropWriteStream)
    modifies stream
    ensures stream.buffer == old(stream.buffer) + Sections(types, x, ORDER)
  {
    ghost var start := stream.buffer;
    assert start + [] == start;
    PutTexts(types, x, stream, start, 0);
    PutDecay(types, x, stream, start, 4);
    PutNames(types, x, stream, start, 7);
    PutNumbers(types, x, stream, start, 10);
    PutCorpse(types, x, stream, start, 13);
    AllSections(types, x);
  }

  method PutTexts(types: Types, x: StreamItem, stream: PropWriteStream, ghost start: seq<Byte>, ghost k: nat)
    requires k == 0 && stream.buffer == start + SectionsTo(types, x, k)
    modifies stream
    ensures stream.buffer == start + SectionsTo(types, x, k + 4)
  {
    PutAttr(types, x, ActionId, stream, start, k);
    PutAttr(types, x, Text, stream, start, k + 1);
    PutAttr(types, x, Date, stream, start, k + 2);
    PutAttr(types, x, Writer, stream, start, k + 3);
  }

  method PutDecay(types: Types, x: StreamItem, stream: PropWriteStream, ghost start: seq<Byte>, ghost k: nat)
    requires k == 4 && stream.buffer == start + SectionsTo(types, x, k)
    modifies stream
    ensures stream.buffer == start + SectionsTo(types, x, k + 3)
  {
    PutAttr(types, x, Description, stream, start, k);
    PutAttr(types, x, Duration, stream, start, k + 1);
    PutAttr(types, x, DecayState, stream, start, k + 2);
  }

  method PutNames(types: Types, x: StreamItem, stream: PropWriteStream, ghost start: seq<Byte>, ghost k: nat)
    requires k == 7 && stream.buffer == start + SectionsTo(types, x, k)
    modifies stream
    ensures stream.buffer == start + SectionsTo(types, x, k + 3)
  {
    PutAttr(types, x, Name, stream, start, k);
    PutAttr(types, x, Article, stream, start, k + 1);
    PutAttr(types, x, PluralName, stream, start, k + 2);
  }

  method PutNumbers(types: Types, x: StreamItem, stream: PropWriteStream, ghost start: seq<Byte>, ghost k: nat)
    requires k == 10 && stream.buffer == start + SectionsTo(types, x, k)
    modifies stream
    ensures stream.buffer == start + SectionsTo(types, x, k + 3)
  {
    PutAttr(types, x, Weight, stream, start, k);
    PutAttr(types, x, Price, stream, start, k + 1);
    PutAttr(types, x, CorpseGender, stream, start, k + 2);
  }

  method PutCorpse(types: Types, x: StreamItem, stream: PropWriteStream, ghost start: seq<Byte>, ghost k: nat)
    requires k == 13 && stream.buffer == start + SectionsTo(types, x, k)
    modifies stream
    ensures stream.buffer == start + SectionsTo(types, x, k + 4)
  {
    PutAttr(types, x, CorpseType, stream, start, k);
    PutAttr(types, x, PokemonId, stream, start, k + 1);
    PutAttr(types, x, CorpseNature, stream, start, k + 2);
    PutAttr(types, x, ShinyStatus, stream, start, k + 3);
  }

  /** `serializeAttr` of a plain item. */
  method SerializeAttr(types: Types, order: Order, x: StreamItem, stream: PropWriteStream)
    requires Ordered(order)
    modifies stream
    ensures stream.buffer == old(stream.buffer) + Attributes(types, order, x)
  {
    ghost var before := stream.buffer;
    PutCount(types, x, stream);
    PutAttrs(types, x, stream);
    PutAllCustoms(order, x, stream);
    ghost var count, sections := CountBytes(types, x), Sections(types, x, ORDER);
    Reassociate(before, count, sections);
    Reassociate(before, count + sections, CustomSection(order, x));
  }

  lemma AllSections(types: Types, x: StreamItem)
    ensures SectionsTo(types, x, 17) == Sections(types, x, ORDER)
  {
    SectionsMeet(types, x, ORDER, 17);
    assert ORDER[17..] == [];
    assert SectionsTo(types, x, 17) + [] == SectionsTo(types, x, 17);
  }

  method SaveContents(types: Types, order: Order, items: seq<StreamItem>, stream: PropWriteStream)
    requires Ordered(order)
    modifies stream
    ensures stream.buffer == old(stream.buffer) + SaveReversed(types, order, items)
    decreases items, 0
  {
    ghost var start := stream.buffer;
    var i := |items|;
    assert items[..i] == items;
    while i > 0
      invariant 0 <= i <= |items|
      invariant stream.buffer + SaveReversed(types, order, items[..i]) == start + SaveReversed(types, order, items)
    {
      assert items[..i][..i - 1] == items[..i - 1];
      Reassociate(stream.buffer, Save(types, order, items[i - 1]), SaveReversed(types, order, items[..i - 1]));
      i := i - 1;
      SaveItem(types, order, items[i], stream);
    }
    assert stream.buffer + [] == stream.buffer;
  }

  /** `saveItem`: a container announces its size and writes its items last first. */
  method SaveItem(types: Types, order: Order, x: StreamItem, stream: PropWriteStream)
    requires Ordered(order)
    modifies stream
    ensures stream.buffer == old(stream.buffer) + Save(types, order, x)
    decreases x, 1
  {
    ghost var before := stream.buffer;
    stream.Write(x.id, 2);
    SerializeAttr(types, order, x, stream);
    ghost var start := stream.buffer;
    if x.box {
      stream.WriteByte(CONTAINER_ITEMS);
      stream.Write(|x.items|, 4);
      SaveContents(types, order, x.items, stream);
    }
    stream.WriteByte(0);
    EndingBytes(types, order, x, start);
    Reassociate(before, Bytes(x.id, 2), Attributes(types, order, x));
    Reassociate(before, Bytes(x.id, 2) + Attributes(types, order, x), Ending(types, order, x));
    Reassociate(Bytes(x.id, 2), Attributes(types, order, x), Ending(types, order, x));
  }

  lemma EndingBytes(types: Types, order: Order, x: StreamItem, start: seq<Byte>)
    requires Ordered(order)
    ensures start + Ending(types, order, x) ==
      if x.box then (((start + [CONTAINER_ITEMS]) + Bytes(|x.items|, 4)) + SaveReversed(types, order, x.items)) + [0]
      else start + [0]
  {
    if x.box {
      var size, items := Bytes(|x.items|, 4), SaveReversed(types, order, x.items);
      Reassociate(start + [CONTAINER_ITEMS] + size, items, [0]);
      Reassociate(start + [CONTAINER_ITEMS], size, items + [0]);
      Reassociate(start, [CONTAINER_ITEMS], size + (items + [0]));
    }
  }

  // ---------- the reader ----------

  datatype Answer = ReadContinue | ReadError | ReadEnd

  method GetCustom(s: PropStream) returns (ok: bool, v: Custom)
    requires s.Valid()
    modifies s`p
    ensures s.Valid() && s.p >= old(s.p) && ok == ReadCustomValue(s.data, old(s.p)).Some?
    ensures ok ==> ReadCustomValue(s.data, old(s.p)) == Some((v, s.p))
  {
    v := Blank;
    var pos;
    ok, pos := s.ReadByte();
    if !ok {
      return;
    }
    match pos {
      case 1 =>
        var text;
        ok, text := s.ReadStr();
        v := Chars(text);
      case 2 =>
        var n;
        ok, n := s.Read(8);
        v := Number(I64(n));
      case 3 =>
        var start := s.p;
        ok := s.Skip(8);
        if ok {
          v := Double(s.data[start..s.p]);
        }
      case 4 =>
        var c;
        ok, c := s.ReadByte();
        v := Flag(c != 0);
      case _ => ok := false;
    }
  }

  method GetCustoms(x: StreamItem, n: nat, s: PropStream) returns (ok: bool, y: StreamItem)
    requires s.Valid()
    modifies s`p
    ensures s.Valid() && s.p >= old(s.p) && ok == ReadEntries(x, n, s.data, old(s.p)).Some?
    ensures ok ==> ReadEntries(x, n, s.data, old(s.p)) == Some((y, s.p))
  {
    y := x;
    var i := 0;
    ghost var left := n;
    while i < n
      invariant s.Valid() && s.p >= old(s.p) && i + left == n
      invariant ReadEntries(y, left, s.data, s.p) == ReadEntries(x, n, s.data, old(s.p))
    {
      ghost var p := s.p;
      var key;
      ok, key := s.ReadStr();
      if !ok {
        assert ReadEntry(s.data, p) == None;
        return;
      }
      ghost var q := s.p;
      var v;
      ok, v := GetCustom(s);
      if !ok {
        EntryFails(y, left, s.data, p, key, q);
        return;
      }
      var y' := SetCustom(y, key, v);
      EntryRead(s.data, p, key, q, v, s.p);
      EntryStep(y, left, s.data, p, key, v, s.p, y', left - 1);
      y, i, left := y', i + 1, left - 1;
    }
    ok := true;
  }

  method GetCount(types: Types, x: StreamItem, s: PropStream) returns (ok: bool, y: StreamItem)
    requires s.Valid()
    modifies s`p
    ensures s.Valid() && s.p >= old(s.p)
    ensures ReadAttr(types, x, COUNT, s.data, old(s.p)) == if ok then Going(y, s.p) else Failed
  {
    var n;
    ok, n := s.Read(2);
    y := if ok then SetSubType(types, x, n) else x;
  }

  method GetAttr(types: Types, x: StreamItem, a: Attr, s: PropStream) returns (ok: bool, y: StreamItem)
    requires s.Valid() && AttrOf(Tag(a)) == Some(a)
    modifies s`p
    ensures s.Valid() && s.p >= old(s.p)
    ensures ReadAttr(types, x, Tag(a), s.data, old(s.p)) == if ok then Going(y, s.p) else Failed
  {
    y := x;
    if IsString(a) {
      var text;
      ok, text := s.ReadStr();
      if ok {
        y := AfterStr(x, a, text);
      }
    } else {
      var v;
      ok, v := s.Read(Width(a));
      if ok {
        y := AfterInt(x, a, v);
      }
    }
  }

  /** `readAttr`, of a container or of a plain item. */
  method GetAnyAttr(types: Types, x: StreamItem, tag: Byte, s: PropStream)
    returns (answer: Answer, y: StreamItem, count: nat)
    requires s.Valid()
    modifies s`p
    ensures s.Valid() && s.p >= old(s.p)
    ensures ReadAttr(types, x, tag, s.data, old(s.p)) ==
      match answer case ReadContinue => Going(y, s.p) case ReadError => Failed case ReadEnd => Ended(y, count, s.p)
  {
    answer, y, count := ReadContinue, x, 0;
    var ok := false;
    if tag == COUNT {
      ok, y := GetCount(types, x, s);
    } else if tag == CONTAINER_ITEMS {
      if x.box {
        ok, count := s.Read(4);
        answer := ReadEnd;
      }
    } else if tag == CUSTOM {
      var n;
      ok, n := s.Read(8);
      if ok {
        ok, y := GetCustoms(x, n, s);
      }
    } else if AttrOf(tag).Some? {
      assert Tag(AttrOf(tag).value) == tag;
      ok, y := GetAttr(types, x, AttrOf(tag).value, s);
    } else if SkipOf(tag).Some? {
      ok := s.Skip(SkipOf(tag).value);
    }
    if !ok {
      answer := ReadError;
    }
  }

  /** `unserializeAttr`. */
  method UnserializeAttr(types: Types, x: StreamItem, s: PropStream) returns (ok: bool, y: StreamItem, count: nat)
    requires s.Valid()
    modifies s`p
    ensures s.Valid() && s.p >= old(s.p) && ok == Unserialize(types, x, s.data, old(s.p)).Some?
    ensures ok ==> Unserialize(types, x, s.data, old(s.p)) == Some((y, count, s.p))
  {
    ok, y, count := true, x, 0;
    ghost var b, whole := s.data, Unserialize(types, x, s.data, s.p);
    var done := false;
    while !done
      invariant s.Valid() && s.p >= old(s.p)
      invariant Pending(types, b, done, ok, y, count, s.p) == whole
      decreases !done, |s.data| - s.p
    {
      done, ok, y, count := OneAttr(types, y, s);
    }
  }

  /** What the rest of the loop comes to. */
  function Pending(types: Types, b: seq<Byte>, done: bool, ok: bool, y: StreamItem, count: nat, p: nat)
    : Option<(StreamItem, nat, nat)>
  {
    if !done then Unserialize(types, y, b, p) else if ok then Some((y, count, p)) else None
  }

  /** One round of the loop. */
  method OneAttr(types: Types, x: StreamItem, s: PropStream) returns (done: bool, ok: bool, y: StreamItem, count: nat)
    requires s.Valid()
    modifies s`p
    ensures s.Valid() && s.p >= old(s.p) && (!done ==> s.p > old(s.p))
    ensures Pending(types, s.data, done, ok, y, count, s.p) == Unserialize(types, x, s.data, old(s.p))
  {
    done, ok, y, count := true, true, x, 0;
    ghost var b, p := s.data, s.p;
    var more, tag := s.ReadByte();
    if !more || tag == 0 {
      EndStep(types, x, b, p, s.p);
      return;
    }
    var answer;
    answer, y, count := GetAnyAttr(types, x, tag, s);
    ghost var reading := ReadAttr(types, x, tag, b, p + 1);
    match answer {
      case ReadError =>
        assert reading == Failed;
        FailStep(types, x, b, p);
        ok := false;
      case ReadEnd =>
        assert reading == Ended(y, count, s.p);
        StopStep(types, x, b, p, y, count, s.p);
      case ReadContinue =>
        assert reading == Going(y, s.p);
        OneStep(types, x, b, p, y, s.p);
        done := false;
    }
  }

  /** `loadItem`, where the item is created anew. */
  method LoadItem(types: Types, s: PropStream) returns (ok: bool, item: Option<StreamItem>)
    requires s.Valid()
    modifies s`p
    ensures s.Valid() && s.p >= old(s.p) && ok == Load(types, s.data, old(s.p)).Some?
    ensures ok ==> Load(types, s.data, old(s.p)) == Some((item, s.p))
    decreases |s.data| - s.p, 0
  {
    item := None;
    var id;
    ok, id := s.Read(2);
    if !ok {
      return;
    }
    var created := CreateItem(types, id);
    if created.Some? {
      var x, count;
      ok, x, count := UnserializeAttr(types, created.value, s);
      if !ok {
        return;
      }
      if x.box {
        ok, x := LoadContainer(types, x, count, s);
        if !ok {
          return;
        }
      }
      item := Some(x);
    }
  }

  /** `loadContainer`: every item goes in front of the ones before it. */
  method LoadContainer(types: Types, x: StreamItem, count: nat, s: PropStream) returns (ok: bool, y: StreamItem)
    requires s.Valid()
    modifies s`p
    ensures s.Valid() && s.p >= old(s.p) && ok == LoadContents(types, x, count, s.data, old(s.p)).Some?
    ensures ok ==> LoadContents(types, x, count, s.data, old(s.p)) == Some((y, s.p))
    decreases |s.data| - s.p, 1
  {
    y := x;
    var serializationCount := count;
    while serializationCount > 0
      invariant s.Valid() && s.p >= old(s.p)
      invariant LoadContents(types, y, serializationCount, s.data, s.p) ==
        LoadContents(types, x, count, s.data, old(s.p))
    {
      ghost var p := s.p;
      var item;
      ok, item := LoadItem(types, s);
      if !ok {
        return;
      }
      ContentsStep(types, y, serializationCount, s.data, p, Some((item, s.p)));
      if item.Some? {
        y := y.(items := [item.value] + y.items);
      }
      serializationCount := serializationCount - 1;
    }
    var endAttr;
    ok, endAttr := s.ReadByte();
    ok := ok && endAttr == 0;
  }

  /** Saving an item and loading it back. */
  method SaveAndLoad(types: Types, order: Order, x: StreamItem) returns (ok: bool, item: Option<StreamItem>)
    requires Ordered(order) && Saveable(types, order, x)
    ensures ok <==> Readable(x)
    ensures ok ==> item == Some(Normal(types, x))
  {
    var out := new PropWriteStream();
    SaveItem(types, order, x, out);
    var bytes := out.buffer;
    assert bytes == Save(types, order, x);
    var s := new PropStream(bytes);
    ok, item := LoadItem(types, s);
    assert bytes[0..0 + |bytes|] == bytes;
    LoadSaved(types, order, x, bytes, 0, |bytes|);
  }
}
