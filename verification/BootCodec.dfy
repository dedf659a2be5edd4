/** The boot state as bytes: a record holding an array of records. */
module BootCodec {
  import opened Wrappers
  import opened Hashing
  import opened Cbor
  import opened CborRecord
  import BootState

  type State = BootState.State
  type Slot = BootState.Slot

  function U16(v: Value): Option<Value> {
    if v.Uint? && v.n < 0x1_0000 then Some(v) else None
  }

  function U64(v: Value): Option<Value> {
    if v.Uint? then Some(v) else None
  }

  function Boolean(v: Value): Option<Value> {
    if v.Bool? then Some(v) else None
  }

  function TextOf(v: Value): Option<Value> {
    if v.Text? && WellFormed(v) then Some(v) else None
  }

  const SLOT: seq<Field> :=
    [Field(1, false, TextOf), Field(2, false, U16), Field(3, false, U16), Field(4, false, Boolean)]

  function SlotValue(v: Value): Option<Value> {
    var r := FromValue(SLOT, v);
    if r.Ok? then Some(ToValue(SLOT, r.value)) else None
  }

  /** A vector of slots: every item must convert. */
  function SlotItems(items: seq<Value>): Option<seq<Value>> {
    if items == [] then Some([])
    else
      var first :- SlotValue(items[0]);
      var more :- SlotItems(items[1..]);
      Some([first] + more)
  }

  function SlotArray(v: Value): Option<Value> {
    if v.Array? && |v.items| < 0x1_0000_0000_0000_0000 then
      var items :- SlotItems(v.items);
      Some(Array(items))
    else None
  }

  const STATE: seq<Field> := [Field(1, false, U64), Field(2, false, SlotArray)]

  function SlotRecord(s: Slot): Record {
    [Some(Text(s.name)), Some(Uint(s.priority)), Some(Uint(s.tries)), Some(Bool(s.successful))]
  }

  function SlotMaps(slots: seq<Slot>): seq<Value> {
    if slots == [] then [] else [ToValue(SLOT, SlotRecord(slots[0]))] + SlotMaps(slots[1..])
  }

  function StateRecord(s: State): Record {
    [Some(Uint(s.floor)), Some(Array(SlotMaps(s.slots)))]
  }

  /** The bytes of the state file. */
  function StateBytes(s: State): seq<byte> {
    ToCbor(STATE, StateRecord(s))
  }

  /** The slot a map stands for. */
  function SlotOf(v: Value): Option<Slot> {
    var r := FromValue(SLOT, v);
    if r.Ok? && TypedSlot(r.value) then
      Some(BootState.Slot(r.value[0].value.utf8, r.value[1].value.n, r.value[2].value.n, r.value[3].value.b))
    else None
  }

  predicate TypedSlot(r: Record) {
    && |r| == 4 && r[0].Some? && r[0].value.Text? && r[1].Some? && U16(r[1].value).Some?
    && r[2].Some? && U16(r[2].value).Some? && r[3].Some? && r[3].value.Bool?
  }

  function SlotsOf(items: seq<Value>): Option<seq<Slot>> {
    if items == [] then Some([])
    else
      var first :- SlotOf(items[0]);
      var more :- SlotsOf(items[1..]);
      Some([first] + more)
  }

  /** Parses the bytes of a state file. */
  function ParseState(bytes: seq<byte>): Option<State> {
    var r := FromCbor(STATE, bytes);
    if r.Ok? && |r.value| == 2 && r.value[0].Some? && r.value[0].value.Uint? && r.value[1].Some? &&
       r.value[1].value.Array?
    then
      var slots :- SlotsOf(r.value[1].value.items);
      Some(BootState.State(r.value[0].value.n, slots))
    else None
  }

  /** States that fit a machine and carry valid names. */
  predicate Storable(s: State) {
    && |s.slots| < 0x1_0000_0000
    && forall i :: 0 <= i < |s.slots| ==> StorableSlot(s.slots[i])
  }

  predicate StorableSlot(s: Slot) {
    |s.name| < 0x1_0000_0000 && ValidUtf8(s.name)
  }

  lemma SlotSchema()
    ensures Distinct(SLOT) && Converts(SLOT)
  {
  }

  lemma SlotFits(s: Slot)
    requires StorableSlot(s)
    ensures Fits(SLOT, SlotRecord(s))
    ensures SlotValue(ToValue(SLOT, SlotRecord(s))) == Some(ToValue(SLOT, SlotRecord(s)))
    ensures SlotOf(ToValue(SLOT, SlotRecord(s))) == Some(s)
  {
    SlotSchema();
    var r := SlotRecord(s);
    assert Fits(SLOT, r);
    ValueReads(SLOT, r);
  }

  /** The map of a slot is nested one level deep. */
  lemma {:induction false} PutFlat(schema: seq<Field>, r: Record, entries: seq<Entry>)
    requires |r| == |schema|
    requires forall i :: 0 <= i < |r| && r[i].Some? ==> WellFormed(r[i].value) && Depth(r[i].value) == 0
    requires WellFormedEntries(entries) && EntriesDepth(entries) <= 1
    ensures EntriesDepth(Put(schema, r, entries)) <= 1
    decreases |schema|
  {
    if schema != [] {
      var more := entries;
      if r[0].Some? && Lookup(entries, KeyOf(schema[0])).None? {
        var e := Entry(KeyOf(schema[0]), Uint(schema[0].key), r[0].value);
        InsertKeeps(entries, e, None);
        InsertDepth(entries, e);
        more := Insert(entries, e);
      }
      PutFlat(schema[1..], r[1..], more);
    }
  }

  /** What a slot converts to: a well-formed map of depth one. */
  lemma SlotConverts(v: Value)
    requires SlotValue(v).Some?
    ensures WellFormed(SlotValue(v).value) && Depth(SlotValue(v).value) <= 1
  {
    SlotSchema();
    var r := FromValue(SLOT, v).value;
    ReadShallow(SLOT, v.entries, r);
    RecordCodable(SLOT, r);
    ReadEach(SLOT, v.entries, r);
    forall i | 0 <= i < |r| && r[i].Some? ensures WellFormed(r[i].value) && Depth(r[i].value) == 0 {
      assert ReadField(SLOT[i], v.entries) == Ok(r[i]);
    }
    PutFlat(SLOT, r, []);
  }

  lemma {:induction false} ItemsConvert(items: seq<Value>)
    requires SlotItems(items).Some?
    ensures var out := SlotItems(items).value;
            |out| == |items| && WellFormedItems(out) && ItemsDepth(out) <= 2
    decreases |items|
  {
    if items != [] {
      SlotConverts(items[0]);
      ItemsConvert(items[1..]);
      assert SlotItems(items).value[1..] == SlotItems(items[1..]).value;
    }
  }

  lemma StateSchema()
    ensures Distinct(STATE) && Converts(STATE)
  {
    forall i, v | 0 <= i < |STATE| && STATE[i].convert(v).Some? ensures Shallow(STATE[i].convert(v).value) {
      if i == 1 {
        ItemsConvert(v.items);
      }
    }
  }

  lemma {:induction false} MapsConvert(slots: seq<Slot>)
    requires forall i :: 0 <= i < |slots| ==> StorableSlot(slots[i])
    ensures |SlotMaps(slots)| == |slots|
    ensures SlotItems(SlotMaps(slots)) == Some(SlotMaps(slots)) && SlotsOf(SlotMaps(slots)) == Some(slots)
    decreases |slots|
  {
    if slots != [] {
      SlotFits(slots[0]);
      MapsConvert(slots[1..]);
      assert SlotMaps(slots)[1..] == SlotMaps(slots[1..]);
      assert slots == [slots[0]] + slots[1..];
    }
  }

  lemma StateFits(s: State)
    requires Storable(s)
    ensures Fits(STATE, StateRecord(s))
  {
    MapsConvert(s.slots);
    ItemsConvert(SlotMaps(s.slots));
  }

  /** A stored state parses back. */
  lemma StateRoundTrip(s: State)
    requires Storable(s)
    ensures ParseState(StateBytes(s)) == Some(s)
  {
    StateSchema();
    StateFits(s);
    RecordExact(STATE, StateRecord(s), StateBytes(s));
    MapsConvert(s.slots);
  }

  /** A state file cut short never parses. */
  lemma TruncatedState(s: State, n: nat)
    requires Storable(s) && n < |StateBytes(s)|
    ensures ParseState(StateBytes(s)[..n]).None?
  {
    StateSchema();
    StateFits(s);
    TruncatedRecord(STATE, StateRecord(s), n);
  }
}
