/** The codec as it runs: an encoder that appends to a buffer and a decoder that advances through its input. */
module CborCodec {
  import opened Wrappers
  import opened Hashing
  import opened BigEndian
  import opened Cbor
  import opened CborProofs
  import opened CborWire

  class Encoder {
    var out: seq<byte>

    constructor ()
      ensures out == []
    {
      out := [];
    }

    method WriteHead(major: nat, arg: u64)
      requires major < 8
      modifies this
      ensures out == old(out) + EncodeHead(major, arg)
    {
      var mt := 32 * major;
      if arg < 24 {
        out := out + [mt + arg];
      } else if arg <= 0xff {
        out := out + [mt + 24] + Be(arg, 1);
      } else if arg <= 0xffff {
        out := out + [mt + 25] + Be(arg, 2);
      } else if arg <= 0xffff_ffff {
        out := out + [mt + 26] + Be(arg, 4);
      } else {
        out := out + [mt + 27] + Be(arg, 8);
      }
    }

    method EncodeInto(v: Value)
      modifies this
      ensures out == old(out) + Encode(v)
      decreases v
    {
      match v {
        case Uint(n) => WriteHead(0, n);
        case Nint(n) => WriteHead(1, n);
        case Bytes(b) =>
          WriteHead(2, AsU64(|b|));
          out := out + b;
        case Text(t) =>
          WriteHead(3, AsU64(|t|));
          out := out + t;
        case Array(items) =>
          WriteHead(4, AsU64(|items|));
          WriteItems(items);
        case Map(entries) =>
          WriteHead(5, AsU64(|entries|));
          WriteEntries(entries);
        case Tag(t, inner) =>
          WriteHead(6, t);
          EncodeInto(inner);
        case Bool(b) => out := out + [if b then 0xf5 else 0xf4];
        case Null => out := out + [0xf6];
      }
    }

    method WriteItems(items: seq<Value>)
      modifies this
      ensures out == old(out) + EncodeItems(items)
      decreases items, 1
    {
      for i := 0 to |items|
        invariant out + EncodeItems(items[i..]) == old(out) + EncodeItems(items)
      {
        assert items[i..][1..] == items[i + 1..];
        EncodeInto(items[i]);
      }
    }

    method WriteEntries(entries: seq<Entry>)
      modifies this
      ensures out == old(out) + EncodeEntries(entries)
      decreases entries, 1
    {
      for i := 0 to |entries|
        invariant out + EncodeEntries(entries[i..]) == old(out) + EncodeEntries(entries)
      {
        assert entries[i..][1..] == entries[i + 1..];
        out := out + entries[i].keyBytes;
        EncodeInto(entries[i].value);
      }
    }
  }

  /** Items read so far, in front of what the rest of the loop will read. */
  function Prepend<T>(done: seq<T>, r: Result<Parsed<seq<T>>, Error>): Result<Parsed<seq<T>>, Error> {
    if r.Err? then r else Ok(Parsed(done + r.value.value, r.value.rest))
  }

  lemma ItemsNext(done: seq<Value>, s: seq<byte>, count: nat, depth: nat)
    requires count > 0 && ParseValue(s, depth).Ok?
    ensures var first := ParseValue(s, depth).value;
            Prepend(done, ParseItems(s, count, depth)) ==
            Prepend(done + [first.value], ParseItems(first.rest, count - 1, depth))
  {
    var first := ParseValue(s, depth).value;
    var more := ParseItems(first.rest, count - 1, depth);
    if more.Ok? {
      assert done + ([first.value] + more.value.value) == done + [first.value] + more.value.value;
    }
  }

  lemma EntriesNext(done: seq<Entry>, s: seq<byte>, count: nat, depth: nat, previous: Option<seq<byte>>)
    requires count > 0 && ParseEntry(s, depth, previous).Ok?
    ensures var first := ParseEntry(s, depth, previous).value;
            Prepend(done, ParseEntries(s, count, depth, previous)) ==
            Prepend(done + [first.value], ParseEntries(first.rest, count - 1, depth, Some(first.value.keyBytes)))
  {
    var first := ParseEntry(s, depth, previous).value;
    var more := ParseEntries(first.rest, count - 1, depth, Some(first.value.keyBytes));
    if more.Ok? {
      assert done + ([first.value] + more.value.value) == done + [first.value] + more.value.value;
    }
  }

  lemma PrependNothing<T>(r: Result<Parsed<seq<T>>, Error>)
    ensures Prepend([], r) == r
  {
    if r.Ok? {
      assert [] + r.value.value == r.value.value;
    }
  }

  class Decoder {
    const input: seq<byte>
    var pos: nat

    ghost predicate Valid()
      reads this
    {
      pos <= |input|
    }

    constructor (input: seq<byte>)
      ensures this.input == input && pos == 0 && Valid()
    {
      this.input := input;
      pos := 0;
    }

    /** A step of the decoder agrees with the parser on the input that was left when the step began. */
    ghost predicate Agrees<T>(r: Result<T, Error>, spec: Result<Parsed<T>, Error>)
      requires Valid()
      reads this
    {
      if r.Ok? then spec == Ok(Parsed(r.value, input[pos..])) else spec.Err? && spec.error == r.error
    }

    method Take(n: nat) returns (r: Result<seq<byte>, Error>)
      requires Valid()
      modifies this
      ensures Valid()
      ensures Agrees(r, var s := input[old(pos)..]; if n > |s| then Err(Truncated) else Ok(Parsed(s[..n], s[n..])))
    {
      if n > |input| - pos {
        return Err(Truncated);
      }
      ghost var s := input[pos..];
      r := Ok(input[pos..pos + n]);
      pos := pos + n;
      assert s[..n] == r.value && s[n..] == input[pos..];
    }

    method ReadHead() returns (r: Result<Head, Error>)
      requires Valid()
      modifies this
      ensures Valid()
      ensures Agrees(r, ParseHead(input[old(pos)..]))
    {
      ghost var s := input[pos..];
      var initial :- Take(1);
      var major, info := initial[0] / 32, initial[0] % 32;
      if info < 24 {
        return Ok(Head(major, info, info));
      }
      if info <= 27 {
        var b :- Take(Width(info));
        assert s[1..][..Width(info)] == s[1..1 + Width(info)] && s[1..][Width(info)..] == s[1 + Width(info)..];
        FromBeRange(b);
        Ranges();
        var arg: u64 := FromBe(b);
        if arg < Least(info) && major != 7 {
          return Err(NonShortestArgument);
        }
        return Ok(Head(major, info, arg));
      }
      if info <= 30 {
        return Err(ReservedAdditionalInfo);
      }
      return Err(IndefiniteLength);
    }

    method ReadValue(depth: nat) returns (r: Result<Value, Error>)
      requires Valid()
      modifies this
      ensures Valid()
      ensures Agrees(r, ParseValue(input[old(pos)..], depth))
      decreases MAX_DEPTH + 1 - depth, 0
    {
      if depth > MAX_DEPTH {
        return Err(TooDeep);
      }
      var h :- ReadHead();
      r := ReadBody(h, depth);
    }

    method ReadBody(h: Head, depth: nat) returns (r: Result<Value, Error>)
      requires Valid() && depth <= MAX_DEPTH
      modifies this
      ensures Valid()
      ensures Agrees(r, ParseBody(h, input[old(pos)..], depth))
      decreases MAX_DEPTH - depth, 3
    {
      if 2 <= h.major <= 5 && h.arg > |input| - pos {
        return Err(LengthExceedsInput);
      }
      match h.major {
        case 0 => r := Ok(Uint(h.arg));
        case 1 => r := Ok(Nint(h.arg));
        case 2 =>
          var b := Take(h.arg);
          r := Ok(Bytes(b.value));
        case 3 =>
          var t := Take(h.arg);
          if !ValidUtf8(t.value) {
            return Err(InvalidUtf8);
          }
          r := Ok(Text(t.value));
        case 4 =>
          var items :- ReadItems(h.arg, depth + 1);
          r := Ok(Array(items));
        case 5 =>
          var entries :- ReadEntries(h.arg, depth + 1);
          r := Ok(Map(entries));
        case 6 =>
          var inner :- ReadValue(depth + 1);
          r := Ok(Tag(h.arg, inner));
        case _ =>
          if h.info == 20 {
            r := Ok(Bool(false));
          } else if h.info == 21 {
            r := Ok(Bool(true));
          } else if h.info == 22 {
            r := Ok(Null);
          } else {
            r := Err(UnsupportedSimpleOrFloat);
          }
      }
    }

    method ReadItems(count: nat, depth: nat) returns (r: Result<seq<Value>, Error>)
      requires Valid()
      modifies this
      ensures Valid()
      ensures Agrees(r, ParseItems(input[old(pos)..], count, depth))
      decreases MAX_DEPTH + 1 - depth, 1
    {
      var items := [];
      PrependNothing(ParseItems(input[pos..], count, depth));
      for i := 0 to count
        invariant Valid()
        invariant ParseItems(input[old(pos)..], count, depth) ==
                  Prepend(items, ParseItems(input[pos..], count - i, depth))
      {
        ghost var s := input[pos..];
        var item :- ReadValue(depth);
        ItemsNext(items, s, count - i, depth);
        items := items + [item];
      }
      assert items + [] == items;
      r := Ok(items);
    }

    method ReadEntries(count: nat, depth: nat) returns (r: Result<seq<Entry>, Error>)
      requires Valid()
      modifies this
      ensures Valid()
      ensures Agrees(r, ParseEntries(input[old(pos)..], count, depth, None))
      decreases MAX_DEPTH + 1 - depth, 2
    {
      var entries := [];
      var previous: Option<seq<byte>> := None;
      PrependNothing(ParseEntries(input[pos..], count, depth, None));
      for i := 0 to count
        invariant Valid()
        invariant ParseEntries(input[old(pos)..], count, depth, None) ==
                  Prepend(entries, ParseEntries(input[pos..], count - i, depth, previous))
      {
        ghost var s := input[pos..];
        var entry :- ReadEntry(depth, previous);
        EntriesNext(entries, s, count - i, depth, previous);
        entries := entries + [entry];
        previous := Some(entry.keyBytes);
      }
      assert entries + [] == entries;
      r := Ok(entries);
    }

    method ReadEntry(depth: nat, previous: Option<seq<byte>>) returns (r: Result<Entry, Error>)
      requires Valid()
      modifies this
      ensures Valid()
      ensures Agrees(r, ParseEntry(input[old(pos)..], depth, previous))
      decreases MAX_DEPTH + 1 - depth, 1
    {
      ghost var s := input[pos..];
      var start := pos;
      var key :- ReadValue(depth);
      var bytes := input[start..pos];
      assert bytes == KeyBytes(s, Parsed(key, input[pos..]));
      if previous.Some? {
        if previous.value == bytes {
          return Err(DuplicateKey);
        }
        if !Less(previous.value, bytes) {
          return Err(UnsortedMapKeys);
        }
      }
      var value :- ReadValue(depth);
      r := Ok(Entry(bytes, key, value));
    }
  }

  /** Decodes exactly one item: the value whose only encoding the input is. The unsigned keys of a map ascend. */
  method DecodeBytes(input: seq<byte>) returns (r: Result<Value, Error>)
    ensures r == Decode(input)
    ensures r.Ok? && r.value.Map? ==> Ascending(r.value.entries)
    ensures r.Ok? ==> forall f: Value -> seq<byte> :: EncodesAs(f) ==> f(r.value) == input
  {
    var d := new Decoder(input);
    assert input[0..] == input;
    var v :- d.ReadValue(0);
    if d.pos != |input| {
      return Err(TrailingBytes);
    }
    r := Ok(v);
    DecodeExact(input, v);
    EncodingIsIt(v);
    if v.Map? {
      KeysAscend(v.entries);
    }
  }

  /** Encodes a value; decoding the result gives the value back. */
  method EncodeBytes(v: Value) returns (out: seq<byte>)
    ensures out == Encode(v)
    ensures Codable(v) ==> Decode(out) == Ok(v)
    ensures WellFormed(v) ==> forall f: Value -> seq<byte> :: EncodesAs(f) ==> f(v) == out
  {
    var e := new Encoder();
    e.EncodeInto(v);
    out := e.out;
    DecodeExact(out, v);
    if WellFormed(v) {
      EncodingIsIt(v);
    }
  }
}
