/**
 The strict parser is the exact inverse of the encoder: it accepts a byte string if and only if that string is the
 encoding of a well-formed value that is not nested too deeply.

 Maps keep the key bytes found in the input, so "the stored key bytes are the encoding of the key" and "what was
 parsed encodes to what was read" are proved together.
 */
module CborProofs {
  import opened Wrappers
  import opened Hashing
  import opened BigEndian
  import opened Cbor

  lemma Assoc(a: seq<byte>, b: seq<byte>, c: seq<byte>)
    ensures (a + b) + c == a + (b + c)
  {
  }

  // ----- Heads -----

  lemma HeadParses(major: nat, arg: u64, rest: seq<byte>)
    requires major < 8
    ensures ParseHead(EncodeHead(major, arg) + rest) == Ok(Parsed(Head(major, ShortestInfo(arg), arg), rest))
  {
    var info := ShortestInfo(arg);
    var w := Width(info);
    var s := EncodeHead(major, arg) + rest;
    assert s[0] / 32 == major && s[0] % 32 == info;
    assert s[1..1 + w] == Be(arg, w) && s[1 + w..] == rest;
    Ranges();
    if info >= 24 {
      FromBeOfBe(arg, w);
    }
  }

  /** A head other than a simple value is accepted only in its shortest form. */
  lemma HeadCanonical(s: seq<byte>)
    requires ParseHead(s).Ok? && ParseHead(s).value.value.major != 7
    ensures var p := ParseHead(s).value;
            s == EncodeHead(p.value.major, p.value.arg) + p.rest
  {
    var p := ParseHead(s).value;
    var info := s[0] % 32;
    HeadIsShortest(s);
    assert s[0] == 32 * p.value.major + info;
    if info < 24 {
      assert s == [s[0]] + s[1..];
    } else {
      BeOfFromBe(s[1..1 + Width(info)]);
      HeadBytes(s, Width(info));
    }
  }

  lemma HeadBytes(s: seq<byte>, w: nat)
    requires |s| >= 1 + w
    ensures s == [s[0]] + s[1..1 + w] + s[1 + w..]
  {
  }

  lemma HeadIsShortest(s: seq<byte>)
    requires ParseHead(s).Ok? && ParseHead(s).value.value.major != 7
    ensures s != [] && ShortestInfo(ParseHead(s).value.value.arg) == s[0] % 32
  {
    Ranges();
    var info := s[0] % 32;
    if info >= 24 {
      FromBeRange(s[1..1 + Width(info)]);
    }
  }

  // ----- What is accepted is canonical -----

  /** `v` was read from the front of `s` at nesting depth `depth`. */
  predicate ReadFrom(s: seq<byte>, v: Value, rest: seq<byte>, depth: nat) {
    WellFormed(v) && s == Encode(v) + rest && depth + Depth(v) <= MAX_DEPTH
  }

  lemma {:induction false} ValueSound(s: seq<byte>, depth: nat)
    requires ParseValue(s, depth).Ok?
    ensures var p := ParseValue(s, depth).value;
            ReadFrom(s, p.value, p.rest, depth)
    decreases |s|, 0, 0
  {
    var h := ParseHead(s).value;
    if h.value.major == 7 {
      assert s == [s[0]] + h.rest;
    } else {
      HeadCanonical(s);
      BodySound(h.value, h.rest, depth);
      var p := ParseValue(s, depth).value;
      assert EncodeHead(h.value.major, h.value.arg) + h.rest == Encode(p.value) + p.rest;
    }
  }

  /** The part of `ValueSound` after the head. */
  lemma {:induction false} BodySound(h: Head, s: seq<byte>, depth: nat)
    requires h.major < 7 && depth <= MAX_DEPTH && ParseBody(h, s, depth).Ok?
    ensures var p := ParseBody(h, s, depth).value;
            ReadFrom(EncodeHead(h.major, h.arg) + s, p.value, p.rest, depth)
    decreases |s|, 2, 0
  {
    var p := ParseBody(h, s, depth).value;
    match h.major
    case 0 | 1 =>
    case 2 | 3 =>
      StringRead(h.major, s[..h.arg], s[h.arg..]);
      assert s == s[..h.arg] + s[h.arg..];
    case 4 =>
      ItemsSound(s, h.arg, depth + 1);
      ArrayRead(p.value.items, p.rest, depth);
    case 5 =>
      EntriesSound(s, h.arg, depth + 1, None);
      MapRead(p.value.entries, p.rest, depth);
    case 6 =>
      ValueSound(s, depth + 1);
      Assoc(EncodeHead(6, h.arg), Encode(p.value.inner), p.rest);
  }

  lemma StringRead(major: nat, b: seq<byte>, rest: seq<byte>)
    requires 2 <= major <= 3 && |b| < 0x1_0000_0000_0000_0000
    ensures EncodeHead(major, |b|) + (b + rest) == Encode(if major == 2 then Bytes(b) else Text(b)) + rest
  {
    Assoc(EncodeHead(major, |b|), b, rest);
  }

  lemma {:induction false} ArrayRead(items: seq<Value>, rest: seq<byte>, depth: nat)
    requires |items| < 0x1_0000_0000_0000_0000 && WellFormedItems(items) && depth + ItemsDepth(items) <= MAX_DEPTH
    ensures ReadFrom(EncodeHead(4, |items|) + (EncodeItems(items) + rest), Array(items), rest, depth)
  {
    Assoc(EncodeHead(4, |items|), EncodeItems(items), rest);
  }

  lemma {:induction false} MapRead(entries: seq<Entry>, rest: seq<byte>, depth: nat)
    requires |entries| < 0x1_0000_0000_0000_0000 && WellFormedEntries(entries)
    requires depth + EntriesDepth(entries) <= MAX_DEPTH
    ensures ReadFrom(EncodeHead(5, |entries|) + (EncodeEntries(entries) + rest), Map(entries), rest, depth)
  {
    Assoc(EncodeHead(5, |entries|), EncodeEntries(entries), rest);
  }

  lemma {:induction false} ItemsSound(s: seq<byte>, count: nat, depth: nat)
    requires 0 < depth <= MAX_DEPTH + 1 && ParseItems(s, count, depth).Ok?
    ensures var p := ParseItems(s, count, depth).value;
            && |p.value| == count
            && WellFormedItems(p.value)
            && s == EncodeItems(p.value) + p.rest
            && depth - 1 + ItemsDepth(p.value) <= MAX_DEPTH
    decreases |s|, 1, count
  {
    if count > 0 {
      ValueSound(s, depth);
      var first := ParseValue(s, depth).value;
      ItemsSound(first.rest, count - 1, depth);
      var more := ParseItems(first.rest, count - 1, depth).value;
      var items := [first.value] + more.value;
      assert items[1..] == more.value;
      Assoc(Encode(first.value), EncodeItems(more.value), more.rest);
    }
  }

  lemma {:induction false} EntriesSound(s: seq<byte>, count: nat, depth: nat, previous: Option<seq<byte>>)
    requires 0 < depth <= MAX_DEPTH + 1 && ParseEntries(s, count, depth, previous).Ok?
    ensures var p := ParseEntries(s, count, depth, previous).value;
            && |p.value| == count
            && WellFormedEntries(p.value)
            && Before(previous, p.value)
            && s == EncodeEntries(p.value) + p.rest
            && depth - 1 + EntriesDepth(p.value) <= MAX_DEPTH
    decreases |s|, 1, count
  {
    if count > 0 {
      EntrySound(s, depth, previous);
      var first := ParseEntry(s, depth, previous).value;
      EntriesSound(first.rest, count - 1, depth, Some(first.value.keyBytes));
      var more := ParseEntries(first.rest, count - 1, depth, Some(first.value.keyBytes)).value;
      EntriesCons(first.value, more.value);
      Assoc(first.value.keyBytes + Encode(first.value.value), EncodeEntries(more.value), more.rest);
    }
  }

  /** The bytes stored for a key are its encoding. */
  lemma {:induction false} EntrySound(s: seq<byte>, depth: nat, previous: Option<seq<byte>>)
    requires ParseEntry(s, depth, previous).Ok?
    ensures var p := ParseEntry(s, depth, previous).value;
            var e := p.value;
            && e.keyBytes == Encode(e.key) && WellFormed(e.key) && WellFormed(e.value)
            && Before(previous, [e])
            && s == e.keyBytes + Encode(e.value) + p.rest
            && depth + Max(Depth(e.key), Depth(e.value)) <= MAX_DEPTH
    decreases |s|, 1, 0
  {
    ValueSound(s, depth);
    var key := ParseValue(s, depth).value;
    ValueSound(key.rest, depth);
    var value := ParseValue(key.rest, depth).value;
    assert s == Encode(key.value) + Encode(value.value) + value.rest;
    assert KeyBytes(s, key) == Encode(key.value);
  }

  lemma {:induction false} EntriesCons(e: Entry, more: seq<Entry>)
    ensures var all := [e] + more;
            && (WellFormedEntries(all) <==>
                && e.keyBytes == Encode(e.key) && WellFormed(e.key) && WellFormed(e.value)
                && Before(Some(e.keyBytes), more) && WellFormedEntries(more))
            && EncodeEntries(all) == e.keyBytes + Encode(e.value) + EncodeEntries(more)
            && EntriesDepth(all) == Max(1 + Max(Depth(e.key), Depth(e.value)), EntriesDepth(more))
  {
    assert ([e] + more)[1..] == more;
  }

  // ----- Every encoding is accepted -----

  lemma {:induction false} ValueParses(v: Value, rest: seq<byte>, depth: nat)
    requires WellFormed(v) && depth + Depth(v) <= MAX_DEPTH
    ensures ParseValue(Encode(v) + rest, depth) == Ok(Parsed(v, rest))
    decreases v
  {
    match v
    case Uint(n) => HeadParses(0, n, rest);
    case Nint(n) => HeadParses(1, n, rest);
    case Bytes(b) => StringParses(2, b, rest, depth);
    case Text(t) => StringParses(3, t, rest, depth);
    case Array(items) =>
      PartsParse(4, |items|, EncodeItems(items), rest, depth);
      ItemsParse(items, rest, depth + 1);
    case Map(entries) =>
      PartsParse(5, |entries|, EncodeEntries(entries), rest, depth);
      EntriesParse(entries, rest, depth + 1, None);
    case Tag(t, inner) =>
      PartsParse(6, t, Encode(inner), rest, depth);
      ValueParses(inner, rest, depth + 1);
    case Bool(b) => SimpleParses(if b then 21 else 20, rest);
    case Null => SimpleParses(22, rest);
  }

  lemma SimpleParses(info: nat, rest: seq<byte>)
    requires 20 <= info <= 22
    ensures ParseHead([224 + info] + rest) == Ok(Parsed(Head(7, info, info), rest))
  {
    assert ([224 + info] + rest)[1..] == rest;
  }

  /** Past the head, the parser is at the parts. */
  lemma PartsParse(major: nat, arg: u64, parts: seq<byte>, rest: seq<byte>, depth: nat)
    requires major < 8 && depth <= MAX_DEPTH
    ensures ParseValue(EncodeHead(major, arg) + parts + rest, depth) ==
            ParseBody(Head(major, ShortestInfo(arg), arg), parts + rest, depth)
  {
    HeadParses(major, arg, parts + rest);
    Assoc(EncodeHead(major, arg), parts, rest);
  }

  lemma StringParses(major: nat, b: seq<byte>, rest: seq<byte>, depth: nat)
    requires 2 <= major <= 3 && |b| < 0x1_0000_0000_0000_0000 && depth <= MAX_DEPTH && (major == 3 ==> ValidUtf8(b))
    ensures ParseValue(EncodeHead(major, |b|) + b + rest, depth) ==
            Ok(Parsed(if major == 2 then Bytes(b) else Text(b), rest))
  {
    PartsParse(major, |b|, b, rest, depth);
    assert (b + rest)[..|b|] == b && (b + rest)[|b|..] == rest;
  }

  lemma {:induction false} ItemsParse(items: seq<Value>, rest: seq<byte>, depth: nat)
    requires WellFormedItems(items) && 0 < depth && depth - 1 + ItemsDepth(items) <= MAX_DEPTH
    ensures ParseItems(EncodeItems(items) + rest, |items|, depth) == Ok(Parsed(items, rest))
    decreases items
  {
    if items == [] {
      assert EncodeItems(items) + rest == rest;
    } else {
      var after := EncodeItems(items[1..]) + rest;
      ValueParses(items[0], after, depth);
      ItemsParse(items[1..], rest, depth);
      Assoc(Encode(items[0]), EncodeItems(items[1..]), rest);
      assert items == [items[0]] + items[1..];
    }
  }

  lemma {:induction false} EntriesParse(entries: seq<Entry>, rest: seq<byte>, depth: nat, previous: Option<seq<byte>>)
    requires WellFormedEntries(entries) && Before(previous, entries)
    requires 0 < depth && depth - 1 + EntriesDepth(entries) <= MAX_DEPTH
    ensures ParseEntries(EncodeEntries(entries) + rest, |entries|, depth, previous) == Ok(Parsed(entries, rest))
    decreases entries
  {
    if entries == [] {
      assert EncodeEntries(entries) + rest == rest;
    } else {
      var e, more := entries[0], entries[1..];
      EntriesBytes(entries, rest);
      EntryParses(e, EncodeEntries(more) + rest, depth, previous);
      EntriesParse(more, rest, depth, Some(e.keyBytes));
      OneMoreEntry(entries, rest, depth, previous);
    }
  }

  lemma {:induction false} OneMoreEntry(entries: seq<Entry>, rest: seq<byte>, depth: nat, previous: Option<seq<byte>>)
    requires entries != [] && 0 < depth
    requires ParseEntry(EncodeEntries(entries) + rest, depth, previous) ==
             Ok(Parsed(entries[0], EncodeEntries(entries[1..]) + rest))
    requires ParseEntries(EncodeEntries(entries[1..]) + rest, |entries| - 1, depth, Some(entries[0].keyBytes)) ==
             Ok(Parsed(entries[1..], rest))
    ensures ParseEntries(EncodeEntries(entries) + rest, |entries|, depth, previous) == Ok(Parsed(entries, rest))
  {
    assert entries == [entries[0]] + entries[1..];
  }

  lemma {:induction false} EntriesBytes(entries: seq<Entry>, rest: seq<byte>)
    requires entries != []
    ensures EncodeEntries(entries) + rest ==
            entries[0].keyBytes + (Encode(entries[0].value) + (EncodeEntries(entries[1..]) + rest))
  {
  }

  lemma {:induction false} EntryParses(e: Entry, after: seq<byte>, depth: nat, previous: Option<seq<byte>>)
    requires e.keyBytes == Encode(e.key) && WellFormed(e.key) && WellFormed(e.value) && Before(previous, [e])
    requires depth + Depth(e.key) <= MAX_DEPTH && depth + Depth(e.value) <= MAX_DEPTH
    ensures ParseEntry(e.keyBytes + (Encode(e.value) + after), depth, previous) == Ok(Parsed(e, after))
    decreases e
  {
    var afterKey := Encode(e.value) + after;
    ValueParses(e.key, afterKey, depth);
    ValueParses(e.value, after, depth);
    assert KeyBytes(e.keyBytes + afterKey, Parsed(e.key, afterKey)) == e.keyBytes;
    LessIrreflexive(e.keyBytes);
  }

  lemma {:induction false} LessIrreflexive(a: seq<byte>)
    ensures !Less(a, a)
  {
    if a != [] {
      LessIrreflexive(a[1..]);
    }
  }

  // ----- The codec theorems -----

  /** Values the codec carries. */
  predicate Codable(v: Value) {
    WellFormed(v) && Depth(v) <= MAX_DEPTH
  }

  /** `Decode` accepts `b` with result `v` exactly when `v` is codable and `b` is its encoding. */
  lemma DecodeExact(b: seq<byte>, v: Value)
    ensures Decode(b) == Ok(v) <==> Codable(v) && b == Encode(v)
  {
    if ParseValue(b, 0).Ok? {
      ValueSound(b, 0);
      var p := ParseValue(b, 0).value;
      assert p.rest == [] ==> Encode(p.value) + p.rest == Encode(p.value);
    }
    if Codable(v) && b == Encode(v) {
      ValueParses(v, [], 0);
      assert Encode(v) + [] == Encode(v);
    }
  }

  /** Different codable values have different encodings. */
  lemma EncodeInjective(v: Value, w: Value)
    requires Codable(v) && Codable(w) && Encode(v) == Encode(w)
    ensures v == w
  {
    DecodeExact(Encode(v), v);
    DecodeExact(Encode(v), w);
  }

  /** A string that begins with an encoding is parsed as that value first. */
  lemma PrefixParses(v: Value, b: seq<byte>)
    requires Codable(v) && Encode(v) <= b
    ensures ParseValue(b, 0) == Ok(Parsed(v, b[|Encode(v)|..]))
  {
    var rest := b[|Encode(v)|..];
    ValueParses(v, rest, 0);
    assert b == Encode(v) + rest;
  }

  /** No encoding continues another: a truncated or extended encoding never decodes. */
  lemma PrefixFree(v: Value, b: seq<byte>)
    requires Codable(v) && Decode(b).Ok?
    requires b <= Encode(v) || Encode(v) <= b
    ensures b == Encode(v)
  {
    var w := Decode(b).value;
    DecodeExact(b, w);
    if b <= Encode(v) {
      PrefixParses(w, Encode(v));
      DecodeExact(Encode(v), v);
    } else {
      PrefixParses(v, b);
    }
  }
}
