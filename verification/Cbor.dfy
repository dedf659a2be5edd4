/**
 JLR-DCBOR/1, the deterministic profile of section 4.2.1 of RFC 8949: the data model, the encoding, and the strict
 parser as functions.
 */
module Cbor {
  import opened Wrappers
  import opened Hashing
  import opened BigEndian

  const MAX_DEPTH: nat := 32

  type u64 = n: nat | n < 0x1_0000_0000_0000_0000

  datatype Value =
    | Uint(n: u64)
    | Nint(n: u64)                 // the integer -1 - n
    | Bytes(bytes: seq<byte>)
    | Text(utf8: seq<byte>)        // the UTF-8 bytes of the string
    | Array(items: seq<Value>)
    | Map(entries: seq<Entry>)     // in the order of the encoded keys
    | Tag(tag: u64, inner: Value)
    | Bool(b: bool)
    | Null

  /** A map entry, stored under the encoding of its key. */
  datatype Entry = Entry(keyBytes: seq<byte>, key: Value, value: Value)

  datatype Error =
    | Truncated | TrailingBytes | NonShortestArgument | IndefiniteLength | ReservedAdditionalInfo
    | UnsupportedSimpleOrFloat | InvalidUtf8 | UnsortedMapKeys | DuplicateKey | TooDeep | LengthExceedsInput
    | WrongType | MissingField | UnknownField | OutOfRange | NotCanonical

  /** Bytewise lexicographic order. */
  predicate Less(a: seq<byte>, b: seq<byte>) {
    b != [] && (a == [] || a[0] < b[0] || (a[0] == b[0] && Less(a[1..], b[1..])))
  }

  predicate Between(lo: nat, b: byte, hi: nat) {
    lo <= b <= hi
  }

  /** Well-formed UTF-8 (table 3-7 of the Unicode standard). */
  predicate ValidUtf8(s: seq<byte>) {
    s == [] ||
    if s[0] < 0x80 then ValidUtf8(s[1..])
    else if Between(0xC2, s[0], 0xDF) then |s| >= 2 && Between(0x80, s[1], 0xBF) && ValidUtf8(s[2..])
    else if Between(0xE0, s[0], 0xEF) then
      && |s| >= 3
      && Between(if s[0] == 0xE0 then 0xA0 else 0x80, s[1], if s[0] == 0xED then 0x9F else 0xBF)
      && Between(0x80, s[2], 0xBF)
      && ValidUtf8(s[3..])
    else
      && Between(0xF0, s[0], 0xF4)
      && |s| >= 4
      && Between(if s[0] == 0xF0 then 0x90 else 0x80, s[1], if s[0] == 0xF4 then 0x8F else 0xBF)
      && Between(0x80, s[2], 0xBF)
      && Between(0x80, s[3], 0xBF)
      && ValidUtf8(s[4..])
  }

  // ----- Encoding -----

  /** The additional information of the shortest head for `arg`. */
  function ShortestInfo(arg: u64): nat {
    if arg < 24 then arg
    else if arg < 0x100 then 24
    else if arg < 0x1_0000 then 25
    else if arg < 0x1_0000_0000 then 26
    else 27
  }

  /** How many argument bytes follow the initial byte. */
  function Width(info: nat): nat {
    if info < 24 then 0 else if info == 24 then 1 else if info == 25 then 2 else if info == 26 then 4 else 8
  }

  function EncodeHead(major: nat, arg: u64): (s: seq<byte>)
    requires major < 8
    ensures s != []
  {
    [32 * major + ShortestInfo(arg)] + Be(arg, Width(ShortestInfo(arg)))
  }

  /** A length cast to 64 bits. */
  function AsU64(n: nat): u64 {
    if n < 0x1_0000_0000_0000_0000 then n else n % 0x1_0000_0000_0000_0000
  }

  function Encode(v: Value): (s: seq<byte>)
    ensures s != []
    decreases v
  {
    match v
    case Uint(n) => EncodeHead(0, n)
    case Nint(n) => EncodeHead(1, n)
    case Bytes(b) => EncodeHead(2, AsU64(|b|)) + b
    case Text(t) => EncodeHead(3, AsU64(|t|)) + t
    case Array(items) => EncodeHead(4, AsU64(|items|)) + EncodeItems(items)
    case Map(entries) => EncodeHead(5, AsU64(|entries|)) + EncodeEntries(entries)
    case Tag(t, inner) => EncodeHead(6, t) + Encode(inner)
    case Bool(b) => [if b then 0xf5 else 0xf4]
    case Null => [0xf6]
  }

  function EncodeItems(items: seq<Value>): (s: seq<byte>)
    ensures |s| >= |items|
    decreases items
  {
    if items == [] then [] else Encode(items[0]) + EncodeItems(items[1..])
  }

  /** Map entries are written with the key bytes they are stored under. */
  function EncodeEntries(entries: seq<Entry>): (s: seq<byte>)
    ensures |s| >= |entries|
    decreases entries
  {
    if entries == [] then [] else entries[0].keyBytes + Encode(entries[0].value) + EncodeEntries(entries[1..])
  }

  /** Values that Rust's types admit: valid text, lengths that fit, maps stored under the encodings of their keys. */
  predicate WellFormed(v: Value)
    decreases v
  {
    match v
    case Bytes(b) => |b| < 0x1_0000_0000_0000_0000
    case Text(t) => |t| < 0x1_0000_0000_0000_0000 && ValidUtf8(t)
    case Array(items) => |items| < 0x1_0000_0000_0000_0000 && WellFormedItems(items)
    case Map(entries) => |entries| < 0x1_0000_0000_0000_0000 && WellFormedEntries(entries)
    case Tag(_, inner) => WellFormed(inner)
    case _ => true
  }

  predicate WellFormedItems(items: seq<Value>)
    decreases items
  {
    items == [] || (WellFormed(items[0]) && WellFormedItems(items[1..]))
  }

  /** Entries under the encodings of their keys, in strictly ascending order, as a B-tree map iterates them. */
  predicate WellFormedEntries(entries: seq<Entry>)
    decreases entries
  {
    entries == [] ||
    (&& entries[0].keyBytes == Encode(entries[0].key)
     && WellFormed(entries[0].key)
     && WellFormed(entries[0].value)
     && Before(Some(entries[0].keyBytes), entries[1..])
     && WellFormedEntries(entries[1..]))
  }

  /** A key seen earlier, if any, precedes the entries. */
  predicate Before(previous: Option<seq<byte>>, entries: seq<Entry>) {
    previous.Some? && entries != [] ==> Less(previous.value, entries[0].keyBytes)
  }

  function Max(a: nat, b: nat): nat {
    if a < b then b else a
  }

  /** Nesting depth: zero for anything without parts. */
  function Depth(v: Value): nat
    decreases v
  {
    match v
    case Array(items) => ItemsDepth(items)
    case Map(entries) => EntriesDepth(entries)
    case Tag(_, inner) => 1 + Depth(inner)
    case _ => 0
  }

  function ItemsDepth(items: seq<Value>): nat
    decreases items
  {
    if items == [] then 0 else Max(1 + Depth(items[0]), ItemsDepth(items[1..]))
  }

  function EntriesDepth(entries: seq<Entry>): nat
    decreases entries
  {
    if entries == [] then 0
    else Max(1 + Max(Depth(entries[0].key), Depth(entries[0].value)), EntriesDepth(entries[1..]))
  }

  // ----- Strict parsing -----

  /** A parsed item and the input that follows it. */
  datatype Parsed<T> = Parsed(value: T, rest: seq<byte>)

  datatype Head = Head(major: nat, info: nat, arg: u64)

  /** The least argument that needs this additional information. */
  function Least(info: nat): nat {
    if info == 24 then 24 else if info == 25 then 0x100 else if info == 26 then 0x1_0000 else 0x1_0000_0000
  }

  function ParseHead(s: seq<byte>): (r: Result<Parsed<Head>, Error>)
    ensures r.Ok? ==> |r.value.rest| < |s| && r.value.value.major < 8
  {
    if s == [] then Err(Truncated)
    else
      var major, info := s[0] / 32, s[0] % 32;
      if info < 24 then Ok(Parsed(Head(major, info, info), s[1..]))
      else if info <= 27 then
        var w := Width(info);
        if |s| - 1 < w then Err(Truncated)
        else
          FromBeRange(s[1..1 + w]);
          Ranges();
          var arg: u64 := FromBe(s[1..1 + w]);
          if arg < Least(info) && major != 7 then Err(NonShortestArgument)
          else Ok(Parsed(Head(major, info, arg), s[1 + w..]))
      else if info <= 30 then Err(ReservedAdditionalInfo)
      else Err(IndefiniteLength)
  }

  function ParseValue(s: seq<byte>, depth: nat): (r: Result<Parsed<Value>, Error>)
    ensures r.Ok? ==> |r.value.rest| < |s|
    decreases |s|, 0, 0
  {
    if depth > MAX_DEPTH then Err(TooDeep)
    else
      var p :- ParseHead(s);
      ParseBody(p.value, p.rest, depth)
  }

  /** What follows a head. */
  function ParseBody(h: Head, s: seq<byte>, depth: nat): (r: Result<Parsed<Value>, Error>)
    ensures r.Ok? ==> |r.value.rest| <= |s|
    decreases |s|, 2, 0
  {
    if 2 <= h.major <= 5 && h.arg > |s| then Err(LengthExceedsInput)
    else
      match h.major
      case 0 => Ok(Parsed(Uint(h.arg), s))
      case 1 => Ok(Parsed(Nint(h.arg), s))
      case 2 => Ok(Parsed(Bytes(s[..h.arg]), s[h.arg..]))
      case 3 => if ValidUtf8(s[..h.arg]) then Ok(Parsed(Text(s[..h.arg]), s[h.arg..])) else Err(InvalidUtf8)
      case 4 =>
        var p :- ParseItems(s, h.arg, depth + 1);
        Ok(Parsed(Array(p.value), p.rest))
      case 5 =>
        var p :- ParseEntries(s, h.arg, depth + 1, None);
        Ok(Parsed(Map(p.value), p.rest))
      case 6 =>
        var p :- ParseValue(s, depth + 1);
        Ok(Parsed(Tag(h.arg, p.value), p.rest))
      case _ =>
        if h.info == 20 then Ok(Parsed(Bool(false), s))
        else if h.info == 21 then Ok(Parsed(Bool(true), s))
        else if h.info == 22 then Ok(Parsed(Null, s))
        else Err(UnsupportedSimpleOrFloat)
  }

  function ParseItems(s: seq<byte>, count: nat, depth: nat): (r: Result<Parsed<seq<Value>>, Error>)
    ensures r.Ok? ==> |r.value.rest| <= |s|
    decreases |s|, 1, count
  {
    if count == 0 then Ok(Parsed([], s))
    else
      var first :- ParseValue(s, depth);
      var more :- ParseItems(first.rest, count - 1, depth);
      Ok(Parsed([first.value] + more.value, more.rest))
  }

  /** The key bytes are the input between the start of the key and what follows it. */
  function KeyBytes(s: seq<byte>, key: Parsed<Value>): seq<byte>
    requires |key.rest| <= |s|
  {
    s[..|s| - |key.rest|]
  }

  /** One map entry, whose key must follow the previous one. */
  function ParseEntry(s: seq<byte>, depth: nat, previous: Option<seq<byte>>): (r: Result<Parsed<Entry>, Error>)
    ensures r.Ok? ==> |r.value.rest| < |s|
    decreases |s|, 1, 0
  {
    var key :- ParseValue(s, depth);
    var bytes := KeyBytes(s, key);
    if previous == Some(bytes) then Err(DuplicateKey)
    else if previous.Some? && !Less(previous.value, bytes) then Err(UnsortedMapKeys)
    else
      var value :- ParseValue(key.rest, depth);
      Ok(Parsed(Entry(bytes, key.value, value.value), value.rest))
  }

  function ParseEntries(s: seq<byte>, count: nat, depth: nat, previous: Option<seq<byte>>)
    : (r: Result<Parsed<seq<Entry>>, Error>)
    ensures r.Ok? ==> |r.value.rest| <= |s|
    decreases |s|, 1, count
  {
    if count == 0 then Ok(Parsed([], s))
    else
      var first :- ParseEntry(s, depth, previous);
      var more :- ParseEntries(first.rest, count - 1, depth, Some(first.value.keyBytes));
      Ok(Parsed([first.value] + more.value, more.rest))
  }

  /** Decodes exactly one item. */
  function Decode(input: seq<byte>): Result<Value, Error> {
    var p :- ParseValue(input, 0);
    if p.rest == [] then Ok(p.value) else Err(TrailingBytes)
  }
}
