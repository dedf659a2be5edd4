/** Artifact identifiers and their text form, `EPN-1-<CLASS>-<64 hex digits>`. */
module EpnIds {
  import opened Wrappers
  import opened Hashing

  datatype ArtifactClass =
    | Boot | Kernel | Initrd | Module | Exe | Lib | Script | Service | Config | Package | Container | Image | Policy
    | Key | Firmware | Dataset | Recovery | Other

  datatype EpnId = EpnId(artifactClass: ArtifactClass, digest: Digest)

  const ALL: seq<ArtifactClass> :=
    [Boot, Kernel, Initrd, Module, Exe, Lib, Script, Service, Config, Package, Container, Image, Policy, Key, Firmware,
     Dataset, Recovery, Other]

  function ClassName(c: ArtifactClass): string {
    match c
    case Boot => "BOOT"
    case Kernel => "KERNEL"
    case Initrd => "INITRD"
    case Module => "MODULE"
    case Exe => "EXE"
    case Lib => "LIB"
    case Script => "SCRIPT"
    case Service => "SERVICE"
    case Config => "CONFIG"
    case Package => "PACKAGE"
    case Container => "CONTAINER"
    case Image => "IMAGE"
    case Policy => "POLICY"
    case Key => "KEY"
    case Firmware => "FIRMWARE"
    case Dataset => "DATASET"
    case Recovery => "RECOVERY"
    case Other => "OTHER"
  }

  // ----- Text, ignoring ASCII case -----

  function Upper(c: char): char {
    if 'a' <= c <= 'z' then (c as int - 32) as char else c
  }

  predicate SameText(a: string, b: string) {
    |a| == |b| && forall i :: 0 <= i < |a| ==> Upper(a[i]) == Upper(b[i])
  }

  lemma SameTextConcat(a: string, b: string, c: string, d: string)
    requires SameText(a, b) && SameText(c, d)
    ensures SameText(a + c, b + d)
  {
  }

  // ----- Hexadecimal -----

  function HexDigit(n: nat): char
    requires n < 16
  {
    if n < 10 then ('0' as int + n) as char else ('a' as int + n - 10) as char
  }

  function DigitOf(c: char): (r: Option<nat>)
    ensures r.Some? ==> r.value < 16 && Upper(HexDigit(r.value)) == Upper(c)
  {
    if '0' <= c <= '9' then Some(c as int - '0' as int)
    else if 'a' <= c <= 'f' then Some(c as int - 'a' as int + 10)
    else if 'A' <= c <= 'F' then Some(c as int - 'A' as int + 10)
    else None
  }

  function Hex(bytes: seq<byte>): (s: string)
    ensures |s| == 2 * |bytes|
  {
    if bytes == [] then "" else [HexDigit(bytes[0] / 16), HexDigit(bytes[0] % 16)] + Hex(bytes[1..])
  }

  /** Two lower-case digits for each byte, the high half first. */
  lemma {:induction false} HexIs(bytes: seq<byte>, i: nat)
    requires i < |bytes|
    ensures Hex(bytes)[2 * i] == "0123456789abcdef"[bytes[i] / 16]
    ensures Hex(bytes)[2 * i + 1] == "0123456789abcdef"[bytes[i] % 16]
    decreases |bytes|
  {
    if i > 0 {
      HexIs(bytes[1..], i - 1);
      assert Hex(bytes)[2..] == Hex(bytes[1..]);
    }
  }

  function Unhex(s: string): (r: Option<seq<byte>>)
    ensures r.Some? ==> 2 * |r.value| == |s|
  {
    if |s| == 0 then Some([])
    else if |s| == 1 then None
    else
      var hi, lo, rest := DigitOf(s[0]), DigitOf(s[1]), Unhex(s[2..]);
      if hi.None? || lo.None? || rest.None? then None else Some([hi.value * 16 + lo.value] + rest.value)
  }

  function DigestFromHex(s: string): Option<Digest> {
    if |s| != 64 then None else
      var r := Unhex(s);
      if r.None? then None else Some(r.value)
  }

  lemma DigitRoundTrip(n: nat)
    requires n < 16
    ensures DigitOf(HexDigit(n)) == Some(n)
  {
  }

  lemma {:induction false} HexRoundTrip(bytes: seq<byte>)
    ensures Unhex(Hex(bytes)) == Some(bytes)
  {
    if bytes != [] {
      var b, s := bytes[0], Hex(bytes);
      DigitRoundTrip(b / 16);
      DigitRoundTrip(b % 16);
      HexRoundTrip(bytes[1..]);
      assert s[2..] == Hex(bytes[1..]) && b == b / 16 * 16 + b % 16;
      assert bytes == [b] + bytes[1..];
    }
  }

  lemma {:induction false} UnhexIsHex(s: string)
    requires Unhex(s).Some?
    ensures SameText(s, Hex(Unhex(s).value))
  {
    if s != "" {
      UnhexIsHex(s[2..]);
      var hi, lo, rest := DigitOf(s[0]).value, DigitOf(s[1]).value, Unhex(s[2..]).value;
      var bytes := [hi * 16 + lo] + rest;
      assert bytes[1..] == rest && bytes[0] / 16 == hi && bytes[0] % 16 == lo;
      assert SameText([s[0], s[1]], [HexDigit(hi), HexDigit(lo)]);
      SameTextConcat([s[0], s[1]], [HexDigit(hi), HexDigit(lo)], s[2..], Hex(rest));
      assert s == [s[0], s[1]] + s[2..];
    }
  }

  // ----- Class names -----

  /** The class whose name has this length and first letter; no two names share both. */
  function ClassBy(length: nat, first: char): ArtifactClass {
    match first
    case 'B' => Boot
    case 'K' => if length == 3 then Key else Kernel
    case 'I' => if length == 5 then Image else Initrd
    case 'M' => Module
    case 'E' => Exe
    case 'L' => Lib
    case 'S' => if length == 6 then Script else Service
    case 'C' => if length == 6 then Config else Container
    case 'P' => if length == 7 then Package else Policy
    case 'F' => Firmware
    case 'D' => Dataset
    case 'R' => Recovery
    case _ => Other
  }

  lemma NameShape(c: ArtifactClass)
    ensures 0 < |ClassName(c)| && 'A' <= ClassName(c)[0] <= 'Z' && ClassBy(|ClassName(c)|, ClassName(c)[0]) == c
    ensures '-' !in ClassName(c)
  {
  }

  lemma NamesDiffer(c: ArtifactClass, d: ArtifactClass)
    requires SameText(ClassName(c), ClassName(d))
    ensures c == d
  {
    NameShape(c);
    NameShape(d);
  }

  function ClassAmong(s: string, classes: seq<ArtifactClass>): (r: Option<ArtifactClass>)
    ensures r.Some? ==> SameText(s, ClassName(r.value))
  {
    if classes == [] then None
    else if SameText(s, ClassName(classes[0])) then Some(classes[0])
    else ClassAmong(s, classes[1..])
  }

  function ParseClass(s: string): Option<ArtifactClass> {
    ClassAmong(s, ALL)
  }

  lemma {:induction false} ClassFound(c: ArtifactClass, classes: seq<ArtifactClass>)
    requires c in classes
    ensures ClassAmong(ClassName(c), classes) == Some(c)
    decreases |classes|
  {
    if SameText(ClassName(c), ClassName(classes[0])) {
      NamesDiffer(c, classes[0]);
    } else {
      ClassFound(c, classes[1..]);
    }
  }

  lemma AllClasses(c: ArtifactClass)
    ensures c in ALL
  {
    assert ALL[0] == Boot && ALL[1] == Kernel && ALL[2] == Initrd && ALL[3] == Module && ALL[4] == Exe && ALL[5] == Lib;
    assert ALL[6] == Script && ALL[7] == Service && ALL[8] == Config && ALL[9] == Package && ALL[10] == Container;
    assert ALL[11] == Image && ALL[12] == Policy && ALL[13] == Key && ALL[14] == Firmware && ALL[15] == Dataset;
    assert ALL[16] == Recovery && ALL[17] == Other;
  }

  // ----- Identifiers -----

  const PREFIX: string := "EPN-1-"

  function Print(id: EpnId): string {
    PREFIX + (ClassName(id.artifactClass) + "-" + Hex(id.digest))
  }

  /** Position of the first dash. */
  function Dash(s: string): (r: Option<nat>)
    ensures r.Some? ==> r.value < |s| && s[r.value] == '-' && '-' !in s[..r.value]
    ensures r.None? ==> '-' !in s
  {
    if s == "" then None
    else if s[0] == '-' then Some(0)
    else
      var r := Dash(s[1..]);
      if r.None? then None else
        assert s[..r.value + 1] == [s[0]] + s[1..][..r.value];
        Some(r.value + 1)
  }

  function ParseRest(rest: string): Option<EpnId> {
    var i := Dash(rest);
    if i.None? then None
    else
      var c, d := ParseClass(rest[..i.value]), DigestFromHex(rest[i.value + 1..]);
      if c.None? || d.None? then None else Some(EpnId(c.value, d.value))
  }

  function Parse(s: string): Option<EpnId> {
    if PREFIX <= s then ParseRest(s[|PREFIX|..]) else None
  }

  lemma {:induction false} DashAfter(a: string, b: string)
    requires '-' !in a
    ensures Dash(a + "-" + b) == Some(|a|)
    decreases |a|
  {
    var s := a + "-" + b;
    if a != "" {
      assert s[1..] == a[1..] + "-" + b;
      DashAfter(a[1..], b);
    }
  }

  lemma RestParses(name: string, hex: string)
    requires '-' !in name && ParseClass(name).Some? && DigestFromHex(hex).Some?
    ensures ParseRest(name + "-" + hex) == Some(EpnId(ParseClass(name).value, DigestFromHex(hex).value))
  {
    var rest := name + "-" + hex;
    DashAfter(name, hex);
    assert rest[..|name|] == name;
    assert rest[|name| + 1..] == hex;
  }

  lemma ClassRoundTrip(c: ArtifactClass)
    ensures ParseClass(ClassName(c)) == Some(c)
  {
    AllClasses(c);
    ClassFound(c, ALL);
  }

  /** Every identifier parses back from its text. */
  lemma ParsePrinted(id: EpnId)
    ensures Parse(Print(id)) == Some(id)
  {
    var name, hex := ClassName(id.artifactClass), Hex(id.digest);
    assert DigestFromHex(hex) == Some(id.digest) by {
      HexRoundTrip(id.digest);
    }
    assert '-' !in name by {
      NameShape(id.artifactClass);
    }
    ClassRoundTrip(id.artifactClass);
    RestParses(name, hex);
    AfterPrefix(PREFIX, name + "-" + hex);
  }

  lemma AfterPrefix(a: string, b: string)
    ensures a <= a + b && (a + b)[|a|..] == b
  {
  }

  /** Only its text, in whatever case, parses as an identifier. */
  lemma ParsedIsPrinted(s: string)
    requires Parse(s).Some?
    ensures SameText(s, Print(Parse(s).value))
  {
    var rest := s[|PREFIX|..];
    RestIsPrinted(rest);
    var id := Parse(s).value;
    SameTextConcat(PREFIX, PREFIX, rest, ClassName(id.artifactClass) + "-" + Hex(id.digest));
    assert s == PREFIX + rest;
  }

  lemma SplitAt(s: string, i: nat)
    requires i < |s| && s[i] == '-'
    ensures s == s[..i] + "-" + s[i + 1..]
  {
  }

  lemma SameTextDash(a: string, b: string, c: string, d: string)
    requires SameText(a, b) && SameText(c, d)
    ensures SameText(a + "-" + c, b + "-" + d)
  {
    SameTextConcat(a, b, "-", "-");
    SameTextConcat(a + "-", b + "-", c, d);
  }

  lemma RestIsPrinted(rest: string)
    requires ParseRest(rest).Some?
    ensures var id := ParseRest(rest).value;
            SameText(rest, ClassName(id.artifactClass) + "-" + Hex(id.digest))
  {
    var i := Dash(rest).value;
    var id := ParseRest(rest).value;
    UnhexIsHex(rest[i + 1..]);
    SplitAt(rest, i);
    SameTextDash(rest[..i], ClassName(id.artifactClass), rest[i + 1..], Hex(id.digest));
  }
}
