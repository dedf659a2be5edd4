/**
 Loading a release image: the copy in RAM is hashed while it is read, and a mismatch is confirmed by a second read.
 */
module BootImage {
  import opened Wrappers
  import opened Hashing
  import opened BootState

  /** What a call to read the source comes to: some bytes (none at the end of the file), or an error. */
  datatype Chunk = Bytes(bytes: seq<byte>) | Failed

  type Source = nat -> Chunk

  predicate Delivers(source: Source, i: nat) {
    source(i).Bytes? && source(i).bytes != []
  }

  /** The first `n` chunks one after another. */
  function Content(source: Source, n: nat): seq<byte> {
    if n == 0 then [] else Content(source, n - 1) + if source(n - 1).Bytes? then source(n - 1).bytes else []
  }

  /** The source delivers `n` chunks and then ends. */
  predicate Ends(source: Source, n: nat) {
    source(n) == Bytes([]) && forall i :: 0 <= i < n ==> Delivers(source, i)
  }

  lemma {:induction false} ContentGrows(source: Source, m: nat, n: nat)
    requires m <= n
    ensures Content(source, m) <= Content(source, n)
    decreases n - m
  {
    if m < n {
      ContentGrows(source, m, n - 1);
    }
  }

  /** The bytes are the image that the manifest commits to. */
  predicate IsImage(h: Sha, m: Manifest, bytes: seq<byte>) {
    |bytes| == m.imageSize && h(bytes) == m.imageDigest
  }

  /** An error that says the manifest and what was read differ, and truthfully so. */
  predicate Mismatch(m: Manifest, e: BootError) {
    match e
    case ImageSize(expected, actual) => expected == m.imageSize != actual
    case ImageDigest(expected, actual) => expected == m.imageDigest != actual
    case _ => false
  }

  /** The source can be read to its end after `n` chunks, and each can be stored. */
  predicate Readable(source: Source, sinkWorks: nat -> bool, n: nat) {
    Ends(source, n) && forall i :: 0 <= i < n ==> sinkWorks(i)
  }

  /** What is wrong with bytes that are not the image. */
  function WrongAnswer(h: Sha, m: Manifest, bytes: seq<byte>): BootError {
    if |bytes| != m.imageSize then ImageSize(m.imageSize, |bytes|) else ImageDigest(m.imageDigest, h(bytes))
  }

  /** What copying comes to, from chunk `i` on, with `copy` read so far. */
  function CopyFrom(h: Sha, m: Manifest, source: Source, sinkWorks: nat -> bool, i: nat, copy: seq<byte>)
    : Result<seq<byte>, BootError>
    requires |copy| <= m.imageSize
    decreases m.imageSize - |copy|
  {
    match source(i)
    case Failed => Err(IoError)
    case Bytes(bytes) =>
      if bytes == [] then if IsImage(h, m, copy) then Ok(copy) else Err(WrongAnswer(h, m, copy))
      else if |copy| + |bytes| > m.imageSize then Err(ImageSize(m.imageSize, |copy| + |bytes|))
      else if !sinkWorks(i) then Err(IoError)
      else CopyFrom(h, m, source, sinkWorks, i + 1, copy + bytes)
  }

  /**
   Copies an image into RAM, hashing while copying. An accepted copy is exactly the image the manifest commits to, and
   the whole source. A refusal names a real mismatch or an I/O error. A source that can be read to its end is accepted
   if and only if it is that image, and otherwise refused for a mismatch: what is wrong with it, unless it is too
   large to be read on.
   */
  method VerifyImage(h: Sha, m: Manifest, source: Source, sinkWorks: nat -> bool)
    returns (r: Result<seq<byte>, BootError>)
    ensures r.Ok? ==> IsImage(h, m, r.value) && exists n: nat :: Ends(source, n) && r.value == Content(source, n)
    ensures r.Err? ==> r.error.IoError? || Mismatch(m, r.error)
    ensures forall n: nat :: Readable(source, sinkWorks, n) ==>
              if IsImage(h, m, Content(source, n)) then r == Ok(Content(source, n)) else r.Err? && Mismatch(m, r.error)
    ensures forall n: nat :: Readable(source, sinkWorks, n) && !IsImage(h, m, Content(source, n)) ==>
              |Content(source, n)| <= m.imageSize ==> r == Err(WrongAnswer(h, m, Content(source, n)))
    ensures r == CopyFrom(h, m, source, sinkWorks, 0, [])
  {
    var copy: seq<byte> := [];
    var i := 0;
    while true
      invariant copy == Content(source, i) && |copy| <= m.imageSize
      invariant CopyFrom(h, m, source, sinkWorks, i, copy) == CopyFrom(h, m, source, sinkWorks, 0, [])
      invariant forall j :: 0 <= j < i ==> Delivers(source, j)
      decreases m.imageSize - |copy|
    {
      var chunk := source(i);
      if chunk.Failed? {
        forall n: nat ensures !Ends(source, n) {
          NeverEnds(source, i, n);
        }
        return Err(IoError);
      }
      if chunk.bytes == [] {
        break;
      }
      var total := |copy| + |chunk.bytes|;
      if total > m.imageSize {
        Larger(source, i, m.imageSize);
        return Err(ImageSize(m.imageSize, total));
      }
      if !sinkWorks(i) {
        forall n: nat | Ends(source, n) ensures i < n {
          StopsAt(source, n, i + 1);
        }
        return Err(IoError);
      }
      copy := copy + chunk.bytes;
      i := i + 1;
    }
    assert Ends(source, i);
    forall n: nat | Ends(source, n) ensures n == i {
      EndsOnce(source, i, n);
    }
    if |copy| != m.imageSize {
      return Err(ImageSize(m.imageSize, |copy|));
    }
    if h(copy) != m.imageDigest {
      return Err(ImageDigest(m.imageDigest, h(copy)));
    }
    r := Ok(copy);
  }

  /** A source that stops delivering at `m` has not delivered more than `m` chunks. */
  lemma StopsAt(source: Source, m: nat, n: nat)
    requires !Delivers(source, m) && forall j :: 0 <= j < n ==> Delivers(source, j)
    ensures n <= m
  {
  }

  lemma EndsOnce(source: Source, m: nat, n: nat)
    requires Ends(source, m) && Ends(source, n)
    ensures m == n
  {
    StopsAt(source, m, n);
    StopsAt(source, n, m);
  }

  lemma NeverEnds(source: Source, i: nat, n: nat)
    requires source(i).Failed? && forall j :: 0 <= j < i ==> Delivers(source, j)
    ensures !Ends(source, n)
  {
    if Ends(source, n) {
      StopsAt(source, i, n);
      StopsAt(source, n, i);
    }
  }

  /** Once more than `size` bytes were delivered, the whole source is larger. */
  lemma Larger(source: Source, i: nat, size: nat)
    requires (forall j :: 0 <= j <= i ==> Delivers(source, j)) && |Content(source, i + 1)| > size
    ensures forall n: nat :: Ends(source, n) ==> |Content(source, n)| > size
  {
    forall n: nat | Ends(source, n) ensures |Content(source, n)| > size {
      StopsAt(source, n, i + 1);
      ContentGrows(source, i + 1, n);
    }
  }

  // ----- The confirming read -----

  predicate SameMismatch(a: BootError, b: BootError) {
    || (a.ImageDigest? && b.ImageDigest? && a.actual == b.actual)
    || (a.ImageSize? && b.ImageSize? && a.actualSize == b.actualSize)
  }

  /** What loading a slot's image comes to. */
  datatype Load = Verified | Transient | ProvenBad(why: BootError) | PowerLost

  /** One reading of an image: what the medium delivers and whether it can be stored. */
  datatype Reading = Reading(source: Source, sinkWorks: nat -> bool)

  /** Loading an image: the reading, and the one that would confirm a mismatch; or the power goes. */
  datatype Loading = PowerGoes | Reads(first: Reading, second: Reading)

  function Copied(h: Sha, m: Manifest, r: Reading): Result<seq<byte>, BootError> {
    CopyFrom(h, m, r.source, r.sinkWorks, 0, [])
  }

  /** What one read says about the slot. */
  function Judged(r: Result<seq<byte>, BootError>): Load {
    match r
    case Ok(_) => Verified
    case Err(e) => if ProvesBadContent(e) then ProvenBad(e) else Transient
  }

  /** What the two reads say together. */
  function Confirm(one: Load, two: Load): Load {
    if one.ProvenBad? && two.ProvenBad? then if SameMismatch(one.why, two.why) then one else Transient
    else if one.ProvenBad? then two
    else one
  }

  function LoadOf(h: Sha, m: Manifest, l: Loading): Load {
    if l.PowerGoes? then PowerLost else Confirm(Judged(Copied(h, m, l.first)), Judged(Copied(h, m, l.second)))
  }

  lemma BadIsProof(h: Sha, m: Manifest, l: Loading)
    ensures LoadOf(h, m, l).ProvenBad? ==> ProvesBadContent(LoadOf(h, m, l).why)
  {
  }

  /**
   Reads the image and, after a mismatch, once more. What is loaded is the image, from the second reading if the first
   was not it. Only the same wrong answer twice is proof of a bad image; two different ones are not.
   */
  method LoadImage(h: Sha, m: Manifest, l: Loading) returns (r: Load, image: seq<byte>)
    ensures r == LoadOf(h, m, l) && (r.PowerLost? <==> l.PowerGoes?)
    ensures r.Verified? ==> IsImage(h, m, image)
    ensures r.ProvenBad? ==> Mismatch(m, r.why) && NotTheImage(h, m, l.first) && NotTheImage(h, m, l.second)
    ensures l.Reads? && !NotTheImage(h, m, l.first) ==> r.Verified?
    ensures l.Reads? ==>
              forall a: nat, b: nat ::
                Readable(l.first.source, l.first.sinkWorks, a) && Readable(l.second.source, l.second.sinkWorks, b) ==>
                  Confirmed(h, m, Content(l.first.source, a), Content(l.second.source, b), r, image)
  {
    image := [];
    if l.PowerGoes? {
      return PowerLost, [];
    }
    var one := VerifyImage(h, m, l.first.source, l.first.sinkWorks);
    if !Judged(one).ProvenBad? {
      return Judged(one), if one.Ok? then one.value else [];
    }
    var two := VerifyImage(h, m, l.second.source, l.second.sinkWorks);
    r := Confirm(Judged(one), Judged(two));
    image := if two.Ok? then two.value else [];
  }

  /** This reading, if it comes to its end, is not the image. */
  ghost predicate NotTheImage(h: Sha, m: Manifest, r: Reading) {
    forall n: nat :: Readable(r.source, r.sinkWorks, n) ==> !IsImage(h, m, Content(r.source, n))
  }

  /** What loading comes to when the two readings deliver `a` and `b`. */
  predicate Confirmed(h: Sha, m: Manifest, a: seq<byte>, b: seq<byte>, r: Load, image: seq<byte>) {
    if IsImage(h, m, a) then r.Verified? && image == a
    else if IsImage(h, m, b) then r.Verified? && image == b
    else if |a| > m.imageSize || |b| > m.imageSize then !r.Verified?
    else if WrongAnswer(h, m, a) == WrongAnswer(h, m, b) then r == ProvenBad(WrongAnswer(h, m, a))
    else r.Transient?
  }
}
