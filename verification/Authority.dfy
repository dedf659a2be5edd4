/**
 Approvals and baselines: signed files, one current file per subject, named by the ledger's latest OVERRIDE event. This
 module says what the files are called, what is current, and what writing and removing files does.
 */
module Authority {
  import opened Wrappers
  import opened Hashing
  import opened EpnIds
  import opened Model

  type File = string

  /** What the ledger calls the holder of an authority. */
  type Subject = string

  /** What files of one subject begin with. */
  type Stem = string

  type Files = map<File, seq<byte>>

  /** The recorded digest of every subject. */
  type Current = map<Subject, Digest>

  datatype Directory = Approvals | Baselines

  /** The hash function, a directory, and the subject of bytes that verify as a signed file of that directory. */
  datatype Rules = Rules(h: Sha, directory: Directory, subjectOf: seq<byte> -> Option<Subject>)

  // ----- What the ledger says is current -----

  /** An event that records authority for a subject. */
  predicate Grants(d: EventDraft) {
    d.kind.Override? && d.subject.Some? && d.evidence != []
  }

  function Recorded(current: Current, d: EventDraft): Current {
    if Grants(d) then current[d.subject.value := d.evidence[0]] else current
  }

  function CurrentOf(es: seq<Event>): Current {
    if es == [] then map[] else Recorded(CurrentOf(es[..|es| - 1]), es[|es| - 1].draft)
  }

  lemma CurrentAppend(es: seq<Event>, e: Event)
    ensures CurrentOf(es + [e]) == Recorded(CurrentOf(es), e.draft)
  {
    assert (es + [e])[..|es|] == es;
  }

  /** The loop over the replayed events that opening runs. */
  method RebuildCurrent(es: seq<Event>) returns (current: Current)
    ensures current == CurrentOf(es)
  {
    current := map[];
    for i := 0 to |es|
      invariant current == CurrentOf(es[..i])
    {
      assert es[..i + 1][..i] == es[..i];
      if es[i].draft.kind.Override? && es[i].draft.subject.Some? && es[i].draft.evidence != [] {
        current := current[es[i].draft.subject.value := es[i].draft.evidence[0]];
      }
    }
    assert es[..|es|] == es;
  }

  /** Event `i` records authority for `s`, and no later one does. */
  predicate Latest(es: seq<Event>, i: nat, s: Subject) {
    && i < |es| && Grants(es[i].draft) && es[i].draft.subject == Some(s)
    && forall j :: i < j < |es| && Grants(es[j].draft) ==> es[j].draft.subject != Some(s)
  }

  /** What is current for a subject is the evidence of the latest OVERRIDE event about it, if there is one. */
  lemma {:induction false} CurrentIsLatest(es: seq<Event>, s: Subject)
    ensures s in CurrentOf(es) <==> exists i: nat :: Latest(es, i, s)
    ensures forall i: nat :: Latest(es, i, s) ==> CurrentOf(es)[s] == es[i].draft.evidence[0]
  {
    if es != [] {
      var n := |es| - 1;
      var before := es[..n];
      CurrentIsLatest(before, s);
      if Grants(es[n].draft) && es[n].draft.subject == Some(s) {
        assert Latest(es, n, s);
      } else {
        forall i: nat ensures Latest(es, i, s) <==> Latest(before, i, s) {
          SameLatest(es, i, s);
        }
      }
    }
  }

  lemma SameLatest(es: seq<Event>, i: nat, s: Subject)
    requires es != [] && !(Grants(es[|es| - 1].draft) && es[|es| - 1].draft.subject == Some(s))
    ensures Latest(es, i, s) <==> Latest(es[..|es| - 1], i, s)
  {
    var before := es[..|es| - 1];
    if Latest(before, i, s) {
      forall j | i < j < |es| && Grants(es[j].draft) ensures es[j].draft.subject != Some(s) {
        assert j < |before| ==> before[j] == es[j];
      }
    }
  }

  // ----- File names -----

  const SUFFIX: string := ".cose"

  const BASELINE: string := "baseline:"

  predicate IsStem(s: Stem) {
    s != "" && '.' !in s
  }

  /** The stem of a subject's files: an artifact's digest, or a baseline's name. */
  function StemOf(d: Directory, s: Subject): Option<Stem> {
    match d
    case Approvals =>
      var id := Parse(s);
      if id.Some? && Print(id.value) == s then Some(Hex(id.value.digest)) else None
    case Baselines =>
      if BASELINE <= s && IsStem(s[|BASELINE|..]) then Some(s[|BASELINE|..]) else None
  }

  lemma {:induction false} NoDotInHex(bytes: seq<byte>)
    ensures '.' !in Hex(bytes)
  {
    if bytes != [] {
      NoDotInHex(bytes[1..]);
    }
  }

  lemma StemIsStem(d: Directory, s: Subject)
    requires StemOf(d, s).Some?
    ensures IsStem(StemOf(d, s).value)
  {
    if d.Approvals? {
      NoDotInHex(Parse(s).value.digest);
    }
  }

  /** Different baselines have different stems. */
  lemma BaselinesApart(s: Subject, t: Subject)
    requires StemOf(Baselines, s).Some? && StemOf(Baselines, s) == StemOf(Baselines, t)
    ensures s == t
  {
    assert s == BASELINE + s[|BASELINE|..] && t == BASELINE + t[|BASELINE|..];
  }

  /** Different identifiers with one stem differ in their class only: their records have the same digest. */
  lemma ApprovalsApart(s: Subject, t: Subject)
    requires StemOf(Approvals, s).Some? && StemOf(Approvals, s) == StemOf(Approvals, t)
    ensures Parse(s).value.digest == Parse(t).value.digest
    ensures s != t ==> Parse(s).value.artifactClass != Parse(t).value.artifactClass
  {
    HexRoundTrip(Parse(s).value.digest);
    HexRoundTrip(Parse(t).value.digest);
  }

  function Tag(d: Digest): string {
    Hex(d)[..16]
  }

  function FileFor(s: Stem, d: Digest): File {
    s + "." + Tag(d) + SUFFIX
  }

  predicate EndsWith(f: File, suffix: string) {
    |suffix| <= |f| && f[|f| - |suffix|..] == suffix
  }

  /** The files that a grant for `s` removes. */
  predicate Superseded(s: Stem, keep: File, f: File) {
    s + "." <= f && EndsWith(f, SUFFIX) && f != keep
  }

  lemma {:induction false} StemsDoNotMix(s: Stem, t: Stem, rest: string)
    requires '.' !in s && '.' !in t && s + "." <= t + "." + rest
    ensures s == t
    decreases |s|
  {
    var f := t + "." + rest;
    assert f[0] == (s + ".")[0];
    if s != "" {
      assert t != "" by { assert f[0] == s[0] && s[0] in s; }
      assert (s + ".")[1..] == s[1..] + "." && f[1..] == t[1..] + "." + rest;
      StemsDoNotMix(s[1..], t[1..], rest);
      assert s == [s[0]] + s[1..] && t == [t[0]] + t[1..];
    }
  }

  /** Removing the files a grant supersedes never touches the file of another stem. */
  lemma OthersAreNotSuperseded(s: Stem, keep: File, t: Stem, d: Digest)
    requires IsStem(s) && IsStem(t) && s != t
    ensures !Superseded(s, keep, FileFor(t, d))
  {
    if s + "." <= FileFor(t, d) {
      assert FileFor(t, d) == t + "." + (Tag(d) + SUFFIX);
      StemsDoNotMix(s, t, Tag(d) + SUFFIX);
    }
  }

  lemma FilesDiffer(s: Stem, d: Digest, t: Stem, e: Digest)
    requires IsStem(s) && IsStem(t)
    ensures FileFor(s, d) == FileFor(t, e) <==> s == t && Tag(d) == Tag(e)
  {
    if FileFor(s, d) == FileFor(t, e) {
      assert FileFor(t, e) == t + "." + (Tag(e) + SUFFIX);
      assert s + "." <= FileFor(s, d);
      StemsDoNotMix(s, t, Tag(e) + SUFFIX);
      assert FileFor(s, d)[|s| + 1..][..16] == Tag(d) && FileFor(t, e)[|t| + 1..][..16] == Tag(e);
    }
  }

  lemma SameTag(d: Digest, e: Digest)
    ensures Tag(d) == Tag(e) <==> d[..8] == e[..8]
  {
    HexPrefix(d, 8);
    HexPrefix(e, 8);
    if Tag(d) == Tag(e) {
      HexRoundTrip(d[..8]);
      HexRoundTrip(e[..8]);
    }
  }

  lemma {:induction false} HexPrefix(bytes: seq<byte>, n: nat)
    requires n <= |bytes|
    ensures Hex(bytes)[..2 * n] == Hex(bytes[..n])
    decreases n
  {
    if n > 0 {
      HexPrefix(bytes[1..], n - 1);
      assert bytes[..n][1..] == bytes[1..][..n - 1];
      assert Hex(bytes)[..2 * n] == Hex(bytes)[..2] + Hex(bytes[1..])[..2 * (n - 1)];
    }
  }

  // ----- What writing and removing do -----

  /** The file of a recorded digest is there, verifies for the subject, and is the one that was recorded. */
  predicate Backed(r: Rules, files: Files, s: Subject, d: Digest) {
    var stem := StemOf(r.directory, s);
    && stem.Some? && FileFor(stem.value, d) in files
    && r.h(files[FileFor(stem.value, d)]) == d
    && r.subjectOf(files[FileFor(stem.value, d)]) == Some(s)
  }

  /** So is the file of every subject of this directory. */
  predicate AllBacked(r: Rules, files: Files, current: Current) {
    forall s :: s in current && StemOf(r.directory, s).Some? ==> Backed(r, files, s, current[s])
  }

  /** No other recorded subject shares the stem. */
  predicate Alone(r: Rules, current: Current, s: Subject) {
    forall t :: t in current && StemOf(r.directory, t) == StemOf(r.directory, s) ==> t == s
  }

  /** The new file takes the name of a different file that is current. */
  predicate Overwrites(current: Current, s: Subject, d: Digest) {
    s in current && current[s] != d && current[s][..8] == d[..8]
  }

  /** The new file of a subject. */
  function NewFile(r: Rules, s: Subject, bytes: seq<byte>): File
    requires StemOf(r.directory, s).Some?
  {
    FileFor(StemOf(r.directory, s).value, r.h(bytes))
  }

  lemma WriteLosesFile(r: Rules, files: Files, current: Current, s: Subject, bytes: seq<byte>)
    requires StemOf(r.directory, s).Some? && Overwrites(current, s, r.h(bytes))
    ensures !Backed(r, files[NewFile(r, s, bytes) := bytes], s, current[s])
  {
    StemIsStem(r.directory, s);
    SameTag(current[s], r.h(bytes));
    FilesDiffer(StemOf(r.directory, s).value, current[s], StemOf(r.directory, s).value, r.h(bytes));
  }

  lemma WriteKeepsFile(r: Rules, files: Files, s: Subject, bytes: seq<byte>, t: Subject, d: Digest)
    requires StemOf(r.directory, s).Some? && r.subjectOf(bytes) == Some(s) && Backed(r, files, t, d)
    requires StemOf(r.directory, t) == StemOf(r.directory, s) ==>
               t == s && (d == r.h(bytes) || d[..8] != r.h(bytes)[..8])
    ensures Backed(r, files[NewFile(r, s, bytes) := bytes], t, d)
  {
    StemIsStem(r.directory, s);
    StemIsStem(r.directory, t);
    SameTag(d, r.h(bytes));
    FilesDiffer(StemOf(r.directory, t).value, d, StemOf(r.directory, s).value, r.h(bytes));
  }

  /**
   Writing the new file keeps every recorded file in place if and only if the new digest does not share its first eight
   bytes with a different digest that is current for the same subject.
   */
  lemma WriteKeepsBackedIff(r: Rules, files: Files, current: Current, s: Subject, bytes: seq<byte>)
    requires AllBacked(r, files, current) && StemOf(r.directory, s).Some? && r.subjectOf(bytes) == Some(s)
    requires Alone(r, current, s)
    ensures AllBacked(r, files[NewFile(r, s, bytes) := bytes], current) <==> !Overwrites(current, s, r.h(bytes))
    ensures Backed(r, files[NewFile(r, s, bytes) := bytes], s, r.h(bytes))
  {
    var after := files[NewFile(r, s, bytes) := bytes];
    if Overwrites(current, s, r.h(bytes)) {
      WriteLosesFile(r, files, current, s, bytes);
    } else {
      forall t | t in current && StemOf(r.directory, t).Some? ensures Backed(r, after, t, current[t]) {
        WriteKeepsFile(r, files, s, bytes, t, current[t]);
      }
    }
  }

  /** Files other than those of one stem stay as they are; the kept one stays. */
  predicate OnlyRemoved(before: Files, after: Files, s: Stem, keep: File) {
    && after.Keys <= before.Keys
    && (forall f :: f in after ==> after[f] == before[f])
    && forall f :: f in before && f !in after ==> Superseded(s, keep, f)
  }

  lemma RemovalKeepsBacked(r: Rules, before: Files, after: Files, current: Current, s: Subject)
    requires AllBacked(r, before, current) && s in current && StemOf(r.directory, s).Some? && Alone(r, current, s)
    requires OnlyRemoved(before, after, StemOf(r.directory, s).value, FileFor(StemOf(r.directory, s).value, current[s]))
    ensures AllBacked(r, after, current)
  {
    var stem := StemOf(r.directory, s).value;
    forall t | t in current && StemOf(r.directory, t).Some? ensures Backed(r, after, t, current[t]) {
      StemIsStem(r.directory, s);
      StemIsStem(r.directory, t);
      if t != s {
        OthersAreNotSuperseded(stem, FileFor(stem, current[s]), StemOf(r.directory, t).value, current[t]);
      }
    }
  }

  /** Which removals work, and after how many directory entries the power goes. */
  datatype RemoveEnd = RemoveEnd(works: File -> bool, entries: nat)

  /** Removes superseded files, as far as it gets. */
  method RemoveSuperseded(files: Files, listing: seq<File>, s: Stem, keep: File, e: RemoveEnd) returns (after: Files)
    ensures OnlyRemoved(files, after, s, keep)
    ensures e.entries >= |listing| ==>
              forall f :: f in after && f in listing && Superseded(s, keep, f) ==> !e.works(f)
  {
    after := files;
    for i := 0 to |listing|
      invariant OnlyRemoved(files, after, s, keep)
      invariant forall f :: f in after && f in listing[..i] && Superseded(s, keep, f) ==> !e.works(f)
    {
      if i >= e.entries {
        return;
      }
      var f := listing[i];
      if Superseded(s, keep, f) && e.works(f) {
        after := after - {f};
      }
    }
    assert listing[..|listing|] == listing;
  }

  // ----- Reading the files -----

  /** The ledger records these bytes as current. */
  predicate Honoured(r: Rules, current: Current, bytes: seq<byte>) {
    var s := r.subjectOf(bytes);
    s.Some? && StemOf(r.directory, s.value).Some? && s.value in current && current[s.value] == r.h(bytes)
  }

  /** What is honoured is exactly the current file of every subject of the directory. */
  ghost predicate HoldsCurrent(r: Rules, current: Current, held: map<Subject, seq<byte>>) {
    && (forall s :: s in held <==> s in current && StemOf(r.directory, s).Some?)
    && forall s :: s in held ==> r.h(held[s]) == current[s]
  }

  lemma FileIsListed(r: Rules, files: Files, current: Current, listing: seq<File>, s: Subject)
    requires AllBacked(r, files, current) && s in current && StemOf(r.directory, s).Some?
    requires forall f :: f in files && EndsWith(f, SUFFIX) ==> f in listing
    ensures var f := FileFor(StemOf(r.directory, s).value, current[s]);
            && (exists j :: 0 <= j < |listing| && listing[j] == f)
            && f in files && Honoured(r, current, files[f]) && r.subjectOf(files[f]) == Some(s)
  {
    var f := FileFor(StemOf(r.directory, s).value, current[s]);
    assert Backed(r, files, s, current[s]);
    assert EndsWith(f, SUFFIX);
    assert f in listing;
  }

  /** A file was either honoured or reported. */
  predicate Counted(r: Rules, bytes: seq<byte>, current: Current, held: map<Subject, seq<byte>>, reported: bool) {
    if Honoured(r, current, bytes) then r.subjectOf(bytes).value in held else reported
  }

  /** The first `n` listed files were read. */
  ghost predicate ReadSoFar(r: Rules, files: Files, listing: seq<File>, current: Current, held: map<Subject, seq<byte>>,
                            problems: seq<File>, n: nat)
    requires forall f :: f in listing ==> f in files
  {
    && n <= |listing|
    && (forall s :: s in held ==> s in current && StemOf(r.directory, s).Some? && r.h(held[s]) == current[s])
    && (forall j :: 0 <= j < n ==> Counted(r, files[listing[j]], current, held, listing[j] in problems))
    && (forall f :: f in problems ==> f in files && !Honoured(r, current, files[f]))
  }

  lemma AllRead(r: Rules, files: Files, listing: seq<File>, current: Current, held: map<Subject, seq<byte>>,
                problems: seq<File>)
    requires AllBacked(r, files, current) && forall f :: f in files && EndsWith(f, SUFFIX) ==> f in listing
    requires forall f :: f in listing ==> f in files
    requires ReadSoFar(r, files, listing, current, held, problems, |listing|)
    ensures HoldsCurrent(r, current, held)
  {
    forall s | s in current && StemOf(r.directory, s).Some? ensures s in held {
      FileIsListed(r, files, current, listing, s);
      var j :| 0 <= j < |listing| && listing[j] == FileFor(StemOf(r.directory, s).value, current[s]);
      assert Counted(r, files[listing[j]], current, held, listing[j] in problems);
    }
  }

  /** A listed file counts for its subject. */
  predicate CountsFor(r: Rules, files: Files, current: Current, f: File, s: Subject)
    requires f in files
  {
    Honoured(r, current, files[f]) && r.subjectOf(files[f]) == Some(s)
  }

  lemma EachRead(r: Rules, files: Files, listing: seq<File>, current: Current, held: map<Subject, seq<byte>>,
                 problems: seq<File>, f: File)
    requires (forall f :: f in listing ==> f in files) && f in listing
    requires ReadSoFar(r, files, listing, current, held, problems, |listing|)
    ensures f in problems <==> !Honoured(r, current, files[f])
    ensures forall s :: CountsFor(r, files, current, f, s) ==> s in held
  {
    var j :| 0 <= j < |listing| && listing[j] == f;
    assert Counted(r, files[listing[j]], current, held, listing[j] in problems);
  }

  /**
   Reads every signed file; only the one the ledger records as current for its subject counts. What is held comes from
   such a file, every other file is reported, and if all recorded files are there and listed, all are held.
   */
  method HonourFiles(r: Rules, files: Files, listing: seq<File>, current: Current)
    returns (held: map<Subject, seq<byte>>, problems: seq<File>)
    requires forall f :: f in listing ==> f in files
    ensures forall f :: f in listing ==> (f in problems <==> !Honoured(r, current, files[f]))
    ensures forall f, s :: f in listing && CountsFor(r, files, current, f, s) ==> s in held
    ensures forall s :: s in held ==>
              exists f :: f in listing && CountsFor(r, files, current, f, s) && held[s] == files[f]
    ensures AllBacked(r, files, current) && (forall f :: f in files && EndsWith(f, SUFFIX) ==> f in listing) ==>
              HoldsCurrent(r, current, held)
  {
    held, problems := map[], [];
    for i := 0 to |listing|
      invariant ReadSoFar(r, files, listing, current, held, problems, i)
      invariant forall s :: s in held ==>
                  exists f :: f in listing && CountsFor(r, files, current, f, s) && held[s] == files[f]
    {
      var bytes := files[listing[i]];
      if Honoured(r, current, bytes) {
        assert CountsFor(r, files, current, listing[i], r.subjectOf(bytes).value);
        held := held[r.subjectOf(bytes).value := bytes];
      } else {
        problems := problems + [listing[i]];
      }
    }
    forall f | f in listing
      ensures f in problems <==> !Honoured(r, current, files[f])
      ensures forall s :: CountsFor(r, files, current, f, s) ==> s in held
    {
      EachRead(r, files, listing, current, held, problems, f);
    }
    if AllBacked(r, files, current) && (forall f :: f in files && EndsWith(f, SUFFIX) ==> f in listing) {
      AllRead(r, files, listing, current, held, problems);
    }
  }

  /** Two different contents honoured for one subject are a collision of the hash function. */
  lemma OneIsHonoured(r: Rules, current: Current, a: seq<byte>, b: seq<byte>)
    requires Honoured(r, current, a) && Honoured(r, current, b) && r.subjectOf(a) == r.subjectOf(b) && a != b
    ensures Collides(r.h, Collision(a, b))
  {
  }
}
