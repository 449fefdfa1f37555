// What the index finds in an archive the builder wrote: each member's name
// (without ".bin") mapped to its body, the first member winning.

module RoundTrip {
  import opened Wrappers
  import opened Bytes
  import opened LittleEndian
  import opened ZipFormat
  import opened Precompile
  import opened ZipIndex

  /** Names under 64 KiB and bodies under 0xffffffff bytes: the limits of
      the 16- and 32-bit header fields and of the walk. */
  ghost predicate Fits(es: seq<Entry>)
  {
    forall j :: 0 <= j < |es| ==> |es[j].name| < 0x1_0000 && |es[j].body| < NO_SIZE
  }

  /** What follows the last record ends the walk: fewer than 30 bytes, a
      foreign signature, or the size 0xffffffff. */
  ghost predicate Stops(tail: bytes)
  {
    |tail| < FILE_HEADER_SIZE || tail[..4] != LOCAL_MAGIC || ReadLE32(tail, 22).Value() == NO_SIZE
  }

  /** Header `h` announces entry `e` as a stored member the walk accepts. */
  ghost predicate Describes(h: FileHeader, e: Entry)
  {
    && h.magic == LOCAL_MAGIC
    && h.compressionMethod.Value() == METHOD_STORED
    && h.nameLength.Value() == |e.name|
    && h.extraLength.Value() == 0
    && h.uncompressedSize.Value() == |e.body|
    && |e.body| != NO_SIZE
  }

  /** Local records with the given headers. */
  function Records(es: seq<Entry>, hs: seq<FileHeader>): (rs: seq<bytes>)
    requires |hs| == |es|
    ensures |rs| == |es|
  {
    seq(|es|, j requires 0 <= j < |es| => FileHeaderBytes(hs[j]) + es[j].name + es[j].body)
  }

  /** Where record `j` starts in the offsets `Offset` computes. */
  function Offset(es: seq<Entry>, hs: seq<FileHeader>, j: nat): nat
    requires |hs| == |es| && j <= |es|
  {
    |Concat(Records(es, hs)[..j])|
  }

  /** Where record `j` starts when the records follow one another from
      offset 0. */
  function Start(es: seq<Entry>, j: nat): nat
    requires j <= |es|
  {
    if j == 0 then 0 else Start(es, j - 1) + FILE_HEADER_SIZE + |es[j - 1].name| + |es[j - 1].body|
  }

  /** Where the body of record `j` starts. */
  function DataStart(es: seq<Entry>, j: nat): nat
    requires j < |es|
  {
    Start(es, j) + FILE_HEADER_SIZE + |es[j].name|
  }

  /** The header and the name of record `j` lie in `m` where it starts. */
  ghost predicate HeaderAt(m: bytes, es: seq<Entry>, hs: seq<FileHeader>, j: nat)
    requires |hs| == |es| && j < |es|
  {
    && Start(es, j + 1) <= |m|
    && ReadFileHeader(m, Start(es, j)) == hs[j]
    && m[Start(es, j) + FILE_HEADER_SIZE..DataStart(es, j)] == es[j].name
  }

  /** The body of record `j` lies in `m` after its name. */
  ghost predicate BodyAt(m: bytes, es: seq<Entry>, j: nat)
    requires j < |es|
  {
    && Start(es, j + 1) <= |m|
    && m[DataStart(es, j)..Start(es, j + 1)] == es[j].body
  }

  /** The bodies of all records lie in `m` where they belong. */
  ghost predicate Bodies(m: bytes, es: seq<Entry>)
  {
    forall j :: 0 <= j < |es| ==> BodyAt(m, es, j)
  }

  /** The records lie in `m` one after another from offset 0, and what
      follows the last one stops the walk. */
  ghost predicate Laid(m: bytes, es: seq<Entry>, hs: seq<FileHeader>)
    requires |hs| == |es|
  {
    && (forall j :: 0 <= j < |es| ==> HeaderAt(m, es, hs, j))
    && Bodies(m, es)
    && Start(es, |es|) <= |m|
    && Stops(m[Start(es, |es|)..])
  }

  /** The members the walk should find from record `j` on. */
  function Expected(es: seq<Entry>, hs: seq<FileHeader>, j: nat): (ms: seq<Member>)
    requires |hs| == |es| && j <= |es|
    decreases |es| - j
  {
    if j == |es| then []
    else [Member(hs[j], es[j].name, DataStart(es, j))] + Expected(es, hs, j + 1)
  }

  /** The body of the first entry whose name, without ".bin", is `k`. */
  function FirstBody(es: seq<Entry>, k: bytes): Option<bytes>
    decreases |es|
  {
    if |es| == 0 then None
    else if StripBin(es[0].name) == k then Some(es[0].body)
    else FirstBody(es[1..], k)
  }

  /** The walk stops where `tail` starts. */
  lemma StopsAt(m: bytes, n: nat)
    requires n <= |m| && Stops(m[n..])
    ensures Step(m, n).None?
  {
    if n + FILE_HEADER_SIZE <= |m| {
      var tail := m[n..];
      ReadFileHeaderLocal(m, n);
      ReadFileHeaderLocal(tail, 0);
      assert tail[0..FILE_HEADER_SIZE] == m[n..n + FILE_HEADER_SIZE];
      assert tail[..4] == tail[0..FILE_HEADER_SIZE][0..4];
    }
  }

  /** A record reads back as its header, then its name, then its body. */
  lemma RecordParts(m: bytes, at: nat, h: FileHeader, e: Entry)
    requires at + FILE_HEADER_SIZE + |e.name| + |e.body| <= |m|
    requires m[at..at + FILE_HEADER_SIZE + |e.name| + |e.body|] == FileHeaderBytes(h) + e.name + e.body
    ensures ReadFileHeader(m, at) == h
    ensures m[at + FILE_HEADER_SIZE..at + FILE_HEADER_SIZE + |e.name|] == e.name
    ensures m[at + FILE_HEADER_SIZE + |e.name|..at + FILE_HEADER_SIZE + |e.name| + |e.body|] == e.body
  {
    SliceOfThree(m, at, FileHeaderBytes(h), e.name, e.body);
    ReadFileHeaderAt(m, at, h);
  }

  /** A header that describes its entry, followed by the entry's name, is
      read back as one stored member whose body follows the name. */
  lemma StepAtHeader(m: bytes, at: nat, h: FileHeader, e: Entry)
    requires at + FILE_HEADER_SIZE + |e.name| + |e.body| <= |m|
    requires ReadFileHeader(m, at) == h
    requires m[at + FILE_HEADER_SIZE..at + FILE_HEADER_SIZE + |e.name|] == e.name
    requires Describes(h, e)
    ensures Step(m, at) == Some(Member(h, e.name, at + FILE_HEADER_SIZE + |e.name|))
  {
  }

  /** Record `j` sits at its offset inside `Concat(records) + tail`. */
  lemma RecordAt(es: seq<Entry>, hs: seq<FileHeader>, tail: bytes, j: nat)
    requires |hs| == |es| && j < |es|
    ensures Offset(es, hs, j + 1) == Offset(es, hs, j) + FILE_HEADER_SIZE + |es[j].name| + |es[j].body|
    ensures Offset(es, hs, j + 1) <= |Concat(Records(es, hs)) + tail|
    ensures (Concat(Records(es, hs)) + tail)[Offset(es, hs, j)..Offset(es, hs, j + 1)]
         == FileHeaderBytes(hs[j]) + es[j].name + es[j].body
  {
    ConcatPart(Records(es, hs), j);
  }

  /** The concatenation puts each record where the previous one ends. */
  lemma {:induction false} OffsetIsStart(es: seq<Entry>, hs: seq<FileHeader>, j: nat)
    requires |hs| == |es| && j <= |es|
    ensures Offset(es, hs, j) == Start(es, j)
  {
    if j > 0 {
      OffsetIsStart(es, hs, j - 1);
      ConcatStep(Records(es, hs), j - 1);
    }
  }

  /** Record `j` of the concatenation reads back as its header, name and
      body. */
  lemma RecordPlaced(es: seq<Entry>, hs: seq<FileHeader>, tail: bytes, j: nat)
    requires |hs| == |es| && j < |es|
    ensures HeaderAt(Concat(Records(es, hs)) + tail, es, hs, j)
    ensures BodyAt(Concat(Records(es, hs)) + tail, es, j)
  {
    RecordAt(es, hs, tail, j);
    OffsetIsStart(es, hs, j);
    OffsetIsStart(es, hs, j + 1);
    PlacedFromSlice(Concat(Records(es, hs)) + tail, es, hs, j);
  }

  lemma PlacedFromSlice(m: bytes, es: seq<Entry>, hs: seq<FileHeader>, j: nat)
    requires |hs| == |es| && j < |es| && Start(es, j + 1) <= |m|
    requires m[Start(es, j)..Start(es, j + 1)] == FileHeaderBytes(hs[j]) + es[j].name + es[j].body
    ensures HeaderAt(m, es, hs, j) && BodyAt(m, es, j)
  {
    RecordParts(m, Start(es, j), hs[j], es[j]);
  }

  /** The concatenated records followed by a stopping tail are laid out
      record after record. */
  lemma RecordsLaid(es: seq<Entry>, hs: seq<FileHeader>, tail: bytes)
    requires |hs| == |es| && Stops(tail)
    ensures Laid(Concat(Records(es, hs)) + tail, es, hs)
  {
    var m := Concat(Records(es, hs)) + tail;
    forall j | 0 <= j < |es|
      ensures HeaderAt(m, es, hs, j) && BodyAt(m, es, j)
    {
      RecordPlaced(es, hs, tail, j);
    }
    assert Bodies(m, es);
    OffsetIsStart(es, hs, |es|);
    assert Records(es, hs)[..|es|] == Records(es, hs);
    assert m[Start(es, |es|)..] == tail;
  }

  /** Over laid-out records, the walk from record `j` finds exactly the
      records from `j` on, and stops after the last. */
  lemma {:induction false} WalkLaid(m: bytes, es: seq<Entry>, hs: seq<FileHeader>, j: nat)
    requires |hs| == |es| && j <= |es| && Laid(m, es, hs)
    requires forall i :: 0 <= i < |es| ==> Describes(hs[i], es[i])
    ensures Members(m, Start(es, j)) == Expected(es, hs, j)
    decreases |es| - j
  {
    if j == |es| {
      WalkEnd(m, es, hs);
    } else {
      WalkStep(m, es, hs, j);
      WalkLaid(m, es, hs, j + 1);
    }
  }

  /** After the last record the walk stops. */
  lemma WalkEnd(m: bytes, es: seq<Entry>, hs: seq<FileHeader>)
    requires |hs| == |es| && Laid(m, es, hs)
    ensures Members(m, Start(es, |es|)) == []
  {
    StopsAt(m, Start(es, |es|));
  }

  /** At record `j` the walk finds it and goes on where the next one
      starts. */
  lemma WalkStep(m: bytes, es: seq<Entry>, hs: seq<FileHeader>, j: nat)
    requires |hs| == |es| && j < |es| && Laid(m, es, hs) && Describes(hs[j], es[j])
    ensures Members(m, Start(es, j)) == [Member(hs[j], es[j].name, DataStart(es, j))] + Members(m, Start(es, j + 1))
  {
    assert HeaderAt(m, es, hs, j);
    StepAt(m, es, hs, j);
    MembersCons(m, Start(es, j), Member(hs[j], es[j].name, DataStart(es, j)));
  }

  /** The walk reads record `j` as one stored member ending where the next
      record starts. */
  lemma StepAt(m: bytes, es: seq<Entry>, hs: seq<FileHeader>, j: nat)
    requires |hs| == |es| && j < |es| && HeaderAt(m, es, hs, j) && Describes(hs[j], es[j])
    ensures Step(m, Start(es, j)) == Some(Member(hs[j], es[j].name, DataStart(es, j)))
    ensures Member(hs[j], es[j].name, DataStart(es, j)).End() == Start(es, j + 1)
  {
    StepAtHeader(m, Start(es, j), hs[j], es[j]);
  }

  /** The first stored member with key `k` among the records from `j` on
      points at the body of the first entry with that name. */
  lemma {:induction false} FirstLaid(m: bytes, es: seq<Entry>, hs: seq<FileHeader>, j: nat, k: bytes)
    requires |hs| == |es| && j <= |es| && Bodies(m, es)
    requires forall i :: 0 <= i < |es| ==> Describes(hs[i], es[i])
    ensures Fetch(m, FirstRef(Expected(es, hs, j), k)) == FirstBody(es[j..], k)
    decreases |es| - j
  {
    if j < |es| {
      FirstRefHere(es, hs, j, k);
      FirstBodyHere(es, j, k);
      if StripBin(es[j].name) == k {
        BodyHere(m, es, j);
      } else {
        FirstLaid(m, es, hs, j + 1, k);
      }
    } else {
      assert es[j..] == [];
    }
  }

  /** The body of record `j` is fetched from where it lies. */
  lemma BodyHere(m: bytes, es: seq<Entry>, j: nat)
    requires j < |es| && Bodies(m, es)
    ensures Fetch(m, Some(FileRef(DataStart(es, j), |es[j].body|))) == Some(es[j].body)
  {
    assert BodyAt(m, es, j);
  }

  /** The lookup among the expected members looks at record `j` first. */
  lemma FirstRefHere(es: seq<Entry>, hs: seq<FileHeader>, j: nat, k: bytes)
    requires |hs| == |es| && j < |es| && Describes(hs[j], es[j])
    ensures FirstRef(Expected(es, hs, j), k)
      == if StripBin(es[j].name) == k then Some(FileRef(DataStart(es, j), |es[j].body|))
         else FirstRef(Expected(es, hs, j + 1), k)
  {
    var member := Member(hs[j], es[j].name, DataStart(es, j));
    var ms := Expected(es, hs, j);
    assert ms == [member] + Expected(es, hs, j + 1);
    assert ms[0] == member && ms[1..] == Expected(es, hs, j + 1);
    assert member.Stored() && member.Ref() == FileRef(DataStart(es, j), |es[j].body|);
  }

  /** The first entry named `k` from `j` on is entry `j`, or one after it. */
  lemma FirstBodyHere(es: seq<Entry>, j: nat, k: bytes)
    requires j < |es|
    ensures FirstBody(es[j..], k)
      == if StripBin(es[j].name) == k then Some(es[j].body) else FirstBody(es[j + 1..], k)
  {
    assert es[j..][1..] == es[j + 1..];
  }

  /** Loading from laid-out records finds the first entry with the name. */
  lemma LoadLaid(m: bytes, es: seq<Entry>, hs: seq<FileHeader>, k: bytes)
    requires |hs| == |es| && Laid(m, es, hs)
    requires forall i :: 0 <= i < |es| ==> Describes(hs[i], es[i])
    ensures Load(m, k) == FirstBody(es, k)
  {
    WalkLaid(m, es, hs, 0);
    IndexLookup(m, k);
    FirstLaid(m, es, hs, 0, k);
    assert es[0..] == es;
  }

  /** The headers the builder patched in. */
  function Headers(es: seq<Entry>): (hs: seq<FileHeader>)
    ensures |hs| == |es|
  {
    seq(|es|, j requires 0 <= j < |es| => FinalHeader(es[j]))
  }

  /** The builder's local records are records with the patched headers. */
  lemma BuiltRecords(es: seq<Entry>)
    ensures LocalSection(es) == Concat(Records(es, Headers(es)))
  {
    var hs := Headers(es);
    forall i | 0 <= i < |es|
      ensures LocalRecords(es)[i] == Records(es, hs)[i]
    {
    }
    assert LocalRecords(es) == Records(es, hs);
  }

  /** A patched header describes its entry. */
  lemma FinalHeaderDescribes(e: Entry)
    requires |e.name| < 0x1_0000 && |e.body| < NO_SIZE
    ensures Describes(FinalHeader(e), e)
  {
    FinalHeaderDescribesBody(e);
    FinalHeaderExtra(e);
  }

  lemma HeadersDescribe(es: seq<Entry>)
    requires Fits(es)
    ensures forall i :: 0 <= i < |es| ==> Describes(Headers(es)[i], es[i])
  {
    forall i | 0 <= i < |es|
      ensures Describes(Headers(es)[i], es[i])
    {
      FinalHeaderDescribes(es[i]);
    }
  }

  /** The central directory, or the end record when there is none, ends
      the walk. */
  lemma DirectoryStops(ds: seq<DirectoryEntry>, names: seq<bytes>, end: DirectoryEnd)
    requires |ds| == |names|
    requires forall i :: 0 <= i < |ds| ==> ds[i].magic == DIRECTORY_MAGIC
    ensures Stops(Concat(DirectoryItems(ds, names)) + DirectoryEndBytes(end))
  {
    var items := DirectoryItems(ds, names);
    var tail := Concat(items) + DirectoryEndBytes(end);
    if |ds| == 0 {
      assert items == [];
      assert tail == DirectoryEndBytes(end);
    } else {
      ConcatPart(items, 0);
      assert items[..0] == [];
      assert items[0] == DirectoryEntryBytes(ds[0]) + names[0];
      DirectoryEntryMagic(ds[0]);
      assert items[0][..4] == ds[0].magic;
      assert tail[..4] == Concat(items)[..4] == items[0][..4];
    }
  }

  /** Every directory entry the builder writes carries the directory
      signature. */
  lemma RecordsAreDirectoryEntries(es: seq<Entry>)
    ensures forall i :: 0 <= i < |es| ==> DirectoryRecords(es)[i].magic == DIRECTORY_MAGIC
  {
  }

  /** What follows the local records of a built archive: its central
      directory and end record. */
  function Trailer(es: seq<Entry>): bytes
  {
    Concat(DirectoryItems(DirectoryRecords(es), Names(es))) + DirectoryEndBytes(EndRecord(es))
  }

  /** A built archive is its local records followed by its trailer, which
      stops the walk. */
  lemma ArchiveParts(es: seq<Entry>)
    ensures Archive(es) == LocalSection(es) + Trailer(es)
    ensures Stops(Trailer(es))
  {
    AppendAssociates(LocalSection(es), Concat(DirectoryItems(DirectoryRecords(es), Names(es))),
                     DirectoryEndBytes(EndRecord(es)));
    RecordsAreDirectoryEntries(es);
    DirectoryStops(DirectoryRecords(es), Names(es), EndRecord(es));
  }

  /** The built archive is its local records, laid out from the start. */
  lemma ArchiveLaid(es: seq<Entry>)
    ensures Laid(Archive(es), es, Headers(es))
  {
    ArchiveParts(es);
    BuiltRecords(es);
    RecordsLaid(es, Headers(es), Trailer(es));
  }

  /** Reading back a built archive: every name, without ".bin", maps to the
      body of the first entry with that name, and no other name is
      indexed. */
  lemma ArchiveRoundTrip(es: seq<Entry>, k: bytes)
    requires Fits(es)
    ensures Load(Archive(es), k) == FirstBody(es, k)
  {
    ArchiveLaid(es);
    HeadersDescribe(es);
    LoadLaid(Archive(es), es, Headers(es), k);
  }
}
