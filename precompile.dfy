/** The archive builder of the WAS front end: compiles every source file
    given on the command line and stores the results, uncompressed, in one
    ZIP archive named after the PHP system id. */
module Precompile {
  import opened Wrappers
  import opened Bytes
  import opened LittleEndian
  import opened ZipFormat
  import opened Crc32
  import opened PosixFile

  /** "./" */
  const DOT_SLASH: bytes := [0x2E, 0x2F]
  /** "opcache-" */
  const ZIP_PREFIX: bytes := [0x6F, 0x70, 0x63, 0x61, 0x63, 0x68, 0x65, 0x2D]
  /** ".zip" */
  const ZIP_SUFFIX: bytes := [0x2E, 0x7A, 0x69, 0x70]
  /** The size of the stack buffer `CrcFromFile` reads into. */
  const CRC_CHUNK: nat := 16384

  /** `zend_system_id`: 32 characters, not necessarily NUL-terminated. */
  type SystemId = s: bytes | |s| == 32 witness seq(32, _ => 0x30)

  /** A file name the way `strncmp`/`strlen` see it: C strings have no
      NUL byte inside, so a name here is the bytes before the terminator. */
  function NormalizeFilename(f: bytes): (r: bytes)
    ensures |r| == |f| || |r| == |f| - 2
    ensures r == f[|f| - |r|..]
    ensures |r| < |f| <==> |f| > 2 && f[..2] == DOT_SLASH
  {
    if |f| > 2 && f[..2] == DOT_SLASH then f[2..] else f
  }

  /** The only name that loses its "./" keeps at least one byte. */
  lemma NormalizeKeepsSomething(f: bytes)
    ensures |f| > 0 ==> |NormalizeFilename(f)| > 0
    ensures NormalizeFilename(DOT_SLASH) == DOT_SLASH
  {
  }

  /** The bytes of `s` before its first NUL, at most all of them (`%.32s`). */
  function UntilNul(s: bytes): (r: bytes)
    ensures |r| <= |s| && r == s[..|r|]
    ensures forall i :: 0 <= i < |r| ==> r[i] != 0
    ensures |r| < |s| ==> s[|r|] == 0
  {
    if |s| == 0 || s[0] == 0 then []
    else
      var t := UntilNul(s[1..]);
      assert [s[0]] + t == s[..1 + |t|];
      [s[0]] + t
  }

  /** `sprintf(zip_filename, "opcache-%.32s.zip", zend_system_id)`. */
  function ZipFileName(id: SystemId): bytes
  {
    ZIP_PREFIX + UntilNul(id) + ZIP_SUFFIX
  }

  /** One archive member: its normalised name and the compiler's output. */
  datatype Entry = Entry(name: bytes, body: bytes)

  /** The header `WritePreliminaryZipFileHeader` writes: stored, the name's
      length truncated to 16 bits, crc and sizes still zero. */
  function PreliminaryHeader(name: bytes): FileHeader
  {
    DefaultFileHeader().(compressionMethod := FromU16(METHOD_STORED),
                         nameLength := FromU16(Truncate16(|name|)))
  }

  /** The header after patching: both sizes are the body's length (as a
      32-bit field) and the crc is the body's CRC-32. */
  function FinalHeader(e: Entry): FileHeader
  {
    PreliminaryHeader(e.name).(crc := FromU32(Crc(0, e.body) as int),
                               compressedSize := FromU32(Truncate32(|e.body|)),
                               uncompressedSize := FromU32(Truncate32(|e.body|)))
  }

  /** The local header, name and body of one member. */
  function LocalRecord(e: Entry): (s: bytes)
    ensures |s| == FILE_HEADER_SIZE + |e.name| + |e.body|
  {
    FileHeaderBytes(FinalHeader(e)) + e.name + e.body
  }

  /** The local records of all members, in input order. */
  function LocalRecords(es: seq<Entry>): (rs: seq<bytes>)
    ensures |rs| == |es|
  {
    seq(|es|, i requires 0 <= i < |es| => LocalRecord(es[i]))
  }

  /** Everything before the central directory. */
  function LocalSection(es: seq<Entry>): bytes
  {
    Concat(LocalRecords(es))
  }

  /** Where the header of member `i` starts. */
  function HeaderOffset(es: seq<Entry>, i: nat): nat
    requires i <= |es|
  {
    |Concat(LocalRecords(es)[..i])|
  }

  /** The central-directory entry of member `i`: the converted header with
      the header's offset as a 32-bit field. */
  function DirectoryRecord(es: seq<Entry>, i: nat): DirectoryEntry
    requires i < |es|
  {
    DirectoryEntryFrom(FinalHeader(es[i])).(localHeaderOffset := FromU32(Truncate32(HeaderOffset(es, i))))
  }

  /** The directory entries of all members, as the first loop records them. */
  function DirectoryRecords(es: seq<Entry>): (ds: seq<DirectoryEntry>)
    ensures |ds| == |es|
  {
    seq(|es|, j requires 0 <= j < |es| => DirectoryRecord(es, j))
  }

  /** The members' names, in order. */
  function Names(es: seq<Entry>): (ns: seq<bytes>)
    ensures |ns| == |es|
  {
    seq(|es|, j requires 0 <= j < |es| => es[j].name)
  }

  /** The central directory: each recorded entry followed by its name. */
  function DirectoryItems(ds: seq<DirectoryEntry>, names: seq<bytes>): (items: seq<bytes>)
    requires |ds| == |names|
    ensures |items| == |ds|
  {
    seq(|ds|, j requires 0 <= j < |ds| => DirectoryItem(ds[j], names[j]))
  }

  /** A directory entry followed by its name. */
  function DirectoryItem(d: DirectoryEntry, name: bytes): (r: bytes)
    ensures |r| == DIRECTORY_ENTRY_SIZE + |name|
  {
    DirectoryEntryBytes(d) + name
  }

  /** The running sum `directory_size += sizeof(entry) + name_length`. */
  function DirectorySize(names: seq<bytes>): nat
  {
    if |names| == 0 then 0 else DirectorySize(names[..|names| - 1]) + DIRECTORY_ENTRY_SIZE + |names[|names| - 1]|
  }

  /** The end record: entry count and directory position and size, each
      truncated to its field's width; `disk_entries` is left at zero. */
  function EndRecord(es: seq<Entry>): DirectoryEnd
  {
    DefaultDirectoryEnd().(totalEntries := FromU16(Truncate16(|es|)),
                           directoryOffset := FromU32(Truncate32(|LocalSection(es)|)),
                           directorySize := FromU32(Truncate32(DirectorySize(Names(es)))))
  }

  /** The complete archive for the given members. */
  function Archive(es: seq<Entry>): bytes
  {
    LocalSection(es) + Concat(DirectoryItems(DirectoryRecords(es), Names(es))) + DirectoryEndBytes(EndRecord(es))
  }

  /** The normalised names of the inputs. */
  function Normalized(files: seq<bytes>): (ns: seq<bytes>)
    ensures |ns| == |files|
  {
    seq(|files|, j requires 0 <= j < |files| => NormalizeFilename(files[j]))
  }

  /** Every input compiles. */
  predicate AllCompile(files: seq<bytes>, compile: bytes -> Option<bytes>)
  {
    forall i :: 0 <= i < |files| ==> compile(NormalizeFilename(files[i])).Some?
  }

  /** The members built from the inputs, in input order. */
  function Inputs(files: seq<bytes>, compile: bytes -> Option<bytes>): (es: seq<Entry>)
    requires AllCompile(files, compile)
    ensures |es| == |files|
    ensures forall i :: 0 <= i < |files| ==> es[i].name == NormalizeFilename(files[i])
  {
    seq(|files|, i requires 0 <= i < |files| =>
      Entry(NormalizeFilename(files[i]), compile(NormalizeFilename(files[i])).value))
  }

  /** The directory after `CommitFile`: the old name is gone, and the new
      file is there iff `linkat` succeeded. */
  function Published(dir: map<bytes, bytes>, name: bytes, content: bytes, linked: bool): map<bytes, bytes>
  {
    if linked then (dir - {name})[name := content] else dir - {name}
  }

  // ---------------------------------------------------------------------
  // Layout facts

  lemma LocalSectionLength(es: seq<Entry>)
    ensures |LocalSection(es)| == HeaderOffset(es, |es|)
  {
    assert LocalRecords(es)[..|es|] == LocalRecords(es);
  }

  /** Header offsets step by the size of the record before, and each record
      sits at its header offset. */
  lemma HeaderOffsetStep(es: seq<Entry>, i: nat)
    requires i < |es|
    ensures HeaderOffset(es, i + 1) == HeaderOffset(es, i) + FILE_HEADER_SIZE + |es[i].name| + |es[i].body|
    ensures HeaderOffset(es, i + 1) <= |LocalSection(es)|
    ensures LocalSection(es)[HeaderOffset(es, i)..HeaderOffset(es, i + 1)] == LocalRecord(es[i])
  {
    ConcatPart(LocalRecords(es), i);
  }

  /** Appending a member does not move the earlier ones. */
  lemma HeaderOffsetAppend(es: seq<Entry>, e: Entry, i: nat)
    requires i <= |es|
    ensures HeaderOffset(es + [e], i) == HeaderOffset(es, i)
  {
    assert LocalRecords(es + [e])[..i] == LocalRecords(es)[..i];
  }

  lemma LocalSectionAppend(es: seq<Entry>, e: Entry)
    ensures LocalSection(es + [e]) == LocalSection(es) + LocalRecord(e)
  {
    assert LocalRecords(es + [e]) == LocalRecords(es) + [LocalRecord(e)];
    ConcatAppend(LocalRecords(es), LocalRecord(e));
  }

  /** The directory's size field counts exactly the bytes the directory takes. */
  lemma {:induction false} DirectorySizeIsLength(ds: seq<DirectoryEntry>, names: seq<bytes>)
    requires |ds| == |names|
    ensures |Concat(DirectoryItems(ds, names))| == DirectorySize(names)
    decreases |ds|
  {
    if |ds| > 0 {
      var n := |ds| - 1;
      assert DirectoryItems(ds, names)[..n] == DirectoryItems(ds[..n], names[..n]);
      DirectorySizeIsLength(ds[..n], names[..n]);
    }
  }

  /** The patched header records the body: sizes and CRC-32, method 0. */
  lemma FinalHeaderDescribesBody(e: Entry)
    requires |e.body| < 0x1_0000_0000 && |e.name| < 0x1_0000
    ensures FinalHeader(e).compressedSize.Value() == |e.body|
    ensures FinalHeader(e).uncompressedSize.Value() == |e.body|
    ensures FinalHeader(e).crc.Value() == Crc(0, e.body) as int
    ensures FinalHeader(e).compressionMethod.Value() == METHOD_STORED
    ensures FinalHeader(e).nameLength.Value() == |e.name|
    ensures FinalHeader(e).magic == LOCAL_MAGIC
  {
    FinalHeaderSizes(e);
    FinalHeaderCrc(e);
    FinalHeaderMethod(e);
    FinalHeaderName(e);
  }

  lemma FinalHeaderSizes(e: Entry)
    requires |e.body| < 0x1_0000_0000
    ensures FinalHeader(e).compressedSize.Value() == |e.body|
    ensures FinalHeader(e).uncompressedSize.Value() == |e.body|
  {
    FromU32Bytes(|e.body|);
  }

  lemma FinalHeaderCrc(e: Entry)
    ensures FinalHeader(e).crc.Value() == Crc(0, e.body) as int
  {
    FromU32Bytes(Crc(0, e.body) as int);
  }

  lemma FinalHeaderMethod(e: Entry)
    ensures FinalHeader(e).compressionMethod.Value() == METHOD_STORED
  {
    FromU16Value(METHOD_STORED);
  }

  lemma FinalHeaderName(e: Entry)
    requires |e.name| < 0x1_0000
    ensures FinalHeader(e).nameLength.Value() == |e.name|
  {
    FromU16Value(|e.name|);
  }

  lemma FinalHeaderExtra(e: Entry)
    ensures FinalHeader(e).extraLength.Value() == 0
  {
  }

  /** The directory entry of member `i` points at its local header. */
  lemma DirectoryRecordPointsAtHeader(es: seq<Entry>, i: nat)
    requires i < |es| && |LocalSection(es)| < 0x1_0000_0000
    ensures DirectoryRecord(es, i).localHeaderOffset.Value() == HeaderOffset(es, i)
  {
    HeaderOffsetStep(es, i);
    FromU32Bytes(HeaderOffset(es, i));
  }

  /** The end record's counts: all entries, and none "on this disk". */
  lemma EndRecordCounts(es: seq<Entry>)
    requires |es| < 0x1_0000
    ensures EndRecord(es).totalEntries.Value() == |es|
    ensures EndRecord(es).diskEntries.Value() == 0
  {
    FromU16Value(|es|);
    FromU16Value(0);
  }

  /** The end record locates the directory: it starts right after the last
      body ... */
  lemma EndRecordOffset(es: seq<Entry>)
    requires |LocalSection(es)| < 0x1_0000_0000
    ensures EndRecord(es).directoryOffset.Value() == |LocalSection(es)|
  {
    FromU32Bytes(|LocalSection(es)|);
  }

  /** ... and its size field is the running sum, which is its length. */
  lemma EndRecordSize(es: seq<Entry>)
    requires DirectorySize(Names(es)) < 0x1_0000_0000
    ensures EndRecord(es).directorySize.Value() == |Concat(DirectoryItems(DirectoryRecords(es), Names(es)))|
  {
    FromU32Bytes(DirectorySize(Names(es)));
    DirectorySizeIsLength(DirectoryRecords(es), Names(es));
  }

  // ---------------------------------------------------------------------
  // The builder

  /** `WritePreliminaryZipFileHeader`: writes the preliminary header and
      the name at the current offset and returns the header. */
  method WritePreliminaryZipFileHeader(fd: File, name: bytes) returns (h: FileHeader)
    requires fd.Valid()
    modifies fd
    ensures fd.Valid()
    ensures h == PreliminaryHeader(name)
    ensures fd.content == Overwrite(Overwrite(old(fd.content), old(fd.offset), FileHeaderBytes(h)), old(fd.offset) + FILE_HEADER_SIZE, name)
    ensures old(fd.offset) == |old(fd.content)| ==> fd.content == old(fd.content) + FileHeaderBytes(h) + name
    ensures fd.offset == old(fd.offset) + FILE_HEADER_SIZE + |name|
  {
    h := DefaultFileHeader();
    h := h.(compressionMethod := FromU16(METHOD_STORED));
    h := h.(nameLength := FromU16(Truncate16(|name|)));
    fd.Write(FileHeaderBytes(h));
    fd.Write(name);
  }

  /** The preliminary header is 30 bytes: method 0, crc and sizes zero,
      and the name's length. */
  lemma PreliminaryHeaderImage(name: bytes)
    requires |name| < 0x1_0000
    ensures FileHeaderBytes(PreliminaryHeader(name))
         == LOCAL_MAGIC + [20, 0, 0, 0, 0, 0] + seq(16, _ => 0) + [|name| % 0x100, |name| / 0x100, 0, 0]
  {
  }

  /** `CrcFromFile`: the CRC-32 of `size` bytes at `offset`, read in chunks
      of at most 16384 bytes; `None` stands for the `abort()` when a read
      comes back empty, which happens exactly when the range runs past the
      end of the file. */
  method CrcFromFile(fd: File, offset: nat, size: nat) returns (r: Option<bv32>)
    ensures r.Some? <==> size == 0 || offset + size <= |fd.content|
    ensures r.Some? && size == 0 ==> r.value == 0
    ensures r.Some? && size > 0 ==> r.value == Crc(0, fd.content[offset..offset + size])
  {
    var crc: bv32 := 0;
    var off: nat := offset;
    var left: nat := size;
    ghost var content := fd.content;
    while left > 0
      invariant off + left == offset + size && offset <= off
      invariant off == offset || off <= |content|
      invariant crc == RangeCrc(content, offset, off)
      decreases left
    {
      var chunk := fd.Pread(Min(CRC_CHUNK, left), off);
      if |chunk| == 0 {
        return None;
      }
      assert off < |content| && chunk == content[off..off + |chunk|];
      CrcOfPrefix(content, offset, off, chunk, crc);
      crc := Crc(crc, chunk);
      off := off + |chunk|;
      left := left - |chunk|;
    }
    return Some(crc);
  }

  /** The checksum of the file range from `offset` to `off`, or 0 (the
      checksum of nothing) while the range is still empty. */
  ghost function RangeCrc(s: bytes, offset: nat, off: nat): bv32
    requires offset <= off
  {
    if off == offset || off > |s| then 0 else Crc(0, s[offset..off])
  }

  /** Continuing the checksum of a file range with the bytes that follow it
      gives the checksum of the longer range. */
  lemma CrcOfPrefix(s: bytes, offset: nat, off: nat, chunk: bytes, crc: bv32)
    requires offset <= off && off + |chunk| <= |s| && chunk == s[off..off + |chunk|]
    requires crc == RangeCrc(s, offset, off)
    ensures Crc(crc, chunk) == RangeCrc(s, offset, off + |chunk|)
  {
    if off == offset {
      CrcOfNothing(0);
      assert s[offset..off] == [];
    }
    CrcAppend(0, s[offset..off], chunk);
    assert s[offset..off] + chunk == s[offset..off + |chunk|];
  }

  /** `CommitFile`: unlink the target name, then link the open file to it. */
  method CommitFile(fd: File, dir: Directory, name: bytes, linkPermitted: bool) returns (ok: bool)
    modifies dir
    ensures ok == linkPermitted
    ensures dir.entries == Published(old(dir.entries), name, fd.content, linkPermitted)
  {
    dir.Unlink(name);
    ok := dir.Link(name, fd, linkPermitted);
  }

  /** Where the body sits in the unpatched record. */
  lemma UnpatchedBody(s: bytes, name: bytes, body: bytes)
    ensures (s + FileHeaderBytes(PreliminaryHeader(name)) + name + body)[|s| + FILE_HEADER_SIZE + |name|..|s| + FILE_HEADER_SIZE + |name| + |body|] == body
  {
  }

  /** Patching the preliminary header in place yields the final record. */
  lemma PatchedRecord(s: bytes, e: Entry)
    ensures Overwrite(s + FileHeaderBytes(PreliminaryHeader(e.name)) + e.name + e.body, |s|, FileHeaderBytes(FinalHeader(e)))
         == s + LocalRecord(e)
  {
    var hb := FileHeaderBytes(PreliminaryHeader(e.name));
    OverwriteSameLength(s, hb, FileHeaderBytes(FinalHeader(e)), e.name + e.body);
    assert s + hb + e.name + e.body == s + hb + (e.name + e.body);
    assert s + FileHeaderBytes(FinalHeader(e)) + (e.name + e.body) == s + LocalRecord(e);
  }

  /** One iteration of the first loop of `precompile`, for a body the
      compiler produced: header, name and body appended, header patched. */
  method AppendMember(fd: File, ghost es: seq<Entry>, name: bytes, body: bytes) returns (d: DirectoryEntry)
    requires fd.Valid() && fd.content == LocalSection(es) && fd.offset == |fd.content|
    modifies fd
    ensures fd.Valid() && fd.content == LocalSection(es + [Entry(name, body)]) && fd.offset == |fd.content|
    ensures d == DirectoryRecord(es + [Entry(name, body)], |es|)
  {
    ghost var s := fd.content;
    ghost var e := Entry(name, body);
    var headerOffset := fd.Tell();
    var h := WritePreliminaryZipFileHeader(fd, name);
    var dataOffset := fd.Tell();
    fd.Write(body);
    UnpatchedBody(s, name, body);
    ghost var unpatched := fd.content;
    assert unpatched == s + FileHeaderBytes(PreliminaryHeader(name)) + name + body;
    var endOffset := fd.Tell();
    var dataSize := endOffset - dataOffset;
    assert dataSize == |body|;
    h := h.(compressedSize := FromU32(Truncate32(dataSize)), uncompressedSize := FromU32(Truncate32(dataSize)));
    var crc := CrcFromFile(fd, dataOffset, dataSize);
    assert crc.value == Crc(0, body);
    h := h.(crc := FromU32(crc.value as int));
    assert h == FinalHeader(e);
    PatchedRecord(s, e);
    fd.Pwrite(FileHeaderBytes(h), headerOffset);
    assert fd.content == s + LocalRecord(e);
    LocalSectionAppend(es, e);
    d := DirectoryEntryFrom(h).(localHeaderOffset := FromU32(Truncate32(headerOffset)));
    HeaderOffsetAppend(es, e, |es|);
    LocalSectionLength(es);
  }

  /** Recording one more member keeps the earlier directory entries. */
  lemma DirectoryRecordsAppend(es: seq<Entry>, e: Entry, entries: seq<DirectoryEntry>, d: DirectoryEntry)
    requires entries == DirectoryRecords(es) && d == DirectoryRecord(es + [e], |es|)
    ensures entries + [d] == DirectoryRecords(es + [e])
  {
    forall j | 0 <= j < |es|
      ensures DirectoryRecord(es + [e], j) == DirectoryRecord(es, j)
    {
      HeaderOffsetAppend(es, e, j);
    }
  }

  /** Compiling one more input extends the member list by that input. */
  lemma InputsStep(files: seq<bytes>, compile: bytes -> Option<bytes>, i: nat)
    requires i < |files| && AllCompile(files[..i], compile)
    requires compile(NormalizeFilename(files[i])).Some?
    ensures AllCompile(files[..i + 1], compile)
    ensures Inputs(files[..i + 1], compile)
         == Inputs(files[..i], compile) + [Entry(NormalizeFilename(files[i]), compile(NormalizeFilename(files[i])).value)]
  {
    assert forall j :: 0 <= j < i ==> files[..i + 1][j] == files[..i][j];
  }

  /** One more name extends the running sum by an entry and that name. */
  lemma DirectorySizeStep(names: seq<bytes>, k: nat)
    requires k < |names|
    ensures DirectorySize(names[..k + 1]) == DirectorySize(names[..k]) + DIRECTORY_ENTRY_SIZE + |names[k]|
  {
    assert names[..k + 1][..k] == names[..k];
  }

  /** One iteration of the second loop: the recorded entry `k`, then the
      name again, extending the directory written so far by one item. */
  method WriteDirectoryItem(fd: File, entries: seq<DirectoryEntry>, files: seq<bytes>, k: nat, ghost start: bytes)
    requires fd.Valid() && fd.offset == |fd.content|
    requires |entries| == |files| && k < |files|
    requires fd.content == start + Concat(DirectoryItems(entries, Normalized(files))[..k])
    modifies fd
    ensures fd.Valid() && fd.offset == |fd.content|
    ensures fd.content == start + Concat(DirectoryItems(entries, Normalized(files))[..k + 1])
  {
    ghost var items := DirectoryItems(entries, Normalized(files));
    var name := NormalizeFilename(files[k]);
    fd.Write(DirectoryEntryBytes(entries[k]));
    fd.Write(name);
    AppendPart(start, items, k, DirectoryEntryBytes(entries[k]), name);
  }

  /** The second loop of `precompile`: each directory entry recorded by the
      first loop, followed by the name again; returns the running sum of
      their sizes. */
  method WriteDirectoryEntries(fd: File, entries: seq<DirectoryEntry>, files: seq<bytes>)
    returns (directorySize: nat)
    requires fd.Valid() && fd.offset == |fd.content|
    requires |entries| == |files|
    modifies fd
    ensures fd.Valid() && fd.offset == |fd.content|
    ensures fd.content == old(fd.content) + Concat(DirectoryItems(entries, Normalized(files)))
    ensures directorySize == DirectorySize(Normalized(files))
  {
    ghost var start := fd.content;
    directorySize := 0;
    var k := 0;
    while k < |files|
      invariant 0 <= k <= |files| && fd.Valid() && fd.offset == |fd.content|
      invariant fd.content == start + Concat(DirectoryItems(entries, Normalized(files))[..k])
      invariant directorySize == DirectorySize(Normalized(files)[..k])
    {
      WriteDirectoryItem(fd, entries, files, k, start);
      DirectorySizeStep(Normalized(files), k);
      directorySize := directorySize + DIRECTORY_ENTRY_SIZE + |NormalizeFilename(files[k])|;
      k := k + 1;
    }
    assert DirectoryItems(entries, Normalized(files))[..k] == DirectoryItems(entries, Normalized(files));
    assert Normalized(files)[..k] == Normalized(files);
  }

  /** The second half of `precompile`: the central directory, the end
      record, and the truncation at the final offset. */
  method WriteDirectory(fd: File, ghost es: seq<Entry>, entries: seq<DirectoryEntry>, files: seq<bytes>)
    requires fd.Valid() && fd.content == LocalSection(es) && fd.offset == |fd.content|
    requires |es| == |files| && entries == DirectoryRecords(es)
    requires Names(es) == Normalized(files)
    modifies fd
    ensures fd.Valid() && fd.content == Archive(es)
  {
    var end := DefaultDirectoryEnd();
    end := end.(totalEntries := FromU16(Truncate16(|files|)));
    var directoryOffset := fd.Tell();
    end := end.(directoryOffset := FromU32(Truncate32(directoryOffset)));
    var directorySize := WriteDirectoryEntries(fd, entries, files);
    end := end.(directorySize := FromU32(Truncate32(directorySize)));
    assert end == EndRecord(es);
    fd.Write(DirectoryEndBytes(end));
    var pos := fd.Tell();
    fd.Truncate(pos);
  }

  /** The first loop of `precompile`: compiles each input in turn and
      appends it as a member, stopping at the first input that fails. On
      success the file holds the local section and `entries` the directory
      entries of all members. */
  method WriteMembers(fd: File, files: seq<bytes>, compile: bytes -> Option<bytes>)
    returns (ok: bool, entries: seq<DirectoryEntry>, ghost es: seq<Entry>)
    requires fd.Valid() && fd.content == [] && fd.offset == 0
    modifies fd
    ensures fd.Valid() && fd.offset == |fd.content|
    ensures ok <==> AllCompile(files, compile)
    ensures ok ==> es == Inputs(files, compile)
    ensures ok ==> fd.content == LocalSection(es) && entries == DirectoryRecords(es)
  {
    entries := [];
    es := [];
    var i := 0;
    while i < |files|
      invariant 0 <= i <= |files| && fd.Valid()
      invariant AllCompile(files[..i], compile) && es == Inputs(files[..i], compile)
      invariant fd.content == LocalSection(es) && fd.offset == |fd.content|
      invariant entries == DirectoryRecords(es)
    {
      var name := NormalizeFilename(files[i]);
      var body := compile(name);
      if body.None? {
        assert !AllCompile(files, compile) by {
          assert !compile(NormalizeFilename(files[i])).Some?;
        }
        return false, entries, es;
      }
      var d := AppendMember(fd, es, name, body.value);
      DirectoryRecordsAppend(es, Entry(name, body.value), entries, d);
      InputsStep(files, compile, i);
      es := es + [Entry(name, body.value)];
      entries := entries + [d];
      i := i + 1;
    }
    assert files[..i] == files;
    return true, entries, es;
  }

  /** The member names of the inputs are their normalised names. */
  lemma InputsNames(files: seq<bytes>, compile: bytes -> Option<bytes>)
    requires AllCompile(files, compile)
    ensures Names(Inputs(files, compile)) == Normalized(files)
  {
  }

  /** `precompile`: builds the archive in an unnamed temporary file and
      links it as `opcache-<id>.zip` into `cwd`. `tmpOk` is whether
      `open(O_TMPFILE)` succeeds, `compile` is `PrecompileFile` (the body
      bytes it appends, or failure), `linkPermitted` whether `linkat` is
      allowed. The result is false only when the temporary file cannot be
      created or a source fails to compile, and then `cwd` is untouched;
      otherwise it is true whether or not the link succeeded. */
  method Build(files: seq<bytes>, compile: bytes -> Option<bytes>, id: SystemId,
               cwd: Directory, tmpOk: bool, linkPermitted: bool) returns (ok: bool)
    modifies cwd
    ensures ok <==> tmpOk && AllCompile(files, compile)
    ensures !ok ==> cwd.entries == old(cwd.entries)
    ensures ok ==> cwd.entries == Published(old(cwd.entries), ZipFileName(id), Archive(Inputs(files, compile)), linkPermitted)
  {
    if !tmpOk {
      return false;
    }
    var fd := new File.Temporary();
    var compiled, entries, es := WriteMembers(fd, files, compile);
    if !compiled {
      return false;
    }
    InputsNames(files, compile);
    WriteDirectory(fd, es, entries, files);
    var _ := CommitFile(fd, cwd, ZipFileName(id), linkPermitted);
    return true;
  }
}
