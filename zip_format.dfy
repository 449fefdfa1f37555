/** The three packed records of the archive container: the local file
    header, the central-directory entry and the end-of-central-directory
    record of the PKWARE ZIP format (APPNOTE sections 4.3.7, 4.3.12 and
    4.3.16), every multi-byte field little-endian (APPNOTE 4.4.1.1). */
module ZipFormat {
  import opened Bytes
  import opened LittleEndian

  type Magic = s: bytes | |s| == 4 witness [0, 0, 0, 0]

  /** "PK\3\4", "PK\1\2" and "PK\5\6". */
  const LOCAL_MAGIC: Magic := [0x50, 0x4B, 0x03, 0x04]
  const DIRECTORY_MAGIC: Magic := [0x50, 0x4B, 0x01, 0x02]
  const END_MAGIC: Magic := [0x50, 0x4B, 0x05, 0x06]

  /** The three `static_assert`ed record sizes. */
  const FILE_HEADER_SIZE: nat := 0x1e
  const DIRECTORY_ENTRY_SIZE: nat := 0x2e
  const DIRECTORY_END_SIZE: nat := 0x16

  /** Compression method 0, "stored" (APPNOTE 4.4.5). */
  const METHOD_STORED: uint16 := 0
  /** Compression method 8, "deflated", the records' default. */
  const METHOD_DEFLATED: uint16 := 8

  /** `struct ZipFileHeader`. */
  datatype FileHeader = FileHeader(
    magic: Magic,
    extractVersion: uint8,
    os: uint8,
    flags: LE16,
    compressionMethod: LE16,
    time: LE16,
    date: LE16,
    crc: LE32,
    compressedSize: LE32,
    uncompressedSize: LE32,
    nameLength: LE16,
    extraLength: LE16)

  /** `struct ZipDirectoryEntry`. */
  datatype DirectoryEntry = DirectoryEntry(
    magic: Magic,
    version: LE16,
    versionNeeded: LE16,
    flags: LE16,
    compressionMethod: LE16,
    time: LE16,
    date: LE16,
    crc: LE32,
    compressedSize: LE32,
    uncompressedSize: LE32,
    nameLength: LE16,
    extraLength: LE16,
    commentLength: LE16,
    disk: LE16,
    internalAttributes: LE16,
    externalAttributes: LE32,
    localHeaderOffset: LE32)

  /** `struct ZipDirectoryEnd`. */
  datatype DirectoryEnd = DirectoryEnd(
    magic: Magic,
    disk: LE16,
    diskCd: LE16,
    diskEntries: LE16,
    totalEntries: LE16,
    directorySize: LE32,
    directoryOffset: LE32,
    commentLength: LE16)

  /** Zero in a 16-bit and a 32-bit field (`LE16(0)`, `LE32(0)`). */
  const ZERO16: LE16 := LE16(0, 0)
  const ZERO32: LE32 := LE32(0, 0, 0, 0)

  /** `ZipFileHeader h{}`: the default member initialisers (version 20,
      method 8), and zero for the fields that have none (value-initialisation
      of the aggregate). Multi-byte defaults are written as their
      little-endian bytes; `DefaultsAsValues` relates them to the numbers. */
  function DefaultFileHeader(): FileHeader
  {
    FileHeader(LOCAL_MAGIC, 20, 0, ZERO16, LE16(8, 0),
               ZERO16, ZERO16, ZERO32, ZERO32, ZERO32,
               ZERO16, ZERO16)
  }

  /** The converting constructor `ZipDirectoryEntry(const ZipFileHeader &)`:
      crc, method, both sizes and the name length come from the header,
      every other field keeps its default member initialiser (version
      0x031e, version needed 0x0014, internal attributes 1, external
      attributes 0644 << 16, zero elsewhere). */
  function DirectoryEntryFrom(src: FileHeader): DirectoryEntry
  {
    DirectoryEntry(DIRECTORY_MAGIC, LE16(0x1e, 0x03), LE16(0x14, 0x00), ZERO16,
                   src.compressionMethod, ZERO16, ZERO16, src.crc,
                   src.compressedSize, src.uncompressedSize, src.nameLength,
                   ZERO16, ZERO16, ZERO16, LE16(0x01, 0x00),
                   LE32(0x00, 0x00, 0xA4, 0x01), ZERO32)
  }

  /** `ZipDirectoryEnd end{}`. */
  function DefaultDirectoryEnd(): DirectoryEnd
  {
    DirectoryEnd(END_MAGIC, ZERO16, ZERO16, ZERO16, ZERO16,
                 ZERO32, ZERO32, ZERO16)
  }

  /** The defaults as numbers, as the source's initialisers write them. */
  lemma DefaultsAsValues(src: FileHeader)
    ensures DefaultFileHeader().compressionMethod == FromU16(METHOD_DEFLATED)
    ensures ZERO16 == FromU16(0) && ZERO32 == FromU32(0)
    ensures DirectoryEntryFrom(src).version == FromU16(0x031e)
    ensures DirectoryEntryFrom(src).versionNeeded == FromU16(0x0014)
    ensures DirectoryEntryFrom(src).internalAttributes == FromU16(1)
    ensures DirectoryEntryFrom(src).externalAttributes == FromU32(0x1A4 * 0x1_0000)
  {
  }

  /** The in-memory image of a `ZipFileHeader`: the fields in declaration
      order with no padding. */
  function FileHeaderBytes(h: FileHeader): (s: bytes)
    ensures |s| == FILE_HEADER_SIZE
  {
    [h.magic[0], h.magic[1], h.magic[2], h.magic[3],
     h.extractVersion, h.os,
     h.flags.b0, h.flags.b1,
     h.compressionMethod.b0, h.compressionMethod.b1,
     h.time.b0, h.time.b1,
     h.date.b0, h.date.b1,
     h.crc.b0, h.crc.b1, h.crc.b2, h.crc.b3,
     h.compressedSize.b0, h.compressedSize.b1, h.compressedSize.b2, h.compressedSize.b3,
     h.uncompressedSize.b0, h.uncompressedSize.b1, h.uncompressedSize.b2, h.uncompressedSize.b3,
     h.nameLength.b0, h.nameLength.b1,
     h.extraLength.b0, h.extraLength.b1]
  }

  /** Reading `*(const ZipFileHeader *)(s + off)`. */
  function ReadFileHeader(s: bytes, off: nat): FileHeader
    requires off + FILE_HEADER_SIZE <= |s|
  {
    FileHeader(s[off..off + 4], s[off + 4], s[off + 5],
               ReadLE16(s, off + 6), ReadLE16(s, off + 8), ReadLE16(s, off + 10),
               ReadLE16(s, off + 12), ReadLE32(s, off + 14), ReadLE32(s, off + 18),
               ReadLE32(s, off + 22), ReadLE16(s, off + 26), ReadLE16(s, off + 28))
  }

  /** The image of a `ZipDirectoryEntry`. */
  function DirectoryEntryBytes(e: DirectoryEntry): (s: bytes)
    ensures |s| == DIRECTORY_ENTRY_SIZE
  {
    e.magic +
    [e.version.b0, e.version.b1,
     e.versionNeeded.b0, e.versionNeeded.b1,
     e.flags.b0, e.flags.b1,
     e.compressionMethod.b0, e.compressionMethod.b1,
     e.time.b0, e.time.b1,
     e.date.b0, e.date.b1,
     e.crc.b0, e.crc.b1, e.crc.b2, e.crc.b3,
     e.compressedSize.b0, e.compressedSize.b1, e.compressedSize.b2, e.compressedSize.b3,
     e.uncompressedSize.b0, e.uncompressedSize.b1, e.uncompressedSize.b2, e.uncompressedSize.b3,
     e.nameLength.b0, e.nameLength.b1,
     e.extraLength.b0, e.extraLength.b1,
     e.commentLength.b0, e.commentLength.b1,
     e.disk.b0, e.disk.b1,
     e.internalAttributes.b0, e.internalAttributes.b1,
     e.externalAttributes.b0, e.externalAttributes.b1, e.externalAttributes.b2, e.externalAttributes.b3,
     e.localHeaderOffset.b0, e.localHeaderOffset.b1, e.localHeaderOffset.b2, e.localHeaderOffset.b3]
  }

  /** The image of a `ZipDirectoryEnd`. */
  function DirectoryEndBytes(e: DirectoryEnd): (s: bytes)
    ensures |s| == DIRECTORY_END_SIZE
  {
    [e.magic[0], e.magic[1], e.magic[2], e.magic[3],
     e.disk.b0, e.disk.b1,
     e.diskCd.b0, e.diskCd.b1,
     e.diskEntries.b0, e.diskEntries.b1,
     e.totalEntries.b0, e.totalEntries.b1,
     e.directorySize.b0, e.directorySize.b1, e.directorySize.b2, e.directorySize.b3,
     e.directoryOffset.b0, e.directoryOffset.b1, e.directoryOffset.b2, e.directoryOffset.b3,
     e.commentLength.b0, e.commentLength.b1]
  }

  /** Reading back a written local header gives the same header. */
  lemma ReadFileHeaderBytes(h: FileHeader)
    ensures ReadFileHeader(FileHeaderBytes(h), 0) == h
  {
    FileHeaderOffsets(h);
    FileHeaderSizeOffsets(h);
    FileHeaderDateOffsets(h);
  }

  /** A header is read from its own 30 bytes only. */
  lemma ReadFileHeaderLocal(s: bytes, off: nat)
    requires off + FILE_HEADER_SIZE <= |s|
    ensures ReadFileHeader(s, off) == ReadFileHeader(s[off..off + FILE_HEADER_SIZE], 0)
  {
    var t := s[off..off + FILE_HEADER_SIZE];
    assert forall k :: 0 <= k < FILE_HEADER_SIZE ==> t[k] == s[off + k];
    assert t[0..4] == s[off..off + 4];
  }

  /** Reading at `off` a header written there gives it back. */
  lemma ReadFileHeaderAt(s: bytes, off: nat, h: FileHeader)
    requires off + FILE_HEADER_SIZE <= |s| && s[off..off + FILE_HEADER_SIZE] == FileHeaderBytes(h)
    ensures ReadFileHeader(s, off) == h
  {
    ReadFileHeaderLocal(s, off);
    ReadFileHeaderBytes(h);
  }

  /** Writing a header read from any 30 bytes reproduces those bytes: the
      record is a bijection on 30-byte strings. */
  lemma FileHeaderBytesRead(s: bytes, off: nat)
    requires off + FILE_HEADER_SIZE <= |s|
    ensures FileHeaderBytes(ReadFileHeader(s, off)) == s[off..off + FILE_HEADER_SIZE]
  {
  }

  /** The local-header field offsets of APPNOTE 4.3.7: signature at 0,
      method at 8, name length at 26, extra length at 28. */
  lemma FileHeaderOffsets(h: FileHeader)
    ensures var s := FileHeaderBytes(h);
      && s[0..4] == h.magic
      && ReadLE16(s, 8) == h.compressionMethod
      && ReadLE16(s, 26) == h.nameLength
      && ReadLE16(s, 28) == h.extraLength
  {
  }

  /** The local-header field offsets of APPNOTE 4.3.7: versions at 4 and 5,
      flags at 6, time and date at 10 and 12. */
  lemma FileHeaderDateOffsets(h: FileHeader)
    ensures var s := FileHeaderBytes(h);
      && ReadLE16(s, 6) == h.flags
      && ReadLE16(s, 10) == h.time
      && ReadLE16(s, 12) == h.date
  {
  }

  /** The local-header field offsets of APPNOTE 4.3.7: crc at 14, sizes at
      18 and 22. */
  lemma FileHeaderSizeOffsets(h: FileHeader)
    ensures var s := FileHeaderBytes(h);
      && ReadLE32(s, 14) == h.crc
      && ReadLE32(s, 18) == h.compressedSize
      && ReadLE32(s, 22) == h.uncompressedSize
  {
  }

  /** The default local header: "PK\3\4", version 20, method 8, and zero in
      every other byte. */
  lemma DefaultFileHeaderImage()
    ensures FileHeaderBytes(DefaultFileHeader())
         == LOCAL_MAGIC + [20, 0, 0, 0, 8, 0] + seq(20, _ => 0)
  {
  }

  /** The image of a converted directory entry: "PK\1\2", version 0x031e,
      version needed 0x0014, the header's method, crc, sizes and name length
      at the offsets of APPNOTE 4.3.12, internal attributes 1, external
      attributes 0644 << 16, local header offset 0, zero elsewhere. */
  lemma DirectoryEntryImage(src: FileHeader)
    ensures DirectoryEntryBytes(DirectoryEntryFrom(src))
         == DIRECTORY_MAGIC +
            [0x1e, 0x03, 0x14, 0x00, 0, 0,
             src.compressionMethod.b0, src.compressionMethod.b1, 0, 0, 0, 0,
             src.crc.b0, src.crc.b1, src.crc.b2, src.crc.b3,
             src.compressedSize.b0, src.compressedSize.b1,
             src.compressedSize.b2, src.compressedSize.b3,
             src.uncompressedSize.b0, src.uncompressedSize.b1,
             src.uncompressedSize.b2, src.uncompressedSize.b3,
             src.nameLength.b0, src.nameLength.b1,
             0, 0, 0, 0, 0, 0, 0x01, 0x00, 0x00, 0x00, 0xA4, 0x01, 0, 0, 0, 0]
  {
  }

  /** A directory entry starts with its signature. */
  lemma DirectoryEntryMagic(e: DirectoryEntry)
    ensures DirectoryEntryBytes(e)[..4] == e.magic
  {
  }

  /** The default end record: "PK\5\6" and zero everywhere else. */
  lemma DefaultDirectoryEndImage()
    ensures DirectoryEndBytes(DefaultDirectoryEnd()) == END_MAGIC + seq(18, _ => 0)
  {
  }
}
