// The index a `ZendArchive` builds over a memory-mapped archive: one forward
// walk over the local headers, stopping silently at the first anomaly.

module ZipIndex {
  import opened Wrappers
  import opened Bytes
  import opened LittleEndian
  import opened ZipFormat

  /** `ZendArchiveFile`: where a member's body lies in the mapping. */
  datatype FileRef = FileRef(offset: nat, size: nat)

  /** A local header the walk accepted, the name after it, and where its
      body starts. */
  datatype Member = Member(header: FileHeader, name: bytes, dataOffset: nat)
  {
    function Size(): nat
    {
      header.uncompressedSize.Value()
    }

    /** `compression_method == 0`. */
    predicate Stored()
    {
      header.compressionMethod.Value() == METHOD_STORED
    }

    function Ref(): FileRef
    {
      FileRef(dataOffset, Size())
    }

    function End(): nat
    {
      dataOffset + Size()
    }
  }

  /** `ZendArchive`: the mapping and the files found in it. */
  datatype ZendArchive = ZendArchive(mapping: bytes, files: map<bytes, FileRef>)
  {
    /** The lookup of `ZendArchive::LoadScript`. */
    function Find(filename: bytes): (r: Option<FileRef>)
      ensures r.Some? <==> filename in files
      ensures r.Some? ==> r.value == files[filename]
    {
      if filename in files then Some(files[filename]) else None
    }
  }

  /** ".bin" */
  const BIN_SUFFIX: bytes := [0x2E, 0x62, 0x69, 0x6E]

  /** An `uncompressed_size` the walk refuses. */
  const NO_SIZE: nat := 0xFFFF_FFFF

  /** The member whose header starts at `i`, or `None` where the walk stops:
      the header would overrun the mapping, has the wrong signature or the
      size 0xffffffff, or the name, extra field or body would overrun. An
      exact fit at the end is accepted. */
  function Step(m: bytes, i: nat): (r: Option<Member>)
    ensures r.Some? ==> i + FILE_HEADER_SIZE <= r.value.dataOffset <= r.value.End() <= |m|
  {
    if i + FILE_HEADER_SIZE > |m| then None
    else
      var h := ReadFileHeader(m, i);
      var nameStart := i + FILE_HEADER_SIZE;
      var dataOffset := nameStart + h.nameLength.Value() + h.extraLength.Value();
      if h.magic != LOCAL_MAGIC || h.uncompressedSize.Value() == NO_SIZE then None
      else if dataOffset > |m| then None
      else if dataOffset + h.uncompressedSize.Value() > |m| then None
      else Some(Member(h, m[nameStart..nameStart + h.nameLength.Value()], dataOffset))
  }

  /** The members the walk visits from offset `i`, in order. */
  function Members(m: bytes, i: nat): seq<Member>
    decreases |m| - i
  {
    match Step(m, i)
    case None => []
    case Some(member) => [member] + Members(m, member.End())
  }

  /** A name longer than four bytes loses a trailing ".bin". */
  function StripBin(name: bytes): (r: bytes)
    ensures r == name || (|name| > 4 && r + BIN_SUFFIX == name)
    ensures |name| <= 4 || name[|name| - 4..] != BIN_SUFFIX ==> r == name
  {
    if |name| > 4 && name[|name| - 4..] == BIN_SUFFIX then name[..|name| - 4] else name
  }

  /** `std::unordered_map::try_emplace`: an existing key keeps its value. */
  function TryEmplace(files: map<bytes, FileRef>, key: bytes, ref: FileRef): (r: map<bytes, FileRef>)
    ensures key in r && r[key] == (if key in files then files[key] else ref)
    ensures r.Keys == files.Keys + {key}
    ensures forall k :: k in files ==> k in r && r[k] == files[k]
  {
    if key in files then files else files[key := ref]
  }

  /** The index key of a member. */
  function Key(member: Member): bytes
  {
    StripBin(member.name)
  }

  /** Adds the stored members, in order, to `files`. */
  function Insert(files: map<bytes, FileRef>, ms: seq<Member>): map<bytes, FileRef>
    decreases |ms|
  {
    if |ms| == 0 then files
    else Insert(if ms[0].Stored() then TryEmplace(files, Key(ms[0]), ms[0].Ref()) else files, ms[1..])
  }

  /** The `files` map of a `ZendArchive` over the mapping `m`. */
  function Index(m: bytes): map<bytes, FileRef>
  {
    Insert(map[], Members(m, 0))
  }

  /** The constructor `ZendArchive(data, size)`: walks the local headers
      one `Step` at a time, indexing the stored members under their names
      without ".bin"; the first member with a name wins. */
  method OpenArchive(data: bytes) returns (a: ZendArchive)
    ensures a.mapping == data && a.files == Index(data)
  {
    var files: map<bytes, FileRef> := map[];
    var i: nat := 0;
    while true
      invariant i <= |data|
      invariant Insert(files, Members(data, i)) == Index(data)
      decreases |data| - i
    {
      var member := Step(data, i);
      if member.None? {
        break;
      }
      MembersStep(data, i, files);
      if member.value.Stored() {
        files := TryEmplace(files, StripBin(member.value.name), member.value.Ref());
      }
      i := member.value.End();
    }
    return ZendArchive(data, files);
  }

  /** One step of the walk. */
  lemma MembersStep(m: bytes, i: nat, files: map<bytes, FileRef>)
    requires Step(m, i).Some?
    ensures var member := Step(m, i).value;
      Insert(files, Members(m, i))
      == Insert(if member.Stored() then TryEmplace(files, Key(member), member.Ref()) else files, Members(m, member.End()))
  {
    var member := Step(m, i).value;
    assert Members(m, i)[1..] == Members(m, member.End());
  }

  /** A member the walk accepts is followed by the walk from its end. */
  lemma MembersCons(m: bytes, i: nat, member: Member)
    requires Step(m, i) == Some(member)
    ensures Members(m, i) == [member] + Members(m, member.End())
  {
  }

  // ---------------------------------------------------------------------
  // Properties of the walk

  /** Every member the walk visits lies inside the mapping, after `i`. */
  lemma {:induction false} MembersInBounds(m: bytes, i: nat)
    ensures forall j :: 0 <= j < |Members(m, i)| ==>
      i + FILE_HEADER_SIZE <= Members(m, i)[j].dataOffset && Members(m, i)[j].End() <= |m|
    decreases |m| - i
  {
    match Step(m, i)
    case None =>
    case Some(member) =>
      MembersInBounds(m, member.End());
  }

  /** Every entry of `files` lies inside a mapping of `n` bytes. */
  ghost predicate Within(files: map<bytes, FileRef>, n: nat)
  {
    forall k :: k in files ==> files[k].offset + files[k].size <= n
  }

  lemma {:induction false} InsertWithin(files: map<bytes, FileRef>, ms: seq<Member>, n: nat)
    requires Within(files, n)
    requires forall j :: 0 <= j < |ms| ==> ms[j].End() <= n
    ensures Within(Insert(files, ms), n)
    decreases |ms|
  {
    if |ms| > 0 {
      var next := if ms[0].Stored() then TryEmplace(files, Key(ms[0]), ms[0].Ref()) else files;
      assert Within(next, n);
      InsertWithin(next, ms[1..], n);
    }
  }

  /** Every indexed body lies wholly inside the mapping. */
  lemma IndexWithin(m: bytes)
    ensures forall k :: k in Index(m) ==> Index(m)[k].offset + Index(m)[k].size <= |m|
  {
    MembersInBounds(m, 0);
    InsertWithin(map[], Members(m, 0), |m|);
  }

  /** The first stored member with key `k`, if any. */
  function FirstRef(ms: seq<Member>, k: bytes): Option<FileRef>
    decreases |ms|
  {
    if |ms| == 0 then None
    else if ms[0].Stored() && Key(ms[0]) == k then Some(ms[0].Ref())
    else FirstRef(ms[1..], k)
  }

  /** `map::find` as an option. */
  function Get(files: map<bytes, FileRef>, k: bytes): (r: Option<FileRef>)
    ensures r.Some? <==> k in files
  {
    if k in files then Some(files[k]) else None
  }

  /** Inserting keeps what was there and otherwise takes the first stored
      member with the key: earlier entries are never replaced. */
  lemma {:induction false} InsertLookup(files: map<bytes, FileRef>, ms: seq<Member>, k: bytes)
    ensures Get(Insert(files, ms), k) == if k in files then Some(files[k]) else FirstRef(ms, k)
    decreases |ms|
  {
    if |ms| > 0 {
      var next := if ms[0].Stored() then TryEmplace(files, Key(ms[0]), ms[0].Ref()) else files;
      InsertLookup(next, ms[1..], k);
    }
  }

  /** Whatever was indexed before stays indexed, with the same value. */
  lemma InsertKeeps(files: map<bytes, FileRef>, ms: seq<Member>)
    ensures forall k :: k in files ==> k in Insert(files, ms) && Insert(files, ms)[k] == files[k]
  {
    forall k | k in files
      ensures k in Insert(files, ms) && Insert(files, ms)[k] == files[k]
    {
      InsertLookup(files, ms, k);
    }
  }

  /** The index maps each key to the first stored member with that key,
      and holds no other key. */
  lemma IndexLookup(m: bytes, k: bytes)
    ensures Get(Index(m), k) == FirstRef(Members(m, 0), k)
  {
    InsertLookup(map[], Members(m, 0), k);
  }

  /** Members that are not stored are skipped, and the walk goes on past
      them. */
  lemma SkipsUnstored(m: bytes, i: nat, k: bytes)
    requires Step(m, i).Some? && !Step(m, i).value.Stored()
    ensures FirstRef(Members(m, i), k) == FirstRef(Members(m, Step(m, i).value.End()), k)
  {
    var ms := Members(m, i);
    assert ms[1..] == Members(m, Step(m, i).value.End());
  }

  /** ".bin" comes off a longer name, and nothing else is changed. */
  lemma StripBinSuffix(name: bytes)
    requires |name| > 0
    ensures StripBin(name + BIN_SUFFIX) == name
  {
    assert (name + BIN_SUFFIX)[|name + BIN_SUFFIX| - 4..] == BIN_SUFFIX;
    assert (name + BIN_SUFFIX)[..|name|] == name;
  }

  /** A name that is exactly ".bin" is kept. */
  lemma StripBinKeepsBareSuffix()
    ensures StripBin(BIN_SUFFIX) == BIN_SUFFIX
  {
  }

  /** The bytes a file reference points at, if it lies inside `m`. */
  function Fetch(m: bytes, r: Option<FileRef>): (body: Option<bytes>)
    ensures body.Some? ==> r.Some? && |body.value| == r.value.size
  {
    match r
    case None => None
    case Some(ref) => if ref.offset + ref.size <= |m| then Some(m[ref.offset..ref.offset + ref.size]) else None
  }

  /** The bytes the index of `m` hands to the loader for `filename`. */
  function Load(m: bytes, filename: bytes): Option<bytes>
  {
    Fetch(m, Get(Index(m), filename))
  }
}
