/** `ZendArchiveFile::LoadScript` and `ZendArchive::LoadScript`: copying one
    archived bytecode file into shared memory and registering the script it
    holds. The allocator, the unserializer, the checksum and the hash table
    are the accelerator's; here they are oracles around the gate and lock
    discipline of the loader. */
module ArchiveLoader {
  import opened Wrappers
  import opened Bytes
  import opened ZipIndex

  /** `sizeof(zend_file_cache_metainfo)` on LP64: 8 bytes of magic, 32 of
      system id, four 8-byte fields and a 4-byte checksum, padded to 80. */
  const METAINFO_SIZE: nat := 80
  /** `offsetof(zend_file_cache_metainfo, mem_size)` */
  const MEM_SIZE_AT: nat := 40
  /** `offsetof(zend_file_cache_metainfo, script_offset)` */
  const SCRIPT_OFFSET_AT: nat := 56

  /** The two metainfo fields the loader uses. The magic, the system id,
      `str_size`, the timestamp and the checksum are never looked at. */
  datatype Metainfo = Metainfo(memSize: nat, scriptOffset: nat)

  /** The metainfo record at the start of an archived file. */
  function ReadMetainfo(m: bytes, at: nat): (info: Metainfo)
    requires at + METAINFO_SIZE <= |m|
  {
    Metainfo(UintLE(m[at + MEM_SIZE_AT..at + MEM_SIZE_AT + 8]),
             UintLE(m[at + SCRIPT_OFFSET_AT..at + SCRIPT_OFFSET_AT + 8]))
  }

  /** The bytes after the metainfo that `memcpy` copies to shared memory
      lie inside the mapping. Nothing in the loader checks this (neither
      the entry's size nor the metainfo); reading past the mapping is
      undefined behaviour, so the model demands it of the archive. */
  ghost predicate Readable(m: bytes, at: nat)
  {
    at + METAINFO_SIZE <= |m| && at + METAINFO_SIZE + ReadMetainfo(m, at).memSize <= |m|
  }

  /** The copied bytecode: `mem_size` bytes after the metainfo. */
  function Payload(m: bytes, at: nat): (p: bytes)
    requires Readable(m, at)
    ensures |p| == ReadMetainfo(m, at).memSize
  {
    m[at + METAINFO_SIZE..at + METAINFO_SIZE + ReadMetainfo(m, at).memSize]
  }

  /** A `zend_persistent_script`, reduced to what the loader touches. */
  datatype Script = Script(filename: bytes, corrupted: bool, checksum: uint32, lastUsed: int)

  /** What the foreign code does or answers:
      `readLockOk` is `accelerator_shm_read_lock() == SUCCESS`,
      `allocOk` whether `zend_shared_alloc_aligned` returns memory,
      `unserialize` is `zend_file_cache_unserialize` on the copied buffer
      and the script offset (`None` where it bails out),
      `checksum` is `zend_accel_script_checksum`, `requestTime` is
      `ZCG(request_time)`. */
  datatype Oracles = Oracles(readLockOk: bool, allocOk: bool,
                             unserialize: (bytes, nat) -> Option<Script>,
                             checksum: Script -> uint32, requestTime: int)

  /** The script a successful load registers: the unserialized one, marked
      not corrupted, with a fresh checksum and last-use time. */
  function Finished(s: Script, o: Oracles): (r: Script)
    ensures r.filename == s.filename && !r.corrupted && r.lastUsed == o.requestTime
  {
    var clean := s.(corrupted := false);
    clean.(checksum := o.checksum(clean), lastUsed := o.requestTime)
  }

  /** The script `ZendArchiveFile::LoadScript` returns once past the gate
      and the allocation. */
  function Unserialized(m: bytes, at: nat, o: Oracles): Option<Script>
    requires Readable(m, at)
  {
    match o.unserialize(Payload(m, at), ReadMetainfo(m, at).scriptOffset)
    case None => None
    case Some(s) => Some(Finished(s, o))
  }

  /** The accelerator's shared and per-process state the loader reads and
      writes (`ZCSG`, `ZSMMG`, `ZCG`). */
  class Accelerator {
    /** `ZCSG(restart_in_progress)` */
    var restartInProgress: bool
    /** `ZSMMG(memory_exhausted)` */
    var memoryExhausted: bool
    /** The shared-memory read lock is held. */
    var readLocked: bool
    /** `zend_shared_alloc_lock()` is held. */
    var allocLocked: bool
    /** An out-of-memory restart was scheduled. */
    var restartScheduled: bool
    /** Bytes handed out by the shared allocator. */
    var used: nat
    /** `ZCG(mem)`, as an offset into the mapping. */
    var mem: nat
    /** `ZCSG(hash)`: scripts by file name. */
    var hash: map<bytes, Script>

    constructor (restartInProgress: bool, memoryExhausted: bool, hash: map<bytes, Script>)
      ensures this.restartInProgress == restartInProgress && this.memoryExhausted == memoryExhausted
      ensures this.hash == hash && !readLocked && !allocLocked && !restartScheduled && used == 0 && mem == 0
    {
      this.restartInProgress := restartInProgress;
      this.memoryExhausted := memoryExhausted;
      this.hash := hash;
      readLocked := false;
      allocLocked := false;
      restartScheduled := false;
      used := 0;
      mem := 0;
    }

    /** The loader may go ahead: no restart, memory left, read lock taken. */
    predicate Open(o: Oracles)
      reads this
    {
      !restartInProgress && !memoryExhausted && o.readLockOk
    }

    /** `zend_shared_alloc_lock()`; the lock is not recursive. */
    method Lock()
      requires !allocLocked
      modifies this
      ensures allocLocked
      ensures restartInProgress == old(restartInProgress) && memoryExhausted == old(memoryExhausted)
      ensures readLocked == old(readLocked) && restartScheduled == old(restartScheduled)
      ensures used == old(used) && mem == old(mem) && hash == old(hash)
    {
      allocLocked := true;
    }

    /** `zend_shared_alloc_unlock()` */
    method Unlock()
      requires allocLocked
      modifies this
      ensures !allocLocked
      ensures restartInProgress == old(restartInProgress) && memoryExhausted == old(memoryExhausted)
      ensures readLocked == old(readLocked) && restartScheduled == old(restartScheduled)
      ensures used == old(used) && mem == old(mem) && hash == old(hash)
    {
      allocLocked := false;
    }
  }

  /** `ZendArchiveFile::LoadScript`: the file's bytes start at `at` in the
      mapping `m`. `scriptPath` is accepted and never used: the script is
      registered under the file name stored in the payload. The entry's
      size is never consulted either.
      Every path that takes the allocation lock releases it; nothing but a
      successful load touches the hash; a failed allocation schedules a
      restart; memory allocated before a failed unserialize stays used. */
  method LoadFile(acc: Accelerator, m: bytes, at: nat, scriptPath: bytes, o: Oracles)
    returns (r: Option<Script>)
    requires !acc.allocLocked
    requires acc.Open(o) ==> Readable(m, at)
    modifies acc
    ensures !acc.allocLocked
    ensures acc.restartInProgress == old(acc.restartInProgress) && acc.memoryExhausted == old(acc.memoryExhausted)
    ensures !old(acc.Open(o)) ==> r == None && acc.hash == old(acc.hash) && acc.used == old(acc.used)
    ensures !old(acc.Open(o)) ==> acc.readLocked == old(acc.readLocked) && acc.mem == old(acc.mem)
    ensures old(acc.Open(o)) ==> acc.readLocked && acc.mem == at + METAINFO_SIZE + ReadMetainfo(m, at).memSize
    ensures old(acc.Open(o)) ==> acc.used == old(acc.used) + (if o.allocOk then ReadMetainfo(m, at).memSize else 0)
    ensures acc.restartScheduled == (old(acc.restartScheduled) || (old(acc.Open(o)) && !o.allocOk))
    ensures r.Some? <==> old(acc.Open(o)) && o.allocOk && Unserialized(m, at, o).Some?
    ensures r.Some? ==> r == Unserialized(m, at, o) && acc.hash == old(acc.hash)[r.value.filename := r.value]
    ensures r.None? ==> acc.hash == old(acc.hash)
  {
    if acc.restartInProgress || acc.memoryExhausted || !o.readLockOk {
      return None;
    }
    acc.readLocked := true;

    var info := ReadMetainfo(m, at);
    acc.mem := at + METAINFO_SIZE + info.memSize;

    acc.Lock();

    if !o.allocOk {
      acc.restartScheduled := true;
      acc.Unlock();
      return None;
    }
    acc.used := acc.used + info.memSize;
    var buf := m[at + METAINFO_SIZE..at + METAINFO_SIZE + info.memSize];

    var script := o.unserialize(buf, info.scriptOffset);
    if script.None? {
      acc.Unlock();
      return None;
    }

    var loaded := Finished(script.value, o);
    acc.hash := acc.hash[loaded.filename := loaded];
    acc.Unlock();
    return Some(loaded);
  }

  /** `ZendArchive::LoadScript`: a file the index does not hold is a miss
      and changes nothing; otherwise the file is loaded. */
  method LoadMember(acc: Accelerator, archive: ZendArchive, scriptPath: bytes, filename: bytes, o: Oracles)
    returns (r: Option<Script>)
    requires !acc.allocLocked
    requires filename in archive.files && acc.Open(o) ==> Readable(archive.mapping, archive.files[filename].offset)
    modifies acc
    ensures !acc.allocLocked
    ensures filename !in archive.files ==> r == None && acc.hash == old(acc.hash) && acc.used == old(acc.used)
    ensures filename !in archive.files ==> acc.restartScheduled == old(acc.restartScheduled)
    ensures r.Some? ==> filename in archive.files && old(acc.Open(o))
    ensures r.Some? ==> r == Unserialized(archive.mapping, archive.files[filename].offset, o)
    ensures r.Some? ==> acc.hash == old(acc.hash)[r.value.filename := r.value]
    ensures r.None? ==> acc.hash == old(acc.hash)
  {
    var file := archive.Find(filename);
    if file.None? {
      return None;
    }
    r := LoadFile(acc, archive.mapping, file.value.offset, scriptPath, o);
  }

  /** The metainfo's magic and system id are never checked: two files
      that differ only in their first 40 bytes load the same script. */
  lemma MagicNeverChecked(m: bytes, n: bytes, at: nat, o: Oracles)
    requires |m| == |n| && at + METAINFO_SIZE <= |m|
    requires forall i :: 0 <= i < |m| && !(at <= i < at + MEM_SIZE_AT) ==> m[i] == n[i]
    ensures Readable(m, at) <==> Readable(n, at)
    ensures Readable(m, at) ==> Unserialized(m, at, o) == Unserialized(n, at, o)
  {
    assert m[at + MEM_SIZE_AT..at + MEM_SIZE_AT + 8] == n[at + MEM_SIZE_AT..at + MEM_SIZE_AT + 8];
    assert m[at + SCRIPT_OFFSET_AT..at + SCRIPT_OFFSET_AT + 8] == n[at + SCRIPT_OFFSET_AT..at + SCRIPT_OFFSET_AT + 8];
    if Readable(m, at) {
      assert Payload(m, at) == Payload(n, at);
    }
  }
}
