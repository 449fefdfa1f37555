/** `ZendZipCache`: the archives found in document directories, ordered by
    directory path, and the lookup that maps a script path to the archive
    of its nearest directory. */
module ZipCache {
  import opened Wrappers
  import opened Bytes
  import opened LexOrder
  import opened ZipIndex
  import opened Precompile
  import opened ArchiveLoader

  /** '/' */
  const SLASH: uint8 := 0x2F
  /** The largest archive `zend_archive_open` maps: 1 GiB. */
  const MAX_ARCHIVE_SIZE: nat := 1024 * 1024 * 1024
  /** `sizeof(PREFIX) - 1 + 1 + 32 + sizeof(SUFFIX)`: what the zip path adds
      to the directory path, its NUL included. */
  const ZIP_PATH_EXTRA: nat := 46

  // ---------------------------------------------------------------------
  // The archive's path

  /** The buffer `get_zend_zip_path` fills: the directory, '/', "opcache-",
      all 32 bytes of the system id, ".zip" and a NUL. */
  function ZipPath(path: bytes, id: SystemId): (r: bytes)
    ensures |r| == |path| + ZIP_PATH_EXTRA
    ensures r[..|path|] == path && r[|path|] == SLASH && r[|r| - 1] == 0
  {
    path + [SLASH] + ZIP_PREFIX + id + ZIP_SUFFIX + [0]
  }

  /** `get_zend_zip_path`: a buffer of exactly `|path| + 46` bytes, filled
      completely. */
  method GetZendZipPath(path: bytes, id: SystemId) returns (buf: array<uint8>)
    ensures fresh(buf)
    ensures buf.Length == |path| + ZIP_PATH_EXTRA
    ensures buf[..] == ZipPath(path, id)
  {
    buf := new uint8[|path| + ZIP_PATH_EXTRA];
    var p := CopyInto(buf, 0, path);
    assert buf[..p] == path;
    buf[p] := SLASH;
    assert buf[..p + 1] == path + [SLASH];
    p := p + 1;
    p := CopyInto(buf, p, ZIP_PREFIX);
    p := CopyInto(buf, p, id);
    p := CopyInto(buf, p, ZIP_SUFFIX + [0]);
    assert buf[..] == buf[..p];
  }

  /** The C string of `x` followed by a NUL (or by nothing) is `x`. */
  lemma UntilNulStops(x: bytes, rest: bytes)
    requires NoNul(x)
    requires |rest| > 0 ==> rest[0] == 0
    ensures UntilNul(x + rest) == x
  {
    assert (x + rest)[..|x|] == x;
  }

  /** The file the loader opens is the file the builder publishes: with no
      NUL in the directory path or the system id, the path `open` sees is
      the directory, '/', and `ZipFileName(id)`. */
  lemma ZipPathIsPublishedName(path: bytes, id: SystemId)
    requires NoNul(path) && NoNul(id)
    ensures UntilNul(ZipPath(path, id)) == path + [SLASH] + ZipFileName(id)
  {
    assert id + [] == id;
    UntilNulStops(id, []);
    var name := ZipFileName(id);
    assert NoNul(name) by {
      NoNulJoin(ZIP_PREFIX, id);
      NoNulJoin(ZIP_PREFIX + id, ZIP_SUFFIX);
    }
    NoNulJoin(path + [SLASH], name);
    assert path + [SLASH] + ZIP_PREFIX + id + ZIP_SUFFIX == path + [SLASH] + name;
    UntilNulStops(path + [SLASH] + name, [0]);
  }

  // ---------------------------------------------------------------------
  // Opening an archive

  /** What `fstat` says about a file that `open` found: a regular file and
      its contents, or anything else (a failing `fstat` included). */
  datatype Node = Regular(content: bytes) | Special

  /** The bytes `zend_archive_open` maps for the directory `path`, or `None`:
      `fs` maps the paths `open` can open to what they are, `mmapOk` is
      whether `mmap` succeeds. */
  function Mapped(fs: map<bytes, Node>, path: bytes, id: SystemId, mmapOk: bool): (r: Option<bytes>)
    ensures r.Some? ==> 0 < |r.value| <= MAX_ARCHIVE_SIZE
  {
    var name := UntilNul(ZipPath(path, id));
    if name !in fs then None
    else match fs[name]
      case Special => None
      case Regular(content) =>
        if |content| <= 0 || |content| > MAX_ARCHIVE_SIZE || !mmapOk then None else Some(content)
  }

  /** `zend_archive_open`: an archive over the mapped file, or `None` when
      the file cannot be opened, is not a regular file, is empty or larger
      than 1 GiB, or cannot be mapped. */
  method ArchiveOpen(fs: map<bytes, Node>, path: bytes, id: SystemId, mmapOk: bool)
    returns (r: Option<ZendArchive>)
    ensures r.None? <==> Mapped(fs, path, id, mmapOk).None?
    ensures r.Some? ==> r.value.mapping == Mapped(fs, path, id, mmapOk).value
    ensures r.Some? ==> r.value.files == Index(r.value.mapping)
  {
    var buf := GetZendZipPath(path, id);
    var name := UntilNul(buf[..]);
    if name !in fs {
      return None;
    }
    match fs[name]
    case Special =>
      return None;
    case Regular(content) =>
      if |content| <= 0 || |content| > MAX_ARCHIVE_SIZE {
        return None;
      }
      if !mmapOk {
        return None;
      }
      var archive := OpenArchive(content);
      return Some(archive);
  }

  // ---------------------------------------------------------------------
  // The map of archives

  /** One element of `archives`: a directory and its archive. */
  datatype Slot = Slot(path: bytes, archive: ZendArchive)

  /** `std::map` keeps its keys strictly ascending. */
  ghost predicate Sorted(slots: seq<Slot>)
  {
    forall i, j :: 0 <= i < j < |slots| ==> Less(slots[i].path, slots[j].path)
  }

  lemma SortedTail(slots: seq<Slot>)
    requires Sorted(slots) && |slots| > 0
    ensures Sorted(slots[1..])
  {
    assert forall i :: 0 <= i < |slots| - 1 ==> slots[1..][i] == slots[i + 1];
  }

  /** `map::find`. */
  function Get(slots: seq<Slot>, path: bytes): (r: Option<ZendArchive>)
    ensures r.Some? <==> exists i :: 0 <= i < |slots| && slots[i].path == path
  {
    if |slots| == 0 then None
    else if slots[0].path == path then Some(slots[0].archive)
    else
      var r := Get(slots[1..], path);
      assert forall i :: 0 < i < |slots| ==> slots[i] == slots[1..][i - 1];
      r
  }

  /** `map::try_emplace`: a new directory goes in its place in the order;
      a directory already present keeps the archive it has. */
  function Emplace(slots: seq<Slot>, path: bytes, archive: ZendArchive): (r: seq<Slot>)
    ensures |r| == |slots| || |r| == |slots| + 1
    ensures forall s :: s in r ==> s in slots || s == Slot(path, archive)
  {
    if |slots| == 0 then [Slot(path, archive)]
    else if slots[0].path == path then slots
    else if Less(path, slots[0].path) then [Slot(path, archive)] + slots
    else [slots[0]] + Emplace(slots[1..], path, archive)
  }

  /** Emplacing keeps the keys in order. */
  lemma {:induction false} EmplaceSorted(slots: seq<Slot>, path: bytes, archive: ZendArchive)
    requires Sorted(slots)
    ensures Sorted(Emplace(slots, path, archive))
    decreases |slots|
  {
    if |slots| == 0 || slots[0].path == path {
    } else if Less(path, slots[0].path) {
      var r := [Slot(path, archive)] + slots;
      forall i, j | 0 <= i < j < |r|
        ensures Less(r[i].path, r[j].path)
      {
        if i == 0 && j > 1 {
          LessTransitive(path, slots[0].path, slots[j - 1].path);
        }
      }
    } else {
      LessTotal(path, slots[0].path);
      var tail := Emplace(slots[1..], path, archive);
      EmplaceSorted(slots[1..], path, archive);
      var r := [slots[0]] + tail;
      forall i, j | 0 <= i < j < |r|
        ensures Less(r[i].path, r[j].path)
      {
        if i == 0 {
          assert r[j] in tail;
          if r[j] != Slot(path, archive) {
            var k :| 0 <= k < |slots[1..]| && slots[1..][k] == r[j];
            assert slots[k + 1] == r[j];
          }
        } else {
          assert r[i] == tail[i - 1] && r[j] == tail[j - 1];
        }
      }
    }
  }

  /** `try_emplace` on a directory that is already present changes
      nothing: the archive already there stays, the new one is dropped. */
  lemma {:induction false} EmplacePresent(slots: seq<Slot>, i: nat, archive: ZendArchive)
    requires Sorted(slots) && i < |slots|
    ensures Emplace(slots, slots[i].path, archive) == slots
    decreases i
  {
    var path := slots[i].path;
    if i > 0 {
      LessAsymmetric(slots[0].path, path);
      SortedTail(slots);
      assert slots[1..][i - 1] == slots[i];
      EmplacePresent(slots[1..], i - 1, archive);
      assert [slots[0]] + slots[1..] == slots;
    }
  }

  /** After `try_emplace` the directory maps to its old archive if it had
      one and to the new one otherwise; every other directory is unchanged. */
  lemma {:induction false} EmplaceGet(slots: seq<Slot>, path: bytes, archive: ZendArchive, k: bytes)
    requires Sorted(slots)
    ensures Get(Emplace(slots, path, archive), k)
      == if k == path && Get(slots, path).None? then Some(archive) else Get(slots, k)
    decreases |slots|
  {
    if |slots| > 0 && slots[0].path != path && !Less(path, slots[0].path) {
      EmplaceGet(slots[1..], path, archive, k);
      var r := [slots[0]] + Emplace(slots[1..], path, archive);
      assert r[1..] == Emplace(slots[1..], path, archive);
    } else if |slots| > 0 && slots[0].path != path {
      var r := [Slot(path, archive)] + slots;
      assert r[1..] == slots;
      if Get(slots, path).Some? {
        var i :| 0 <= i < |slots| && slots[i].path == path;
        if i > 0 {
          LessTransitive(path, slots[0].path, slots[i].path);
        }
        LessIrreflexive(path);
      }
    }
  }

  /** `map::lower_bound`: the number of keys before `path`. */
  function LowerBound(slots: seq<Slot>, path: bytes): (n: nat)
    ensures n <= |slots|
    ensures forall i :: 0 <= i < n ==> Less(slots[i].path, path)
    ensures n < |slots| ==> !Less(slots[n].path, path)
  {
    if |slots| == 0 || !Less(slots[0].path, path) then 0
    else
      var n := 1 + LowerBound(slots[1..], path);
      assert forall i :: 0 < i < n ==> slots[i] == slots[1..][i - 1];
      n
  }

  /** In a sorted map no key from the lower bound on sorts before `path`:
      the lookup sees exactly the keys less than the path. */
  lemma LowerBoundSplits(slots: seq<Slot>, path: bytes)
    requires Sorted(slots)
    ensures forall i :: LowerBound(slots, path) <= i < |slots| ==> !Less(slots[i].path, path)
  {
    var n := LowerBound(slots, path);
    forall i | n <= i < |slots|
      ensures !Less(slots[i].path, path)
    {
      if i > n && Less(slots[i].path, path) {
        LessTransitive(slots[n].path, slots[i].path, path);
      }
    }
  }

  // ---------------------------------------------------------------------
  // The directory lookup

  /** The archive a lookup queries and the file name it asks for. */
  datatype Target = Target(archive: ZendArchive, filename: bytes)

  /** `key` names a directory `path` lies in: a proper prefix followed by '/'. */
  predicate Child(key: bytes, path: bytes)
  {
    StrictPrefix(key, path) && path[|key|] == SLASH
  }

  /** The target the directory `s.path` gives for `path`. */
  function TargetOf(s: Slot, path: bytes): (t: Target)
    requires Child(s.path, path)
    ensures path == s.path + [SLASH] + t.filename
  {
    Target(s.archive, path[|s.path| + 1..])
  }

  /** The backward walk of `ZendZipCache::LoadScript` over the slots below
      `i`: it gives up at the first key that is not a proper prefix of the
      path, passes over prefixes not followed by '/', and stops at the
      first one that is. */
  function Scan(slots: seq<Slot>, path: bytes, i: nat): (r: Option<Target>)
    requires i <= |slots|
    decreases i
  {
    if i == 0 then None
    else if !StrictPrefix(slots[i - 1].path, path) then None
    else if Child(slots[i - 1].path, path) then Some(TargetOf(slots[i - 1], path))
    else Scan(slots, path, i - 1)
  }

  /** Every key in `slots[j+1..i]` is a proper prefix of the path that is
      not followed by '/': the walk passes over all of them. */
  ghost predicate PassesOver(slots: seq<Slot>, path: bytes, j: int, i: nat)
    requires -1 <= j && i <= |slots|
  {
    forall k :: j < k < i ==> StrictPrefix(slots[k].path, path) && !Child(slots[k].path, path)
  }

  /** The walk finds the directory at `j` when it passes over everything
      above it. */
  lemma {:induction false} ScanHits(slots: seq<Slot>, path: bytes, i: nat, j: nat)
    requires j < i <= |slots|
    requires Child(slots[j].path, path) && PassesOver(slots, path, j, i)
    ensures Scan(slots, path, i) == Some(TargetOf(slots[j], path))
    decreases i
  {
    if j < i - 1 {
      ScanHits(slots, path, i - 1, j);
    }
  }

  /** The walk gives up at `j`, a key that is not a proper prefix, when it
      passes over everything above it, whatever lies below `j`. */
  lemma {:induction false} ScanGivesUp(slots: seq<Slot>, path: bytes, i: nat, j: nat)
    requires j < i <= |slots|
    requires !StrictPrefix(slots[j].path, path) && PassesOver(slots, path, j, i)
    ensures Scan(slots, path, i) == None
    decreases i
  {
    if j < i - 1 {
      ScanGivesUp(slots, path, i - 1, j);
    }
  }

  /** A walk that passes over every key it sees misses. */
  lemma {:induction false} ScanRunsOut(slots: seq<Slot>, path: bytes, i: nat)
    requires i <= |slots| && PassesOver(slots, path, -1, i)
    ensures Scan(slots, path, i) == None
    decreases i
  {
    if i > 0 {
      ScanRunsOut(slots, path, i - 1);
    }
  }

  /** The walk from `i` finds the directory at `j`: a directory of the
      path below `i`, with only passed-over keys above it. */
  ghost predicate FoundAt(slots: seq<Slot>, path: bytes, j: nat, i: nat)
    requires i <= |slots|
  {
    j < i && Child(slots[j].path, path) && PassesOver(slots, path, j, i)
    && Scan(slots, path, i) == Some(TargetOf(slots[j], path))
  }

  /** What the walk finds is a directory of the path, below `i`, with only
      passed-over keys above it; the file name is the rest of the path. */
  lemma {:induction false} ScanFound(slots: seq<Slot>, path: bytes, i: nat)
    requires i <= |slots| && Scan(slots, path, i).Some?
    ensures exists j: nat :: FoundAt(slots, path, j, i)
    decreases i
  {
    assert StrictPrefix(slots[i - 1].path, path);
    if !Child(slots[i - 1].path, path) {
      ScanFound(slots, path, i - 1);
      var j: nat :| FoundAt(slots, path, j, i - 1);
      assert PassesOver(slots, path, j, i) by {
        forall k | j < k < i
          ensures StrictPrefix(slots[k].path, path) && !Child(slots[k].path, path)
        {
        }
      }
      ScanHits(slots, path, i, j);
      assert FoundAt(slots, path, j, i);
    } else {
      ScanHits(slots, path, i, i - 1);
      assert FoundAt(slots, path, i - 1, i);
    }
  }

  /** With nothing sorting between the directory and the path, the lookup
      finds the directory's archive. */
  lemma NearestDirectory(slots: seq<Slot>, path: bytes, j: nat)
    requires Sorted(slots) && j < |slots| && Child(slots[j].path, path)
    requires j + 1 == |slots| || !Less(slots[j + 1].path, path)
    ensures Scan(slots, path, LowerBound(slots, path)) == Some(TargetOf(slots[j], path))
  {
    PrefixLess(slots[j].path, path);
    var n := LowerBound(slots, path);
    if n < j + 1 {
      if n < j {
        LessTransitive(slots[n].path, slots[j].path, path);
      }
    }
    assert n == j + 1;
    ScanHits(slots, path, n, j);
  }

  /** The lookup gives up at the first smaller key that is not a prefix,
      even when an ancestor directory further down has an archive:
      with archives for "/a" and "/a/b-", "/a/b/x" misses. */
  lemma ShadowedAncestor(a: ZendArchive, b: ZendArchive)
    ensures var slots := [Slot([0x2F, 0x61], a), Slot([0x2F, 0x61, 0x2F, 0x62, 0x2D], b)];
      var path: bytes := [0x2F, 0x61, 0x2F, 0x62, 0x2F, 0x78];
      Sorted(slots) && Child(slots[0].path, path) && Scan(slots, path, LowerBound(slots, path)) == None
  {
    var slots := [Slot([0x2F, 0x61], a), Slot([0x2F, 0x61, 0x2F, 0x62, 0x2D], b)];
    var path: bytes := [0x2F, 0x61, 0x2F, 0x62, 0x2F, 0x78];
    assert Less(slots[0].path, slots[1].path) by {
      assert StrictPrefix(slots[0].path, slots[1].path);
      PrefixLess(slots[0].path, slots[1].path);
    }
    assert Less(slots[1].path, path);
    assert Less(slots[0].path, path);
    assert LowerBound(slots, path) == 2;
    assert !StrictPrefix(slots[1].path, path) by {
      assert path[4] != slots[1].path[4];
    }
    ScanGivesUp(slots, path, 2, 1);
  }

  /** A prefix that is not followed by '/' is passed over: with archives
      for "/a" and "/a/b", "/a/bc" resolves to "bc" in the archive of "/a". */
  lemma SkipsNonDirectoryPrefix(a: ZendArchive, b: ZendArchive)
    ensures var slots := [Slot([0x2F, 0x61], a), Slot([0x2F, 0x61, 0x2F, 0x62], b)];
      var path: bytes := [0x2F, 0x61, 0x2F, 0x62, 0x63];
      Scan(slots, path, LowerBound(slots, path)) == Some(Target(a, [0x62, 0x63]))
  {
    var slots := [Slot([0x2F, 0x61], a), Slot([0x2F, 0x61, 0x2F, 0x62], b)];
    var path: bytes := [0x2F, 0x61, 0x2F, 0x62, 0x63];
    PrefixLess(slots[1].path, path);
    PrefixLess(slots[0].path, path);
    assert LowerBound(slots, path) == 2;
    assert path[|slots[0].path| + 1..] == [0x62, 0x63];
    ScanHits(slots, path, 2, 0);
  }

  /** `ZendZipCache`: its `archives` map, as slots in key order. */
  class ZendZipCache {
    var archives: seq<Slot>

    ghost predicate Valid()
      reads this
    {
      Sorted(archives)
    }

    /** `zend_zip_cache_new`: an empty cache. */
    constructor ()
      ensures Valid() && archives == []
    {
      archives := [];
    }

    /** `ZendZipCache::LoadArchive`: opens the archive of directory `path`
      and adds it unless the directory is already present; a file that
      cannot be opened, is not regular, is empty or too large, or cannot
      be mapped leaves the map as it was. */
    method LoadArchive(fs: map<bytes, Node>, path: bytes, id: SystemId, mmapOk: bool)
      requires Valid()
      modifies this
      ensures Valid()
      ensures Mapped(fs, path, id, mmapOk).None? ==> archives == old(archives)
      ensures Mapped(fs, path, id, mmapOk).Some? ==>
        var m := Mapped(fs, path, id, mmapOk).value;
        archives == Emplace(old(archives), path, ZendArchive(m, Index(m)))
    {
      var archive := ArchiveOpen(fs, path, id, mmapOk);
      if archive.Some? {
        EmplaceSorted(archives, path, archive.value);
        archives := Emplace(archives, path, archive.value);
      }
    }

    /** The loop of `ZendZipCache::LoadScript`: from `lower_bound(path)`
        backwards to the first key. */
    method Resolve(path: bytes) returns (r: Option<Target>)
      ensures r == Scan(archives, path, LowerBound(archives, path))
    {
      var i: nat := LowerBound(archives, path);
      while i > 0
        invariant i <= |archives|
        invariant Scan(archives, path, i) == Scan(archives, path, LowerBound(archives, path))
        decreases i
      {
        i := i - 1;
        var key := archives[i].path;
        if |key| >= |path| || path[..|key|] != key {
          return None;
        }
        if path[|key|] == SLASH {
          return Some(Target(archives[i].archive, path[|key| + 1..]));
        }
      }
      return None;
    }

    /** `zend_zip_cache_script_load`: looks the script path up and, on a
        hit, asks that archive, and only that archive, for the rest of the
        path. */
    method LoadScript(acc: Accelerator, scriptPath: bytes, o: Oracles) returns (r: Option<Script>)
      requires !acc.allocLocked
      requires var t := Scan(archives, scriptPath, LowerBound(archives, scriptPath));
        t.Some? && t.value.filename in t.value.archive.files && acc.Open(o) ==>
        Readable(t.value.archive.mapping, t.value.archive.files[t.value.filename].offset)
      modifies acc
      ensures !acc.allocLocked
      ensures Scan(archives, scriptPath, LowerBound(archives, scriptPath)).None? ==>
        r.None? && acc.hash == old(acc.hash) && acc.used == old(acc.used)
      ensures r.Some? ==>
        var t := Scan(archives, scriptPath, LowerBound(archives, scriptPath)).value;
        t.filename in t.archive.files && old(acc.Open(o))
        && r == Unserialized(t.archive.mapping, t.archive.files[t.filename].offset, o)
        && acc.hash == old(acc.hash)[r.value.filename := r.value]
      ensures r.None? ==> acc.hash == old(acc.hash)
    {
      var target := Resolve(scriptPath);
      if target.None? {
        return None;
      }
      r := LoadMember(acc, target.value.archive, scriptPath, target.value.filename, o);
    }
  }
}
