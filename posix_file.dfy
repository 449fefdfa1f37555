/** The few POSIX file operations the archive builder uses, over a file
    modelled as its byte contents plus the descriptor's file offset, and a
    directory modelled as a map from names to contents. */
module PosixFile {
  import opened Bytes

  function Min(a: nat, b: nat): nat { if a <= b then a else b }

  /** `s` with `data` written at position `at`, extending `s` if the write
      runs past its end. */
  function Overwrite(s: bytes, at: nat, data: bytes): (r: bytes)
    requires at <= |s|
    ensures |r| == if at + |data| <= |s| then |s| else at + |data|
    ensures r[..at] == s[..at] && r[at..at + |data|] == data
    ensures at + |data| <= |s| ==> r[at + |data|..] == s[at + |data|..]
  {
    s[..at] + data + (if at + |data| < |s| then s[at + |data|..] else [])
  }

  /** Writing at the end of a file appends. */
  lemma OverwriteAtEnd(s: bytes, data: bytes)
    ensures Overwrite(s, |s|, data) == s + data
  {
  }

  /** Rewriting a region with bytes of the same length replaces exactly that region. */
  lemma OverwriteSameLength(a: bytes, old_: bytes, new_: bytes, c: bytes)
    requires |old_| == |new_|
    ensures Overwrite(a + old_ + c, |a|, new_) == a + new_ + c
  {
    var s := a + old_ + c;
    assert s[..|a|] == a;
    if |c| > 0 {
      assert s[|a| + |new_|..] == c;
    }
  }

  /** An open file descriptor: the file's bytes and the current file offset. */
  class File {
    var content: bytes
    var offset: nat

    ghost predicate Valid()
      reads this
    {
      offset <= |content|
    }

    /** `open(".", O_TMPFILE|O_RDWR)`: a new, empty, unnamed file. */
    constructor Temporary()
      ensures Valid() && content == [] && offset == 0
    {
      content := [];
      offset := 0;
    }

    /** `lseek(fd, 0, SEEK_CUR)`: the current offset, nothing changes. */
    method Tell() returns (pos: nat)
      requires Valid()
      ensures pos == offset && pos <= |content|
    {
      pos := offset;
    }

    /** `write(fd, data, n)`, taken to write all `n` bytes (the builder
        never checks the result). */
    method Write(data: bytes)
      requires Valid()
      modifies this
      ensures Valid()
      ensures content == Overwrite(old(content), old(offset), data)
      ensures old(offset) == |old(content)| ==> content == old(content) + data
      ensures offset == old(offset) + |data|
    {
      OverwriteAtEnd(content, data);
      content := Overwrite(content, offset, data);
      offset := offset + |data|;
    }

    /** `pwrite(fd, data, n, at)`: write at `at`, leaving the offset alone. */
    method Pwrite(data: bytes, at: nat)
      requires Valid() && at <= |content|
      modifies this
      ensures Valid()
      ensures content == Overwrite(old(content), at, data)
      ensures offset == old(offset)
    {
      content := Overwrite(content, at, data);
    }

    /** `pread(fd, buf, n, at)`: up to `n` bytes from `at`, fewer at the end
        of the file, none at or past it. */
    method Pread(n: nat, at: nat) returns (r: bytes)
      ensures at < |content| ==> r == content[at..Min(at + n, |content|)]
      ensures at >= |content| ==> r == []
    {
      if at < |content| {
        r := content[at..Min(at + n, |content|)];
      } else {
        r := [];
      }
    }

    /** `ftruncate(fd, len)` for a length within the file. */
    method Truncate(len: nat)
      requires Valid() && len <= |content| && offset <= len
      modifies this
      ensures Valid() && content == old(content)[..len] && offset == old(offset)
    {
      content := content[..len];
    }
  }

  /** A directory: file names and the contents they are linked to. */
  class Directory {
    var entries: map<bytes, bytes>

    constructor (initial: map<bytes, bytes>)
      ensures entries == initial
    {
      entries := initial;
    }

    /** `unlinkat(dirfd, name, 0)`; a missing name is not an error. */
    method Unlink(name: bytes)
      modifies this
      ensures entries == old(entries) - {name}
    {
      entries := entries - {name};
    }

    /** `linkat(..., "/proc/self/fd/N", dirfd, name, AT_SYMLINK_FOLLOW)`:
        gives the open file a name. It fails when the name exists or when the
        kernel refuses (`permitted` is false). */
    method Link(name: bytes, file: File, permitted: bool) returns (ok: bool)
      modifies this
      ensures ok == (permitted && name !in old(entries))
      ensures entries == if ok then old(entries)[name := file.content] else old(entries)
    {
      ok := permitted && name !in entries;
      if ok {
        entries := entries[name := file.content];
      }
    }
  }
}
