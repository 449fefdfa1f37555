# A Dafny model of the CM4all PHP archive cache, its builder and the Zend bit encodings

This project models, in Dafny, the parts of the CM4all fork of PHP that
precompile scripts into a ZIP archive and serve them back from it. It also
models the packed words the Zend engine uses to describe values and types.

- **Archive builder** (`sapi/was/precompile.cpp`): `precompile` writes one
  stored local record per input into an unnamed temporary file, patches
  each preliminary header with the body's size and CRC-32, writes the
  central directory and the end record, truncates the file and links it
  as `opcache-<system id>.zip` (module `Precompile`).
- **Record formats** (`ext/opcache/ZipFormat.hxx`,
  `ext/opcache/LittleEndian.hxx`): the three packed records and their
  little-endian fields, as byte images (modules `ZipFormat`,
  `LittleEndian`).
- **Archive index** (`ZendArchive` in `ext/opcache/zend_zip_cache.cpp`):
  the walk over the local headers that builds the file index (module
  `ZipIndex`).
- **Loading** (`ZendArchiveFile::LoadScript`, `ZendArchive::LoadScript`):
  the copy of one member into shared memory and its registration in the
  script hash, with the shared-memory gates and locks (module
  `ArchiveLoader`).
- **The cache** (`ZendZipCache`): the directory-keyed map of archives, the
  zip path, `zend_archive_open`, and the backward `lower_bound` walk that
  finds the archive of a script (module `ZipCache`).
- **Round trip**: what the index finds in an archive the builder wrote
  (module `RoundTrip`).
- **MemoryMapping** (`ext/opcache/MemoryMapping.hxx`): ownership of one
  mapping across moves (module `Mapping`).
- **The WAS front end** (`sapi/was/was_main.c`): header splitting, the
  response header array, header variable names, the host name length,
  cookies, the request body loop and command-line parsing (modules
  `WasHeaders`, `WasRequest`, `WasCommandLine`).
- **Zend encodings**: type codes and guard flags (`ZendTypeCode`),
  `zend_type` masks (`ZendType`), `zval` type words, setters and copies
  (`ZendValue`), the object store's bucket tagging (`ZendObjectsApi`),
  and the tagged property-info source list (`ZendPropertyInfo`).

The headline results are these:

- `RoundTrip.ArchiveRoundTrip`: reading back an archive built from any
  list of members gives each name, without `.bin`, the body of the first
  member with that name.
- `ZipCache.NearestDirectory`: a script is served from the archive of its
  nearest directory when no other key sorts between them.
- `WasHeaders.CollectLookup`: in the response header array the last line
  with a name wins.
- `ZendObjectsApi.FreeListIsLifo`: the object store's free list is
  last in, first out.

Bit masks are modelled as sets of bit positions. C `|` is union, `&` is
intersection and `& ~` is difference. Pointers are natural numbers, or
64-bit words where their low bit is a tag. Foreign calls are modelled
either as parameters (oracles) or as the state they change. The oracles
are the shared allocator, unserialization, `php_getopt`, `was_simple_*`
and the compiler.

## Model

| member | source | states |
|---|---|---|
| LittleEndian.LE16.Bytes | ext/opcache/LittleEndian.hxx:37-39 | the struct's memory image is exactly its two bytes, low byte first |
| LittleEndian.LE32.Bytes | ext/opcache/LittleEndian.hxx:52-54 | the struct's memory image is exactly its four bytes |
| LittleEndian.FromU16Bytes | ext/opcache/LittleEndian.hxx:43-45 | `LE16(v)` stores `v % 256` first and `v / 256` second |
| LittleEndian.FromU16Value | ext/opcache/LittleEndian.hxx:43-49 | converting a `uint16_t` to `LE16` and back gives the value back |
| LittleEndian.ValueFromU16 | ext/opcache/LittleEndian.hxx:43-49 | converting any two bytes to `uint16_t` and back gives them back (a bijection together with FromU16Value) |
| LittleEndian.FromU32Bytes | ext/opcache/LittleEndian.hxx:58-67 | `LE32(v)` stores the low byte first, and decoding gives `v` back |
| LittleEndian.ValueFromU32 | ext/opcache/LittleEndian.hxx:58-67 | converting any four bytes to `uint32_t` and back gives them back |
| LittleEndian.ReadLE16Bytes | ext/opcache/LittleEndian.hxx:37-39 | a packed field read at an offset is exactly the two bytes there |
| LittleEndian.ReadLE32Bytes | ext/opcache/LittleEndian.hxx:52-54 | a packed field read at an offset is exactly the four bytes there |
| ZipFormat.DefaultsAsValues | ext/opcache/ZipFormat.hxx:11-50 | the default initialisers as numbers: method 8, versions 0x031e and 0x0014, internal attribute 1, external attributes 0644 << 16 |
| ZipFormat.FileHeaderBytes | ext/opcache/ZipFormat.hxx:11-24 | a `ZipFileHeader` image is 0x1e bytes |
| ZipFormat.DirectoryEntryBytes | ext/opcache/ZipFormat.hxx:26-52 | a `ZipDirectoryEntry` image is 0x2e bytes |
| ZipFormat.DirectoryEndBytes | ext/opcache/ZipFormat.hxx:54-63 | a `ZipDirectoryEnd` image is 0x16 bytes |
| ZipFormat.ReadFileHeaderBytes | ext/opcache/ZipFormat.hxx:11-24 | reading a header back from its own image gives the same header |
| ZipFormat.ReadFileHeaderLocal | ext/opcache/ZipFormat.hxx:11-24 | a header read at an offset depends on its own 30 bytes only |
| ZipFormat.ReadFileHeaderAt | ext/opcache/ZipFormat.hxx:11-24 | a header read where a header was written is that header |
| ZipFormat.FileHeaderBytesRead | ext/opcache/ZipFormat.hxx:11-24 | writing a header read from any 30 bytes reproduces those bytes (reading and writing are inverse) |
| ZipFormat.FileHeaderOffsets | ext/opcache/ZipFormat.hxx:11-16 | the signature is at offset 0, flags at 6 and the method at 8 |
| ZipFormat.FileHeaderDateOffsets | ext/opcache/ZipFormat.hxx:13-17 | the versions are at 4 and 5 and time and date at 10 and 12 |
| ZipFormat.FileHeaderSizeOffsets | ext/opcache/ZipFormat.hxx:18-21 | the CRC is at 14, the sizes at 18 and 22, the name and extra lengths at 26 and 28 |
| ZipFormat.DefaultFileHeaderImage | ext/opcache/ZipFormat.hxx:11-22 | the image of `ZipFileHeader{}`: "PK\3\4", version 20, method 8, zero elsewhere |
| ZipFormat.DirectoryEntryImage | ext/opcache/ZipFormat.hxx:26-50 | the converting constructor copies CRC, method, sizes and name length and keeps the other defaults |
| ZipFormat.DirectoryEntryMagic | ext/opcache/ZipFormat.hxx:27 | a directory entry's image starts with its signature |
| ZipFormat.DefaultDirectoryEndImage | ext/opcache/ZipFormat.hxx:54-61 | the image of `ZipDirectoryEnd{}` is "PK\5\6" followed by 18 zero bytes |
| Precompile.NormalizeFilename | sapi/was/precompile.cpp:124-132 | "./" is dropped exactly when the name starts with it and continues, and the result is a suffix of the name |
| Precompile.NormalizeKeepsSomething | sapi/was/precompile.cpp:128 | a non-empty name stays non-empty, and "./" alone is kept |
| Precompile.UntilNul | sapi/was/precompile.cpp:255 | `%.32s` takes the bytes before the first NUL, at most all of them |
| Precompile.LocalRecord | sapi/was/precompile.cpp:197-217 | a local record is 30 header bytes, the name and the body |
| Precompile.LocalSectionLength | sapi/was/precompile.cpp:197-223 | the records section ends where the next header would start |
| Precompile.HeaderOffsetStep | sapi/was/precompile.cpp:197-223 | header offsets advance by one record, and each record sits between its offset and the next |
| Precompile.HeaderOffsetAppend | sapi/was/precompile.cpp:192-224 | appending a member does not move the earlier headers |
| Precompile.LocalSectionAppend | sapi/was/precompile.cpp:192-224 | appending a member appends its record |
| Precompile.DirectorySizeIsLength | sapi/was/precompile.cpp:232-244 | the running `directory_size` is exactly the number of directory bytes written |
| Precompile.FinalHeaderDescribesBody | sapi/was/precompile.cpp:212-217 | the patched header holds the body's size twice, its CRC-32, method 0, the name length and the signature |
| Precompile.FinalHeaderSizes | sapi/was/precompile.cpp:212-214 | both sizes of the patched header are the body's length |
| Precompile.FinalHeaderCrc | sapi/was/precompile.cpp:215 | the patched header's CRC is the CRC-32 of the body |
| Precompile.FinalHeaderMethod | sapi/was/precompile.cpp:140 | the patched header is "stored" |
| Precompile.FinalHeaderName | sapi/was/precompile.cpp:141 | the patched header's name length is the name's length |
| Precompile.FinalHeaderExtra | sapi/was/precompile.cpp:139 | the patched header has no extra field |
| Precompile.DirectoryRecordPointsAtHeader | sapi/was/precompile.cpp:222-223 | each directory entry points at its member's local header |
| Precompile.EndRecordCounts | sapi/was/precompile.cpp:228-229 | the end record counts all entries in total and none on this disk |
| Precompile.EndRecordOffset | sapi/was/precompile.cpp:230 | the directory starts right after the last local record |
| Precompile.EndRecordSize | sapi/was/precompile.cpp:232-244 | the end record's size field is the directory's length |
| Precompile.WritePreliminaryZipFileHeader | sapi/was/precompile.cpp:134-147 | writes the preliminary header (method 0, name length) and the name at the cursor, and returns that header |
| Precompile.PreliminaryHeaderImage | sapi/was/precompile.cpp:139-142 | the preliminary header's bytes: method 0, CRC and sizes zero, the name length |
| Precompile.CrcFromFile | sapi/was/precompile.cpp:149-168 | the CRC-32 of `size` bytes at `offset`, read in chunks of at most 16384; `None` where `pread` would come up short (the source aborts) |
| Precompile.CrcOfPrefix | sapi/was/precompile.cpp:155-165 | continuing the checksum with the next chunk is the checksum of the longer range (the loop invariant) |
| Precompile.CommitFile | sapi/was/precompile.cpp:107-122 | the old name is removed, and the file is published under it exactly when the link succeeds |
| Precompile.UnpatchedBody | sapi/was/precompile.cpp:202-212 | the body lies right after the preliminary header and the name |
| Precompile.PatchedRecord | sapi/was/precompile.cpp:217 | `pwrite` of the final header over the preliminary one gives the final record |
| Precompile.AppendMember | sapi/was/precompile.cpp:193-223 | one pass of the first loop appends the member's final record and returns its directory entry |
| Precompile.DirectoryRecordsAppend | sapi/was/precompile.cpp:222-223 | recording one more entry keeps the earlier ones |
| Precompile.InputsStep | sapi/was/precompile.cpp:192-206 | compiling one more input extends the member list by that input |
| Precompile.DirectorySizeStep | sapi/was/precompile.cpp:241 | one more name adds 46 bytes and the name's length |
| Precompile.WriteDirectoryItem | sapi/was/precompile.cpp:234-239 | one pass of the second loop appends the recorded entry and the normalised name |
| Precompile.WriteDirectoryEntries | sapi/was/precompile.cpp:233-242 | the second loop writes every entry followed by its name and returns their total size |
| Precompile.WriteDirectory | sapi/was/precompile.cpp:228-250 | the directory, the end record and the truncation turn the records section into the complete archive |
| Precompile.WriteMembers | sapi/was/precompile.cpp:187-224 | the first loop succeeds exactly when every input compiles; then the file holds the records and the entries are recorded |
| Precompile.InputsNames | sapi/was/precompile.cpp:192-234 | both loops see the same normalised names |
| Precompile.Build | sapi/was/precompile.cpp:170-259 | succeeds exactly when the temporary file opens and every input compiles; then the archive of the inputs is published as `opcache-<id>.zip`, otherwise the directory is unchanged |
| Crc32.CrcAppend | sapi/was/precompile.cpp:153-164 | the checksum of two chunks is the checksum of the second continued from the first |
| Crc32.ContinueFrom | sapi/was/precompile.cpp:153-164 | continuing from a returned checksum resumes the register where it stopped: the final inversion is undone before the next chunk |
| ZipIndex.ZendArchive.Find | ext/opcache/zend_zip_cache.cpp:127-132 | the lookup hits exactly for an indexed name and returns its entry |
| ZipIndex.Step | ext/opcache/zend_zip_cache.cpp:143-166 | a member the walk accepts lies after its header and ends inside the mapping |
| ZipIndex.StripBin | ext/opcache/zend_zip_cache.cpp:169-170 | a name longer than four bytes loses a trailing ".bin"; any other name is unchanged |
| ZipIndex.TryEmplace | ext/opcache/zend_zip_cache.cpp:172 | an existing key keeps its value, a new key gets the new one, nothing else changes |
| ZipIndex.OpenArchive | ext/opcache/zend_zip_cache.cpp:135-175 | the constructor's loop builds exactly the index the walk defines |
| ZipIndex.MembersStep | ext/opcache/zend_zip_cache.cpp:143-174 | one iteration of the loop adds the member and continues after its body |
| ZipIndex.MembersCons | ext/opcache/zend_zip_cache.cpp:143-174 | an accepted member is followed by the walk from its end |
| ZipIndex.MembersInBounds | ext/opcache/zend_zip_cache.cpp:143-166 | every visited member lies inside the mapping, after the start |
| ZipIndex.InsertWithin | ext/opcache/zend_zip_cache.cpp:172 | inserting in-bounds members keeps every entry inside the mapping |
| ZipIndex.IndexWithin | ext/opcache/zend_zip_cache.cpp:143-166 | every indexed body lies wholly inside the mapping |
| ZipIndex.Get | ext/opcache/zend_zip_cache.cpp:128 | `find` hits exactly for a present key |
| ZipIndex.InsertLookup | ext/opcache/zend_zip_cache.cpp:172 | after insertion a key maps to its old value, or else to its first stored member |
| ZipIndex.InsertKeeps | ext/opcache/zend_zip_cache.cpp:172 | insertion never changes an entry that was there |
| ZipIndex.IndexLookup | ext/opcache/zend_zip_cache.cpp:168-173 | the index maps each key to the first stored member with that key |
| ZipIndex.SkipsUnstored | ext/opcache/zend_zip_cache.cpp:168 | a compressed member is skipped and the walk goes on past it |
| ZipIndex.StripBinSuffix | ext/opcache/zend_zip_cache.cpp:169-170 | ".bin" comes off a longer name |
| ZipIndex.StripBinKeepsBareSuffix | ext/opcache/zend_zip_cache.cpp:169 | a name that is exactly ".bin" is kept |
| ZipIndex.Fetch | ext/opcache/zend_zip_cache.cpp:161-162 | the bytes handed out have the recorded size |
| RoundTrip.ArchiveParts | sapi/was/precompile.cpp:226-246 | a built archive is its records followed by a trailer that stops the walk at line 149 of the index |
| RoundTrip.ArchiveLaid | sapi/was/precompile.cpp:192-246 | the built archive lays out every record from offset 0 |
| RoundTrip.HeadersDescribe | sapi/was/precompile.cpp:212-217 | every patched header announces a stored member of the right size |
| RoundTrip.LoadLaid | ext/opcache/zend_zip_cache.cpp:135-175 | the walk over laid-out records indexes each name's first body |
| RoundTrip.ArchiveRoundTrip | ext/opcache/zend_zip_cache.cpp:135-175 | loading any name from a built archive gives the body of the first member of that name, and unknown names miss |
| ArchiveLoader.Payload | ext/opcache/zend_zip_cache.cpp:69-85 | the copied bytes are `mem_size` bytes after the metainfo |
| ArchiveLoader.Finished | ext/opcache/zend_zip_cache.cpp:100-104 | a registered script is not corrupted and carries the request time |
| ArchiveLoader.Accelerator.Lock | ext/opcache/zend_zip_cache.cpp:74 | takes the allocator lock and changes nothing else |
| ArchiveLoader.Accelerator.Unlock | ext/opcache/zend_zip_cache.cpp:111 | releases the allocator lock (also on the error paths at lines 81 and 96) and changes nothing else |
| ArchiveLoader.LoadFile | ext/opcache/zend_zip_cache.cpp:61-114 | behind a closed gate nothing changes; otherwise the read lock is held and `ZCG(mem)` set; allocation failure schedules a restart; a result exists exactly when allocation and unserialization succeed, and only then is the hash updated; the allocator lock is never left held |
| ArchiveLoader.LoadMember | ext/opcache/zend_zip_cache.cpp:127-132 | a name the index lacks is a miss that changes nothing; a hit is the file's script, registered in the hash |
| ArchiveLoader.MagicNeverChecked | ext/opcache/zend_zip_cache.cpp:69-72 | two files that differ only in the metainfo's magic and system id load alike |
| Mapping.Kernel.Unmap | ext/opcache/MemoryMapping.hxx:55 | `munmap` records the region |
| Mapping.MemoryMapping.constructor | ext/opcache/MemoryMapping.hxx:46-47 | takes the pointer and the size |
| Mapping.MemoryMapping.Move | ext/opcache/MemoryMapping.hxx:49-51 | takes over pointer and size and leaves `MAP_FAILED` behind |
| Mapping.MemoryMapping.Destroy | ext/opcache/MemoryMapping.hxx:53-56 | unmaps exactly when the pointer is not `MAP_FAILED` |
| Mapping.MemoryMapping.Assign | ext/opcache/MemoryMapping.hxx:58-63 | swaps both fields with the source |
| Mapping.MemoryMapping.Data | ext/opcache/MemoryMapping.hxx:65-67 | returns the pointer |
| Mapping.MemoryMapping.Size | ext/opcache/MemoryMapping.hxx:69-71 | returns the size |
| Mapping.MoveThenDestroy | ext/opcache/MemoryMapping.hxx:49-56 | a region moved into a second owner is unmapped exactly once when both are destroyed |
| Mapping.AssignTwice | ext/opcache/MemoryMapping.hxx:58-63 | move-assigning twice restores both objects |
| Mapping.AssignSelf | ext/opcache/MemoryMapping.hxx:58-63 | self-assignment changes nothing |
| ZipCache.ZipPath | ext/opcache/zend_zip_cache.cpp:191-203 | the buffer holds the directory, then '/', and ends in NUL, and is 46 bytes longer than the directory |
| ZipCache.GetZendZipPath | ext/opcache/zend_zip_cache.cpp:191-203 | fills a fresh buffer of exactly that length with that content |
| ZipCache.UntilNulStops | ext/opcache/zend_zip_cache.cpp:208 | the C string of a NUL-free prefix followed by NUL is that prefix |
| ZipCache.ZipPathIsPublishedName | ext/opcache/zend_zip_cache.cpp:191-208 | the file the cache opens is `<dir>/` followed by the name the builder publishes |
| ZipCache.Mapped | ext/opcache/zend_zip_cache.cpp:213-229 | a mapped archive is non-empty and at most 1 GiB |
| ZipCache.ArchiveOpen | ext/opcache/zend_zip_cache.cpp:213-232 | fails exactly when the file is missing, special, empty, over 1 GiB or unmappable; otherwise it indexes the mapped bytes |
| ZipCache.SortedTail | ext/opcache/zend_zip_cache.cpp:179 | a tail of an ordered map is ordered |
| ZipCache.Get | ext/opcache/zend_zip_cache.cpp:179 | `find` hits exactly for a present directory |
| ZipCache.Emplace | ext/opcache/zend_zip_cache.cpp:247 | `try_emplace` adds at most the new slot |
| ZipCache.EmplaceSorted | ext/opcache/zend_zip_cache.cpp:247 | `try_emplace` keeps the keys strictly ascending |
| ZipCache.EmplacePresent | ext/opcache/zend_zip_cache.cpp:247 | `try_emplace` of a present directory changes nothing |
| ZipCache.EmplaceGet | ext/opcache/zend_zip_cache.cpp:247 | after `try_emplace` the directory maps to its old archive, or else the new one, and other keys are untouched |
| ZipCache.LowerBound | ext/opcache/zend_zip_cache.cpp:257 | `lower_bound` counts the keys sorting before the path |
| ZipCache.LowerBoundSplits | ext/opcache/zend_zip_cache.cpp:257 | no key from the lower bound on sorts before the path |
| ZipCache.TargetOf | ext/opcache/zend_zip_cache.cpp:265-268 | the path is the directory, '/' and the file name asked for |
| ZipCache.ScanHits | ext/opcache/zend_zip_cache.cpp:257-269 | the walk finds a directory when it passes only over proper prefixes without '/' before reaching it |
| ZipCache.ScanGivesUp | ext/opcache/zend_zip_cache.cpp:261-263 | the walk gives up at the first key that is not a proper prefix |
| ZipCache.ScanRunsOut | ext/opcache/zend_zip_cache.cpp:257-272 | a walk that passes over every key misses |
| ZipCache.ScanFound | ext/opcache/zend_zip_cache.cpp:257-272 | whatever the walk finds is a directory of the path, and everything passed over was a prefix that is not a directory |
| ZipCache.NearestDirectory | ext/opcache/zend_zip_cache.cpp:255-273 | with nothing sorting between a directory and the path, the lookup asks that directory's archive for the rest of the path |
| ZipCache.ShadowedAncestor | ext/opcache/zend_zip_cache.cpp:261-263 | "/a/b-" between "/a" and "/a/b/x" makes the lookup of "/a/b/x" miss although "/a" is its directory |
| ZipCache.SkipsNonDirectoryPrefix | ext/opcache/zend_zip_cache.cpp:265-269 | "/a/b" is passed over for "/a/bc" and "/a" is used |
| ZipCache.ZendZipCache.constructor | ext/opcache/zend_zip_cache.cpp:234-237 | a new cache is empty |
| ZipCache.ZendZipCache.LoadArchive | ext/opcache/zend_zip_cache.cpp:244-248 | an archive that opens is emplaced under its directory; otherwise nothing changes; the keys stay ordered |
| ZipCache.ZendZipCache.Resolve | ext/opcache/zend_zip_cache.cpp:257-272 | the loop computes the walk from `lower_bound` |
| ZipCache.ZendZipCache.LoadScript | ext/opcache/zend_zip_cache.cpp:255-282 | a miss of the walk changes nothing; a hit is the script of the named file in that archive, registered in the hash |
| LexOrder.LessIrreflexive | ext/opcache/zend_zip_cache.cpp:179 | `std::less<>` on strings is irreflexive |
| LexOrder.LessAsymmetric | ext/opcache/zend_zip_cache.cpp:179 | it is asymmetric |
| LexOrder.LessTransitive | ext/opcache/zend_zip_cache.cpp:179 | it is transitive |
| LexOrder.LessTotal | ext/opcache/zend_zip_cache.cpp:179 | any two different strings are ordered |
| LexOrder.PrefixLess | ext/opcache/zend_zip_cache.cpp:257-262 | a proper prefix sorts before the longer string |
| WasHeaders.IndexFrom | sapi/was/was_main.c:128 | `memchr` returns the first position holding the byte, or none |
| WasHeaders.SkipSpaces | sapi/was/was_main.c:136-137 | skips exactly the leading spaces |
| WasHeaders.IndexFromIs | sapi/was/was_main.c:128 | `memchr` finds the first occurrence |
| WasHeaders.IndexFromNone | sapi/was/was_main.c:128 | `memchr` finds nothing when the byte is absent |
| WasHeaders.SkipSpacesIs | sapi/was/was_main.c:136-137 | the skipped spaces end at the first non-space |
| WasHeaders.Spaces | sapi/was/was_main.c:136 | a run of spaces |
| WasHeaders.SplitHeaderShape | sapi/was/was_main.c:124-143 | a header is skipped exactly when it has no ':' or starts with one; otherwise it is name, ':', spaces and value |
| WasHeaders.SplitHeaderJoin | sapi/was/was_main.c:124-143 | a valid name and trimmed value joined with ':' and spaces split back into themselves |
| WasHeaders.SendWasHeader | sapi/was/was_main.c:124-143 | sends the split header when there is one, and fails only when sending fails |
| WasHeaders.TrimEnd | sapi/was/was_main.c:513-514 | drops exactly the trailing spaces of the name |
| WasHeaders.ResponseHeader | sapi/was/was_main.c:507-523 | a kept entry has a non-empty name without trailing space and a value without leading space |
| WasHeaders.ParseResponseHeader | sapi/was/was_main.c:507-523 | the loop parses one line as ResponseHeader says |
| WasHeaders.Assoc | sapi/was/was_main.c:523 | `add_assoc_string_ex` adds at most one entry |
| WasHeaders.AssocLookup | sapi/was/was_main.c:523 | after `add_assoc_string_ex` the name maps to the new value and other names are unchanged |
| WasHeaders.CollectLookup | sapi/was/was_main.c:500-524 | in the returned array each name maps to the value of its last line |
| WasHeaders.ResponseHeaders | sapi/was/was_main.c:492-525 | the loop builds that array |
| WasHeaders.Mangle | sapi/was/was_main.c:279-284 | each name byte becomes an upper-case letter, a digit or '_' |
| WasHeaders.HeaderVariable | sapi/was/was_main.c:275-287 | the variable is "HTTP_" followed by the mangled name, byte for byte |
| WasHeaders.MangleIdempotent | sapi/was/was_main.c:279-284 | mangling twice is mangling once |
| WasHeaders.HeaderVariableIsCanonical | sapi/was/was_main.c:277-287 | the variable name is already mangled |
| WasHeaders.HeaderVariableIgnoresCase | sapi/was/was_main.c:279-284 | names that differ only in letter case share one variable |
| WasHeaders.AddHeaderVariable | sapi/was/was_main.c:272-290 | the buffer of `5 + strlen(name) + 1` bytes holds the variable name and its NUL |
| WasHeaders.ColonOrEnd | sapi/was/was_main.c:264 | the first ':' from a position, or the end |
| WasHeaders.GetHostLengthAsWritten | sapi/was/was_main.c:258-270 | the loop as written computes HostLengthAsWritten |
| WasHeaders.GetHostLength | sapi/was/was_main.c:258-270 | the loop testing `s[i]` computes HostLength |
| WasHeaders.HostLengthMeaning | sapi/was/was_main.c:258-270 | a host length `n` is returned exactly when byte 0 is alphanumeric, bytes 1 to `n-1` are alphanumeric, '-' or '_', and `n` is at ':' or the end |
| WasHeaders.AsWrittenNeverRejectsLater | sapi/was/was_main.c:264-266 | as written, once the first byte passes, no later byte is checked |
| WasHeaders.HostWithSpace | sapi/was/was_main.c:264-266 | "a b" is accepted whole as written and rejected as intended |
| WasHeaders.ServerName | sapi/was/was_main.c:320-331 | with `get_host_length` as written, `SERVER_NAME` is registered exactly when the Host header starts with an alphanumeric byte, and it is the header up to its first ':' or its end |
| WasHeaders.ServerNameIntended | sapi/was/was_main.c:320-331 | with the corrected host check, `SERVER_NAME` is registered exactly when the host length is nonzero, and it is a host name of host characters up to the first ':' or the end |
| WasHeaders.ServerNamesAgree | sapi/was/was_main.c:320-331 | where the corrected check accepts a host the program registers the same name; "a b" is registered only as written |
| WasRequest.JoinCookies | sapi/was/was_main.c:222-242 | there is no cookie string exactly when there is no cookie header |
| WasRequest.ConcatCookies | sapi/was/was_main.c:202-220 | `strdup(b)` for the first value, otherwise `a`, "; " and `b`; `NULL` when allocation fails |
| WasRequest.FirstFailure | sapi/was/was_main.c:231-234 | the number of values appended before the first failed allocation |
| WasRequest.JoinCookiesStep | sapi/was/was_main.c:231-237 | one more header extends the join |
| WasRequest.JoinCookiesPrefix | sapi/was/was_main.c:233-234 | stopping early gives a prefix of the full join |
| WasRequest.JoinCookiesLength | sapi/was/was_main.c:207-217 | each value adds "; " and its length, and a single value is itself |
| WasRequest.Cookies.constructor | sapi/was/was_main.c:91-92 | no cookie string is cached |
| WasRequest.Cookies.ReadCookies | sapi/was/was_main.c:222-242 | a cached string is returned as is; otherwise the join of the headers up to the first failed allocation is cached and returned |
| WasRequest.Cookies.Deactivate | sapi/was/was_main.c:89-100 | the cached string is dropped |
| WasRequest.RequestBody.Read | sapi/was/was_main.c:186-187 | `was_simple_read`: -1 on error, 0 at the end, otherwise the next bytes, at most the count asked for |
| WasRequest.ReadPost | sapi/was/was_main.c:176-200 | 0 when a read fails; otherwise the count, or fewer at the end of the body; the buffer holds the body bytes read |
| WasCommandLine.PrecompileDefines | sapi/was/was_main.c:643-666 | `-p` defines `html_errors=0`, the opcache entries and, with JIT, `opcache.jit=disable` |
| WasCommandLine.CommandLine.constructor | sapi/was/was_main.c:588-598 | no defines and every flag off |
| WasCommandLine.CommandLine.Parse | sapi/was/was_main.c:600-682 | returns the outcome of the options and applies the effect of those before the first stopping one; `optind` is stored only when the options run out |
| WasCommandLine.OutcomeMeaning | sapi/was/was_main.c:623-681 | the first stopping option decides: success for `-h`/`-?`, failure for an invalid one, and -1 when none stops |
| WasCommandLine.StopDiscardsRest | sapi/was/was_main.c:633-636 | options after a stopping one are never applied |
| WasCommandLine.PrecompileOption | sapi/was/was_main.c:638-667 | `-p` sets precompile and ini_ignore and appends its defines |
| WasCommandLine.EffectOnlyAdds | sapi/was/was_main.c:624-666 | defines are only ever appended |
| WasCommandLine.PrecompileIgnoresIni | sapi/was/was_main.c:638-640 | precompiling always ignores the INI file |
| WasCommandLine.DefineAppends | sapi/was/was_main.c:624-627 | `-d x` appends exactly `x` |
| ZendTypeCode.Code | Zend/zend_type_code.h:20-33 | the twelve value types have codes below 12 |
| ZendTypeCode.TypeOfCode | Zend/zend_type_code.h:20-33 | a code names a value type exactly when it is below 12 |
| ZendTypeCode.CodesDistinct | Zend/zend_type_code.h:20-33 | code and type convert both ways, so the codes are distinct |
| ZendTypeCode.HintCodesOverlapInternal | Zend/zend_type_code.h:35-52 | the hint-only codes 12 to 15 coincide with the internal ones, and the cast codes come after the hints |
| ZendTypeCode.RecursionFlag | Zend/zend_type_code.h:61-65 | each recursion flag is a bit outside the property mask |
| ZendTypeCode.FlagsDisjoint | Zend/zend_type_code.h:61-63 | different recursion kinds have different bits |
| ZendTypeCode.PropertyMaskIsPropertyGuards | Zend/zend_type_code.h:56-60 | the property mask is exactly the four property guards |
| ZendTypeCode.Protected | Zend/zend_type_code.h:68 | protecting marks the kind and changes no other bit |
| ZendTypeCode.Unprotected | Zend/zend_type_code.h:69 | unprotecting clears the kind and changes no other bit |
| ZendTypeCode.ProtectIdempotent | Zend/zend_type_code.h:68-69 | protecting or unprotecting twice is doing it once |
| ZendTypeCode.KindsIndependent | Zend/zend_type_code.h:67-69 | one kind's protection leaves the other kinds and the property guards alone |
| ZendTypeCode.ProtectUnprotect | Zend/zend_type_code.h:67-69 | unprotect undoes protect exactly when the kind was clear, and protect undoes unprotect exactly when it was set |
| ZendTypeCode.Guard.constructor | Zend/zend_type_code.h:55-63 | the guard word as given |
| ZendTypeCode.Guard.Protect | Zend/zend_type_code.h:68 | the guard word becomes Protected |
| ZendTypeCode.Guard.Unprotect | Zend/zend_type_code.h:69 | the guard word becomes Unprotected |
| ZendType.IsSetMeaning | Zend/zend_type.h:77-78 | a type is set exactly when a bit below 25 is set |
| ZendType.FullMask | Zend/zend_type.h:162-172 | the whole mask, which holds the pure mask and the mask without null, and is the pure mask plus the bits from 18 on |
| ZendType.PureMask | Zend/zend_type.h:165-166 | exactly the mask's bits below 18 |
| ZendType.FullMaskWithoutNull | Zend/zend_type.h:168-169 | exactly the mask's bits other than the null bit |
| ZendType.PureMaskWithoutNull | Zend/zend_type.h:171-172 | exactly the pure bits other than the null bit, so the result does not allow null |
| ZendType.InitNone | Zend/zend_type.h:180-184 | the same type as `InitMask` of the extra flags; it is set exactly when some extra flag lies below bit 25 |
| ZendType.InitMask | Zend/zend_type.h:183-184 | no pointer and the mask; it is only a mask exactly when a bit below 25 is set |
| ZendType.InitCode | Zend/zend_type.h:186-188 | a set plain mask: `_IS_BOOL` allows false and true, `IS_ITERABLE` sets the fallback bit, `IS_MIXED` allows every value type from null to resource, any other code allows itself; null is allowed exactly when asked, when the code is null or mixed, or when the extra flags hold the null bit; the mask is the code's bits, the null bit when asked and the extra flags |
| ZendType.InitPtr | Zend/zend_type.h:190-192 | the pointer, the kind and the extra flags; null is allowed exactly when asked or already in them |
| ZendType.InitPtrMask | Zend/zend_type.h:183-195 | the pointer and the mask, the same as `InitPtr` with the mask as kind, no null and no flags, and as `InitMask` when the pointer is null |
| ZendType.InitUnion | Zend/zend_type.h:197-198 | a set, complex union type list |
| ZendType.InitIntersection | Zend/zend_type.h:200-201 | a set, complex intersection type list |
| ZendType.InitClass | Zend/zend_type.h:203-207 | a set, complex class name, nullable when asked, never only a mask when the name is not null |
| ZendType.InitClassConstMask | Zend/zend_type.h:209-210 | a class name keeping the given mask |
| ZendType.ListSize | Zend/zend_type.h:115-116 | a list of `n` types takes `8 + 16n` bytes on LP64 |
| ZendType.WithPtrAndKind | Zend/zend_type.h:151-155 | the new pointer, exactly the given kind, every other bit unchanged; the result is complex and set |
| ZendType.SetKindTwice | Zend/zend_type.h:151-155 | setting pointer and kind twice keeps only the last |
| ZendType.TypeField.constructor | Zend/zend_type.h:44-51 | a field holding the given type |
| ZendType.TypeField.SetPtr | Zend/zend_type.h:148-149 | only the pointer changes |
| ZendType.TypeField.SetPtrAndKind | Zend/zend_type.h:151-155 | the field becomes WithPtrAndKind of its old value |
| ZendType.TypeField.SetList | Zend/zend_type.h:157-158 | the field points at the list and has the list kind |
| ZendType.Visited | Zend/zend_type.h:129-146 | a list type visits each element of its list; any other type visits itself once |
| ZendType.Foreach | Zend/zend_type.h:131-146 | the do-while loop visits exactly Visited, in order |
| ZendValue.Pack | Zend/zend_value.h:61-86 | the packed word's type, flags and extra fields are the given ones |
| ZendValue.Unpack | Zend/zend_value.h:61-86 | every `type_info` is the packing of its three fields |
| ZendValue.RefcountedIsFlagsByte | Zend/zend_value.h:268 | the word mask test and the flags byte test agree |
| ZendValue.ImmutableMeaning | Zend/zend_value.h:281-282 | immutable exactly when the type is array, the flags are zero and the extra field is zero |
| ZendValue.ExtendedTypes | Zend/zend_value.h:170-178 | each extended type has its base code; all are refcounted; only arrays and objects are collectable; interned strings are not refcounted |
| ZendValue.StrTypeInfo | Zend/zend_value.h:429-437 | a string type, refcounted exactly when not interned |
| ZendValue.BoolTypeInfo | Zend/zend_value.h:412-415 | true or false, not refcounted |
| ZendValue.Refcounted.constructor | Zend/zend_value.h:61-86 | a header with the given count and flags |
| ZendValue.Zval.constructor | Zend/zend_value.h:61-86 | an undefined zval |
| ZendValue.Zval.SetType | Zend/zend_value.h:396-410 | only the type word changes (also `ZVAL_ERROR`, lines 612-614) |
| ZendValue.Zval.SetBool | Zend/zend_value.h:412-415 | the type word becomes true or false |
| ZendValue.Zval.SetLong | Zend/zend_value.h:417-421 | stores the long and `IS_LONG` |
| ZendValue.Zval.SetPointer | Zend/zend_value.h:587-611 | stores the pointer and its internal type |
| ZendValue.Zval.SetStr | Zend/zend_value.h:429-437 | stores the string, refcounted unless interned, without touching its count |
| ZendValue.Zval.SetInternedStr | Zend/zend_value.h:439-444 | stores the string as not refcounted |
| ZendValue.Zval.SetStrCopy | Zend/zend_value.h:453-464 | stores the string and adds a reference unless it is interned |
| ZendValue.Zval.SetCounted | Zend/zend_value.h:446-451 | stores the counted value with its extended type (also `ZVAL_ARR`, `ZVAL_OBJ`, `ZVAL_RES`, `ZVAL_REF` and `ZVAL_AST`, lines 466-585) |
| ZendValue.Zval.SetObjCopy | Zend/zend_value.h:487-493 | stores the object and adds a reference |
| ZendValue.Zval.SetNewRes | Zend/zend_value.h:501-528 | stores a fresh resource with count 1, persistent as asked |
| ZendValue.Zval.CopyValue | Zend/zend_value.h:690-697 | copies value and type word without counting |
| ZendValue.Zval.Copy | Zend/zend_value.h:699-709 | copies and adds a reference exactly when the type is refcounted |
| ZendValue.Zval.CopyValueProp | Zend/zend_value.h:855-856 | copies the whole zval, property flags included |
| ZendValue.Zval.CopyProp | Zend/zend_value.h:857-858 | ZVAL_COPY, then the property flags |
| ZendValue.Zval.Dup | Zend/zend_value.h:711-725 | an array is replaced by a fresh one with count 1; anything else is copied |
| ZendValue.Zval.TryAddref | Zend/zend_value.h:626-630 | one more reference exactly when refcounted |
| ZendValue.Zval.TryDelref | Zend/zend_value.h:632-636 | one reference less exactly when refcounted |
| ZendValue.Zval.SeparateArray | Zend/zend_value.h:811-818 | a shared array is replaced by a fresh one that may be modified in place, and the old one loses a reference unless immutable; an unshared one is left alone |
| ZendObjectsApi.SetObjInvalid | Zend/zend_objects_API.h:35 | sets bit 0 and keeps the others |
| ZendObjectsApi.GetObjBucketNumber | Zend/zend_objects_API.h:37 | the arithmetic shift rounds toward minus infinity |
| ZendObjectsApi.BucketTag | Zend/zend_objects_API.h:39 | the stored word is invalid and reads back as the handle, negative ones included |
| ZendObjectsApi.AddedToFreeList | Zend/zend_objects_API.h:45-48 | the freed bucket links to the old head, becomes the head, and no other bucket changes |
| ZendObjectsApi.FreeListIsLifo | Zend/zend_objects_API.h:45-48 | freeing two handles chains them last in, first out |
| ZendObjectsApi.ObjectsStore.constructor | Zend/zend_objects_API.h:52-57 | an empty store with no free list |
| ZendObjectsApi.ObjectsStore.SetObjBucketNumber | Zend/zend_objects_API.h:39 | only the given bucket changes, to the tag |
| ZendObjectsApi.ObjectsStore.AddToFreeList | Zend/zend_objects_API.h:45-48 | the store becomes AddedToFreeList of its old state |
| ZendPropertyInfo.FromList | Zend/zend_property_info.h:51 | sets the tag bit and keeps the others |
| ZendPropertyInfo.ToList | Zend/zend_property_info.h:52 | clears the tag bit and keeps the others |
| ZendPropertyInfo.RoundTrips | Zend/zend_property_info.h:51-52 | tagging and untagging are inverse on untagged and tagged words |
| ZendPropertyInfo.Idempotent | Zend/zend_property_info.h:51-52 | tagging twice and untagging twice change nothing more |
| ZendPropertyInfo.PointerIsNotList | Zend/zend_property_info.h:46-53 | an aligned pointer reads as not a list and a tagged list reads as one |

## Left out

- Compiling, optimising, persisting and storing a script (`PrecompileFile`, `sapi/was/precompile.cpp:38-105`) are a compiler oracle that returns the body bytes or fails.
- zlib's `crc32` is written out as the reflected CRC-32 (polynomial 0xEDB88320, initial value 0), not linked.
- The return values of `write`, `pwrite`, `lseek` and `ftruncate` in `precompile` are ignored by the source; the model treats those calls as succeeding.
- `precompile` ignores the result of `CommitFile`, and so does `Precompile.Build`: it reports success even when the link fails, and the directory then only lacks the old name.
- Precompile.CrcFromFile: a short `pread` makes the source abort; the model returns `None` instead.
- The `unlinkat` failure case and the `/proc/self/fd` path string are not modelled.
- `Precompile.Build` writes the end record with the 16-bit entry count and the 32-bit sizes truncated, as the source's `LE16`/`LE32` conversions do; the round-trip lemmas assume names under 64 KiB and bodies under 0xffffffff bytes.
- Pointer arithmetic in the index walk is done on offsets; a pointer that would wrap past the end of the address space is not modelled.
- `zend_shared_alloc_aligned`, `zend_map_ptr_extend`, `zend_file_cache_unserialize`, `zend_accel_script_checksum` and `zend_accel_schedule_restart_if_necessary` are oracles. `zend_accel_hash_update` is insert-or-replace.
- ArchiveLoader.LoadFile: the source reads the metainfo and `mem_size` bytes without checking them against the member's size; the model requires those bytes to lie inside the mapping (`Readable`) instead of modelling the out-of-bounds read.
- The metainfo layout is the LP64 one (80 bytes); the metainfo's magic and system id are never checked by the source, and the model does not check them either.
- The `fstat` failure of `zend_archive_open` is folded into `Node.Special`; `open`, `close` and `mmap` are abstracted into a file map and a success flag.
- `zend_zip_cache_close`, `zend_zip_cache_load` and the `efree` of the zip path are not modelled (no memory management).
- MemoryMapping: `munmap` is a log of calls; the pointer value itself is a number.
- `sapi_was_send_headers`, `sapi_was_register_variables` (apart from its host-name step), `add_variable`, the input filter, the logging, output, metrics, wall clock and request-processing functions, `php_was_usage` and `main` are not modelled: they forward to the server library, the PHP runtime or the process.
- `php_getopt` is an oracle: `Parse` takes the list of options it returns.
- Character classes (`isalnum`, `islower`, `toupper` and so on) are those of the "C" locale.
- WasHeaders.ServerName: the `strndup` failure path is not modelled.
- WasHeaders.ServerNameIntended: the `strndup` failure path is not modelled.
- WasRequest.RequestBody.Read: the server's read is modelled as a body and a position at which reads start to fail.
- `zend_type_info.h` is not part of this model; the `MAY_BE_*` values are taken as `1 << code` (so `MAY_BE_BOOL` is bits 2 and 3 and `MAY_BE_ANY` bits 1 to 9).
- ZendType.WithPtrAndKind: requires the kind to be the name bit or the list bit, the two kinds the source ever passes (`Zend/zend_type.h:60`).
- ZendType.ListSize: requires at least one type; at 0 the macro's `(num_types) - 1` wraps around as `size_t`, and the source builds no empty list.
- ZendType.Foreach: requires a list to be present and non-empty; the source's do-while visits one element of an empty list, which it never builds.
- `ZEND_TYPE_LIST_FOREACH`, `ZEND_TYPE_NAME`, `ZEND_TYPE_LITERAL_NAME` and `ZEND_TYPE_LIST` are pointer casts or a plain loop and are covered by `Foreach` and the `ptr` field.
- Refcounts are unbounded naturals; the 32-bit overflow of `GC_ADDREF` is not modelled, and the `GC_*` primitives are field updates.
- `Z_OPT_IMMUTABLE` (`Zend/zend_value.h:284`) expands to `Z_IMMUTABLE(zval_p)`, which names the wrong identifier; only `Z_IMMUTABLE` is modelled.
- The 32-bit path of `ZVAL_COPY_VALUE_EX` is not modelled (LP64 assumed); `ZVAL_DOUBLE` stores a floating-point value and is not modelled.
- References and separation helpers are not modelled: `ZVAL_NEW_EMPTY_REF`, `ZVAL_NEW_REF`, `ZVAL_MAKE_REF_EX`, `ZVAL_NEW_PERSISTENT_REF`, `ZVAL_DEREF`, `ZVAL_DEINDIRECT`, `ZVAL_OPT_DEREF`, `ZVAL_MAKE_REF`, `ZVAL_UNREF`, `ZVAL_COPY_DEREF`, `SEPARATE_STRING`, `SEPARATE_ZVAL_NOREF`, `SEPARATE_ZVAL`. They need the reference object's layout, which this model does not have.
- `ZVAL_COPY_OR_DUP`, `ZVAL_COPY_OR_DUP_PROP` and `ZVAL_NEW_PERSISTENT_ARR` are not modelled. They need the persistent and interned-array allocators.
- ZendValue.Zval.Dup: the duplicated array's contents are not modelled, only its fresh header.
- ZendValue.Zval.TryDelref: requires a positive count on a refcounted value, which `GC_DELREF` asserts in debug builds.
- The rest of the object store API (`zend_objects_store_put` and the functions declared in `Zend/zend_objects_API.h`) is declaration-only here.
- The accessors `Z_TYPE`, `Z_TYPE_FLAGS`, `Z_TYPE_EXTRA`, `IS_OBJ_VALID` and `ZEND_PROPERTY_INFO_SOURCE_IS_LIST` are predicates or functions without a row of their own; their properties are stated by the lemmas above.

## Findings

| source | as written | input that shows it | evidently intended | confidence | as-written member | corrected member |
|---|---|---|---|---|---|---|
| sapi/was/was_main.c:264-266 | the loop over the host name tests `*s`, the first byte, which already passed `isalnum`, so no later byte is ever rejected | the Host header "a b": as written the length is 3 and `SERVER_NAME` becomes "a b" | test `s[i]`, so that a byte other than a letter, digit, '-' or '_' before the ':' gives length 0 | high (not executed) | WasHeaders.GetHostLengthAsWritten | WasHeaders.GetHostLength |

`WasHeaders.ServerName` follows the program and uses the length as written; `WasHeaders.ServerNameIntended` uses the corrected one, and `WasHeaders.ServerNamesAgree` relates the two.
