/** The header handling of the WAS front end: splitting the script's
    response headers for the server and for `was_response_headers()`,
    the `HTTP_*` variable names of request headers, and the host name
    taken from the `Host` header. */
module WasHeaders {
  import opened Wrappers
  import opened Bytes

  /** ':' */
  const COLON: uint8 := 0x3A
  /** ' ' */
  const SPACE: uint8 := 0x20
  /** '-' */
  const DASH: uint8 := 0x2D
  /** '_' */
  const UNDERSCORE: uint8 := 0x5F
  /** "HTTP_" */
  const HTTP_PREFIX: bytes := [0x48, 0x54, 0x54, 0x50, 0x5F]

  // <ctype.h> in the "C" locale

  predicate IsDigit(c: uint8) { 0x30 <= c <= 0x39 }
  predicate IsUpper(c: uint8) { 0x41 <= c <= 0x5A }
  predicate IsLower(c: uint8) { 0x61 <= c <= 0x7A }
  predicate IsAlnum(c: uint8) { IsDigit(c) || IsUpper(c) || IsLower(c) }

  /** The byte at `i` of a C string: its terminator past the end. */
  function At(s: bytes, i: nat): uint8
  {
    if i < |s| then s[i] else 0
  }

  /** `memchr`: the first position at or after `i` holding `c`. */
  function IndexFrom(s: bytes, c: uint8, i: nat): (r: Option<nat>)
    requires i <= |s|
    ensures r.Some? ==> i <= r.value < |s| && s[r.value] == c
    ensures forall k :: i <= k < (if r.Some? then r.value else |s|) ==> s[k] != c
    decreases |s| - i
  {
    if i == |s| then None
    else if s[i] == c then Some(i)
    else IndexFrom(s, c, i + 1)
  }

  /** The first position at or after `i` that is not a space. */
  function SkipSpaces(s: bytes, i: nat): (j: nat)
    requires i <= |s|
    ensures i <= j <= |s|
    ensures forall k :: i <= k < j ==> s[k] == SPACE
    ensures j < |s| ==> s[j] != SPACE
    decreases |s| - i
  {
    if i < |s| && s[i] == SPACE then SkipSpaces(s, i + 1) else i
  }

  /** `memchr` finds `j` when `c` is there and not before it. */
  lemma {:induction false} IndexFromIs(s: bytes, c: uint8, i: nat, j: nat)
    requires i <= j < |s| && s[j] == c
    requires forall k :: i <= k < j ==> s[k] != c
    ensures IndexFrom(s, c, i) == Some(j)
    decreases j - i
  {
    if i < j {
      IndexFromIs(s, c, i + 1, j);
    }
  }

  /** `memchr` finds nothing when `c` is not there. */
  lemma {:induction false} IndexFromNone(s: bytes, c: uint8, i: nat)
    requires i <= |s|
    requires forall k :: i <= k < |s| ==> s[k] != c
    ensures IndexFrom(s, c, i) == None
    decreases |s| - i
  {
    if i < |s| {
      IndexFromNone(s, c, i + 1);
    }
  }

  /** The spaces from `i` end at `j`. */
  lemma {:induction false} SkipSpacesIs(s: bytes, i: nat, j: nat)
    requires i <= j <= |s|
    requires forall k :: i <= k < j ==> s[k] == SPACE
    requires j < |s| ==> s[j] != SPACE
    ensures SkipSpaces(s, i) == j
    decreases j - i
  {
    if i < j {
      SkipSpacesIs(s, i + 1, j);
    }
  }

  /** A header as a name and a value. */
  datatype Header = Header(name: bytes, value: bytes)

  function Spaces(n: nat): (r: bytes)
    ensures |r| == n && forall k :: 0 <= k < n ==> r[k] == SPACE
  {
    seq(n, _ => SPACE)
  }

  /** A name the split accepts: not empty, no ':'. */
  predicate HeaderName(name: bytes)
  {
    |name| > 0 && forall k :: 0 <= k < |name| ==> name[k] != COLON
  }

  /** A value as it comes out of the split: not starting with a space. */
  predicate Trimmed(value: bytes)
  {
    |value| == 0 || value[0] != SPACE
  }

  // ---------------------------------------------------------------------
  // send_was_header

  /** The name and value `send_was_header` hands to the server for one
      response header line, or `None` when it sends nothing: the line has
      no ':' or starts with one. The name is everything before the first
      ':', the value everything after it and the spaces following it. */
  function SplitHeader(data: bytes): (r: Option<Header>)
  {
    match IndexFrom(data, COLON, 0)
    case None => None
    case Some(colon) =>
      if colon == 0 then None
      else Some(Header(data[..colon], data[SkipSpaces(data, colon + 1)..]))
  }

  /** Cutting a line at a position holding ':' and at a later position. */
  lemma CutAround(data: bytes, colon: nat, start: nat)
    requires colon < start <= |data| && data[colon] == COLON
    ensures data == data[..colon] + [COLON] + data[colon + 1..start] + data[start..]
  {
    assert data[..colon] + [COLON] == data[..colon + 1];
    assert data[..colon + 1] + data[colon + 1..start] == data[..start];
  }

  /** A split line is its name, ':', some spaces and its value. */
  lemma SplitHeaderShape(data: bytes)
    ensures SplitHeader(data).None? <==> IndexFrom(data, COLON, 0).None? || (|data| > 0 && data[0] == COLON)
    ensures SplitHeader(data).Some? ==>
      var h := SplitHeader(data).value;
      HeaderName(h.name) && Trimmed(h.value)
      && data == h.name + [COLON] + Spaces(|data| - |h.name| - 1 - |h.value|) + h.value
  {
    var found := IndexFrom(data, COLON, 0);
    if found.Some? && found.value > 0 {
      var colon := found.value;
      var start := SkipSpaces(data, colon + 1);
      assert data[colon + 1..start] == Spaces(start - colon - 1);
      CutAround(data, colon, start);
    }
  }

  /** Joining a name and a trimmed value with ':' and any number of spaces
      splits back into the same name and value. */
  lemma SplitHeaderJoin(name: bytes, n: nat, value: bytes)
    requires HeaderName(name) && Trimmed(value)
    ensures SplitHeader(name + [COLON] + Spaces(n) + value) == Some(Header(name, value))
  {
    var data := name + [COLON] + Spaces(n) + value;
    assert data[|name|] == COLON;
    IndexFromIs(data, COLON, 0, |name|);
    var start := |name| + 1 + n;
    assert start < |data| ==> data[start] == value[0];
    SkipSpacesIs(data, |name| + 1, start);
    assert data[..|name|] == name;
    assert data[start..] == value;
  }

  /** `send_was_header`: sends the split header when there is one. The
      result is true when nothing was to be sent, and otherwise whatever
      `was_simple_set_header_n` answers (`setOk`). */
  method SendWasHeader(data: bytes, setOk: bool) returns (ok: bool, sent: Option<Header>)
    ensures sent == SplitHeader(data)
    ensures ok == (sent.None? || setOk)
  {
    var colon := IndexFrom(data, COLON, 0);
    if colon.None? || colon.value == 0 {
      return true, None;
    }
    var value := colon.value + 1;
    while value < |data| && data[value] == SPACE
      invariant colon.value + 1 <= value <= |data|
      invariant SkipSpaces(data, value) == SkipSpaces(data, colon.value + 1)
      decreases |data| - value
    {
      value := value + 1;
    }
    sent := Some(Header(data[..colon.value], data[value..]));
    ok := setOk;
  }

  // ---------------------------------------------------------------------
  // was_response_headers

  /** The end of the name `[0, n)` once trailing spaces are dropped. */
  function TrimEnd(s: bytes, n: nat): (m: nat)
    requires n <= |s|
    ensures m <= n
    ensures forall k :: m <= k < n ==> s[k] == SPACE
    ensures m > 0 ==> s[m - 1] != SPACE
  {
    if n > 0 && s[n - 1] == SPACE then TrimEnd(s, n - 1) else n
  }

  /** The entry `was_response_headers()` makes of one header line, or
      `None` when it skips the line: no ':', or nothing but spaces before
      it. The name loses its trailing spaces, the value its leading ones. */
  function ResponseHeader(data: bytes): (r: Option<Header>)
    ensures r.Some? ==> |r.value.name| > 0 && Trimmed(r.value.value)
    ensures r.Some? ==> r.value.name[|r.value.name| - 1] != SPACE
  {
    match IndexFrom(data, COLON, 0)
    case None => None
    case Some(colon) =>
      var n := TrimEnd(data, colon);
      if n == 0 then None else Some(Header(data[..n], data[SkipSpaces(data, colon + 1)..]))
  }

  /** The parsing of one line in `was_response_headers()`. */
  method ParseResponseHeader(data: bytes) returns (r: Option<Header>)
    ensures r == ResponseHeader(data)
  {
    var colon := IndexFrom(data, COLON, 0);
    if colon.None? {
      return None;
    }
    var nameLength: nat := colon.value;
    while nameLength > 0 && data[nameLength - 1] == SPACE
      invariant nameLength <= colon.value
      invariant TrimEnd(data, nameLength) == TrimEnd(data, colon.value)
    {
      nameLength := nameLength - 1;
    }
    if nameLength == 0 {
      return None;
    }
    var value := colon.value + 1;
    while value < |data| && data[value] == SPACE
      invariant colon.value + 1 <= value <= |data|
      invariant SkipSpaces(data, value) == SkipSpaces(data, colon.value + 1)
      decreases |data| - value
    {
      value := value + 1;
    }
    return Some(Header(data[..nameLength], data[value..]));
  }

  /** `add_assoc_string_ex`: a name already in the array gets the new
      value in its old position; a new name is appended. */
  function Assoc(arr: seq<Header>, h: Header): (r: seq<Header>)
    ensures |r| == |arr| || |r| == |arr| + 1
  {
    if |arr| == 0 then [h]
    else if arr[0].name == h.name then [h] + arr[1..]
    else [arr[0]] + Assoc(arr[1..], h)
  }

  /** The value stored under `name`. */
  function Lookup(arr: seq<Header>, name: bytes): Option<bytes>
  {
    if |arr| == 0 then None
    else if arr[0].name == name then Some(arr[0].value)
    else Lookup(arr[1..], name)
  }

  /** The array `was_response_headers()` returns for the header lines. */
  function Collect(lines: seq<bytes>): seq<Header>
  {
    if |lines| == 0 then []
    else
      var prev := Collect(lines[..|lines| - 1]);
      match ResponseHeader(lines[|lines| - 1])
      case None => prev
      case Some(h) => Assoc(prev, h)
  }

  /** The value of the last line whose name is `name`. */
  function LastValue(lines: seq<bytes>, name: bytes): Option<bytes>
  {
    if |lines| == 0 then None
    else
      var h := ResponseHeader(lines[|lines| - 1]);
      if h.Some? && h.value.name == name then Some(h.value.value)
      else LastValue(lines[..|lines| - 1], name)
  }

  lemma {:induction false} AssocLookup(arr: seq<Header>, h: Header, name: bytes)
    ensures Lookup(Assoc(arr, h), name) == if name == h.name then Some(h.value) else Lookup(arr, name)
    decreases |arr|
  {
    if |arr| > 0 && arr[0].name != h.name {
      AssocLookup(arr[1..], h, name);
    }
  }

  /** Later lines win: each name maps to the value of its last line. */
  lemma {:induction false} CollectLookup(lines: seq<bytes>, name: bytes)
    ensures Lookup(Collect(lines), name) == LastValue(lines, name)
    decreases |lines|
  {
    if |lines| > 0 {
      CollectLookup(lines[..|lines| - 1], name);
      var h := ResponseHeader(lines[|lines| - 1]);
      if h.Some? {
        AssocLookup(Collect(lines[..|lines| - 1]), h.value, name);
      }
    }
  }

  /** `was_response_headers()`: one pass over the response header lines. */
  method ResponseHeaders(lines: seq<bytes>) returns (arr: seq<Header>)
    ensures arr == Collect(lines)
  {
    arr := [];
    var i := 0;
    while i < |lines|
      invariant 0 <= i <= |lines|
      invariant arr == Collect(lines[..i])
    {
      var h := ParseResponseHeader(lines[i]);
      assert lines[..i + 1][..i] == lines[..i];
      if h.Some? {
        arr := Assoc(arr, h.value);
      }
      i := i + 1;
    }
    assert lines[..i] == lines;
  }

  // ---------------------------------------------------------------------
  // add_header_variable

  /** One byte of a header name in its variable name: lower case to upper
      case, upper case and digits kept, anything else '_'. */
  function Mangle(c: uint8): (r: uint8)
    ensures IsUpper(r) || IsDigit(r) || r == UNDERSCORE
  {
    if IsLower(c) then c - 0x20
    else if IsUpper(c) || IsDigit(c) then c
    else UNDERSCORE
  }

  /** The variable `add_header_variable` registers a header under. */
  function HeaderVariable(name: bytes): (r: bytes)
    ensures |r| == |HTTP_PREFIX| + |name| && r[..|HTTP_PREFIX|] == HTTP_PREFIX
    ensures forall k :: |HTTP_PREFIX| <= k < |r| ==> r[k] == Mangle(name[k - |HTTP_PREFIX|])
  {
    HTTP_PREFIX + seq(|name|, k requires 0 <= k < |name| => Mangle(name[k]))
  }

  /** `toupper` */
  function ToUpper(c: uint8): uint8
  {
    if IsLower(c) then c - 0x20 else c
  }

  /** Mangling an already mangled byte changes nothing. */
  lemma MangleIdempotent(c: uint8)
    ensures Mangle(Mangle(c)) == Mangle(c)
  {
  }

  /** The variable name holds only upper case letters, digits and '_',
      and mangling its tail again gives it back. */
  lemma HeaderVariableIsCanonical(name: bytes)
    ensures var v := HeaderVariable(name);
      (forall k :: 0 <= k < |v| ==> IsUpper(v[k]) || IsDigit(v[k]) || v[k] == UNDERSCORE)
      && HeaderVariable(v[|HTTP_PREFIX|..]) == v
  {
    var v := HeaderVariable(name);
    forall k | |HTTP_PREFIX| <= k < |v|
      ensures Mangle(v[k]) == v[k]
    {
      MangleIdempotent(name[k - |HTTP_PREFIX|]);
    }
  }

  /** Header names that differ only in case share one variable. */
  lemma HeaderVariableIgnoresCase(a: bytes, b: bytes)
    requires |a| == |b| && forall k :: 0 <= k < |a| ==> ToUpper(a[k]) == ToUpper(b[k])
    ensures HeaderVariable(a) == HeaderVariable(b)
  {
    var va := HeaderVariable(a);
    var vb := HeaderVariable(b);
    forall k | 0 <= k < |va|
      ensures va[k] == vb[k]
    {
      if k >= |HTTP_PREFIX| {
        var c, d := a[k - |HTTP_PREFIX|], b[k - |HTTP_PREFIX|];
        assert ToUpper(c) == ToUpper(d);
      }
    }
  }

  /** `add_header_variable`: fills a stack buffer of `5 + strlen(name) + 1`
      bytes with the variable name and its NUL. */
  method AddHeaderVariable(name: bytes) returns (buffer: array<uint8>)
    ensures fresh(buffer)
    ensures buffer.Length == |HTTP_PREFIX| + |name| + 1
    ensures buffer[..] == HeaderVariable(name) + [0]
  {
    buffer := new uint8[|HTTP_PREFIX| + |name| + 1];
    var p := CopyInto(buffer, 0, HTTP_PREFIX);
    var i := 0;
    while i < |name|
      invariant 0 <= i <= |name| && p == |HTTP_PREFIX| + i
      invariant buffer[..p] == HeaderVariable(name[..i])
    {
      var c := name[i];
      if IsLower(c) {
        buffer[p] := c - 0x20;
      } else if IsUpper(c) || IsDigit(c) {
        buffer[p] := c;
      } else {
        buffer[p] := UNDERSCORE;
      }
      assert buffer[..p + 1] == HeaderVariable(name[..i + 1]);
      p := p + 1;
      i := i + 1;
    }
    buffer[p] := 0;
    assert name[..i] == name;
    assert buffer[..] == buffer[..p] + [0];
  }

  // ---------------------------------------------------------------------
  // get_host_length

  /** A byte allowed in a host name after the first. */
  predicate IsHostChar(c: uint8)
  {
    IsAlnum(c) || c == DASH || c == UNDERSCORE
  }

  /** The position of the first ':' at or after `i`, or the length. */
  function ColonOrEnd(s: bytes, i: nat): (n: nat)
    requires i <= |s|
    ensures i <= n <= |s| && (n < |s| ==> s[n] == COLON)
    ensures forall k :: i <= k < n ==> s[k] != COLON
  {
    match IndexFrom(s, COLON, i)
    case None => |s|
    case Some(n) => n
  }

  /** `get_host_length` as written: 0 unless the first byte is
      alphanumeric, otherwise the position of the first ':' or the end.
      The loop meant to check the bytes in between tests `*s`, the first
      byte, which is already known to be alphanumeric. */
  function HostLengthAsWritten(s: bytes): nat
  {
    if |s| == 0 || !IsAlnum(s[0]) then 0 else ColonOrEnd(s, 1)
  }

  /** The loop of `get_host_length` as written. */
  method GetHostLengthAsWritten(s: bytes) returns (n: nat)
    requires NoNul(s)
    ensures n == HostLengthAsWritten(s)
  {
    var first := At(s, 0);
    if !IsAlnum(first) {
      return 0;
    }
    var i := 1;
    while At(s, i) != 0 && At(s, i) != COLON
      invariant 1 <= i <= |s|
      invariant ColonOrEnd(s, i) == ColonOrEnd(s, 1)
      decreases |s| - i
    {
      if !IsAlnum(first) && first != DASH && first != UNDERSCORE {
        // The source returns 0 here. The test is on the first byte, which
        // passed `isalnum` above, so this branch is never taken.
        assert false;
      }
      i := i + 1;
    }
    return i;
  }

  /** `get_host_length` as intended: every byte before the ':' or the end
      is checked, and any that is not a host character gives 0. */
  function HostLength(s: bytes): (n: nat)
  {
    if |s| == 0 || !IsAlnum(s[0]) then 0
    else if forall k :: 1 <= k < ColonOrEnd(s, 1) ==> IsHostChar(s[k]) then ColonOrEnd(s, 1)
    else 0
  }

  /** `get_host_length` with the loop testing `s[i]`. */
  method GetHostLength(s: bytes) returns (n: nat)
    requires NoNul(s)
    ensures n == HostLength(s)
  {
    if !IsAlnum(At(s, 0)) {
      return 0;
    }
    var i := 1;
    while At(s, i) != 0 && At(s, i) != COLON
      invariant 1 <= i <= |s|
      invariant ColonOrEnd(s, i) == ColonOrEnd(s, 1)
      invariant forall k :: 1 <= k < i ==> IsHostChar(s[k])
      decreases |s| - i
    {
      if !IsAlnum(At(s, i)) && At(s, i) != DASH && At(s, i) != UNDERSCORE {
        return 0;
      }
      i := i + 1;
    }
    return i;
  }

  /** A nonzero host length covers an alphanumeric byte followed by host
      characters, ending at a ':' or at the end of the header; and every
      such prefix is accepted. */
  lemma HostLengthMeaning(s: bytes, n: nat)
    requires 0 < n <= |s|
    ensures HostLength(s) == n <==>
      IsAlnum(s[0]) && (forall k :: 1 <= k < n ==> IsHostChar(s[k])) && (n == |s| || s[n] == COLON)
  {
    if IsAlnum(s[0]) && (forall k :: 1 <= k < n ==> IsHostChar(s[k])) && (n == |s| || s[n] == COLON) {
      if n < |s| {
        IndexFromIs(s, COLON, 1, n);
      } else {
        IndexFromNone(s, COLON, 1);
      }
    }
  }

  /** As written, nothing after the first byte is ever rejected. */
  lemma AsWrittenNeverRejectsLater(s: bytes)
    requires |s| > 0 && IsAlnum(s[0])
    ensures HostLengthAsWritten(s) == ColonOrEnd(s, 1) > 0
  {
  }

  /** "a b": as written the host name is the whole "a b"; as intended the
      space makes it invalid. */
  lemma HostWithSpace()
    ensures HostLengthAsWritten([0x61, 0x20, 0x62]) == 3
    ensures HostLength([0x61, 0x20, 0x62]) == 0
  {
    var s: bytes := [0x61, 0x20, 0x62];
    assert ColonOrEnd(s, 1) == 3 by {
      assert IndexFrom(s, COLON, 1) == None;
    }
    assert !IsHostChar(s[1]);
  }

  /** `p` is the host name at the head of the header `h`: a non-empty
      prefix without ':' that ends at a ':' or at the end of `h`. */
  predicate HostPrefix(h: bytes, p: bytes)
  {
    0 < |p| <= |h| && p == h[..|p|] && (|p| == |h| || h[|p|] == COLON) &&
    forall k :: 0 <= k < |p| ==> p[k] != COLON
  }

  /** `SERVER_NAME` as the program registers it, with `get_host_length`
      as written: the Host header up to its first ':', whenever the header
      starts with an alphanumeric byte. No later byte is checked. */
  function ServerName(host: Option<bytes>): (r: Option<bytes>)
    ensures r.Some? <==> host.Some? && 0 < |host.value| && IsAlnum(host.value[0])
    ensures r.Some? ==> HostPrefix(host.value, r.value)
  {
    match host
    case None => None
    case Some(h) =>
      var n := HostLengthAsWritten(h);
      if 0 < n <= |h| then Some(h[..n]) else None
  }

  /** `SERVER_NAME` with the corrected `get_host_length`: registered only
      when every byte of the host name is a host character. */
  function ServerNameIntended(host: Option<bytes>): (r: Option<bytes>)
    ensures r.Some? <==> host.Some? && 0 < HostLength(host.value)
    ensures r.Some? ==> HostPrefix(host.value, r.value) && IsAlnum(r.value[0]) &&
                        (forall k :: 0 <= k < |r.value| ==> IsHostChar(r.value[k]))
  {
    match host
    case None => None
    case Some(h) =>
      var n := HostLength(h);
      if 0 < n <= |h| then Some(h[..n]) else None
  }

  /** Where the corrected check accepts the host, the program registers the
      same `SERVER_NAME`; "a b" is registered only as written. */
  lemma ServerNamesAgree(host: Option<bytes>)
    ensures ServerNameIntended(host).Some? ==> ServerName(host) == ServerNameIntended(host)
    ensures ServerName(Some([0x61, 0x20, 0x62])) == Some([0x61, 0x20, 0x62])
    ensures ServerNameIntended(Some([0x61, 0x20, 0x62])) == None
  {
    HostWithSpace();
    var s: bytes := [0x61, 0x20, 0x62];
    assert s[..3] == s;
    if host.Some? && 0 < HostLength(host.value) {
      AsWrittenNeverRejectsLater(host.value);
    }
  }
}
