/** The request side of the WAS front end: the joined `Cookie` headers,
    cached for the rest of the request, and reading the request body. */
module WasRequest {
  import opened Wrappers
  import opened Bytes

  /** "; " */
  const COOKIE_SEPARATOR: bytes := [0x3B, 0x20]

  // ---------------------------------------------------------------------
  // Cookies

  /** What `concat_cookies(a, b)` returns when memory is available: a copy
      of `b` when there is no `a`, otherwise `a`, "; " and `b`. */
  function Joined(a: Option<bytes>, b: bytes): bytes
  {
    match a
    case None => b
    case Some(x) => x + COOKIE_SEPARATOR + b
  }

  /** The cookie header values joined with "; ", or `None` for none. */
  function JoinCookies(values: seq<bytes>): (r: Option<bytes>)
    ensures r.None? <==> |values| == 0
  {
    if |values| == 0 then None
    else Some(Joined(JoinCookies(values[..|values| - 1]), values[|values| - 1]))
  }

  /** `concat_cookies`: `strdup(b)`, or `realloc` of `a` to
      `|a| + 2 + |b| + 1` bytes followed by the separator and `b` with its
      NUL. `allocOk` is whether the allocation succeeds; on failure the
      result is NULL. */
  method ConcatCookies(a: Option<bytes>, b: bytes, allocOk: bool) returns (r: Option<bytes>)
    ensures r == if allocOk then Some(Joined(a, b)) else None
  {
    if !allocOk {
      return None;
    }
    if a.None? {
      return Some(b);
    }
    var x := a.value;
    var buffer := new uint8[|x| + |COOKIE_SEPARATOR| + |b| + 1];
    var p := CopyInto(buffer, 0, x);
    p := CopyInto(buffer, p, COOKIE_SEPARATOR);
    p := CopyInto(buffer, p, b + [0]);
    assert buffer[..] == x + COOKIE_SEPARATOR + b + [0];
    return Some(buffer[..p - 1]);
  }

  /** The number of leading allocations that succeed. */
  function FirstFailure(allocOk: seq<bool>): (k: nat)
    ensures k <= |allocOk|
    ensures forall i :: 0 <= i < k ==> allocOk[i]
    ensures k < |allocOk| ==> !allocOk[k]
  {
    if |allocOk| == 0 || !allocOk[0] then 0
    else
      var k := 1 + FirstFailure(allocOk[1..]);
      assert forall i :: 0 < i < k ==> allocOk[i] == allocOk[1..][i - 1];
      k
  }

  /** Joining one more value extends the join. */
  lemma JoinCookiesStep(values: seq<bytes>, i: nat)
    requires i < |values|
    ensures JoinCookies(values[..i + 1]) == Some(Joined(JoinCookies(values[..i]), values[i]))
  {
    assert values[..i + 1][..i] == values[..i];
  }

  /** Stopping early gives a prefix of the full join. */
  lemma {:induction false} JoinCookiesPrefix(values: seq<bytes>, k: nat)
    requires 0 < k <= |values|
    ensures JoinCookies(values[..k]).value <= JoinCookies(values).value
    decreases |values|
  {
    if k < |values| {
      var n := |values| - 1;
      assert values[..n][..k] == values[..k];
      JoinCookiesPrefix(values[..n], k);
      assert values[..n] == values[..n];
      JoinCookiesStep(values, n);
      assert values[..n + 1] == values;
    } else {
      assert values[..k] == values;
    }
  }

  /** The join of one value is that value; between any two consecutive
      values there is exactly one separator. */
  lemma JoinCookiesLength(values: seq<bytes>, k: nat)
    requires 0 < k < |values|
    ensures |JoinCookies(values[..k + 1]).value| == |JoinCookies(values[..k]).value| + |COOKIE_SEPARATOR| + |values[k]|
    ensures JoinCookies(values[..1]) == Some(values[0])
  {
    JoinCookiesStep(values, k);
    JoinCookiesStep(values, 0);
    assert values[..0] == [];
  }

  /** The per-request state `was_cookies`. */
  class Cookies {
    var cached: Option<bytes>

    constructor ()
      ensures cached == None
    {
      cached := None;
    }

    /** `sapi_was_read_cookies`: returns the cached value if there is one.
        Otherwise joins the values of the `Cookie` headers in the order
        the server lists them, stopping at the first failed allocation
        (`allocOk[i]` is whether the `i`-th one succeeds), and caches the
        result. */
    method ReadCookies(values: seq<bytes>, allocOk: seq<bool>) returns (r: Option<bytes>)
      requires |allocOk| == |values|
      modifies this
      ensures old(cached).Some? ==> r == old(cached) && cached == old(cached)
      ensures old(cached).None? ==> r == cached && cached == JoinCookies(values[..FirstFailure(allocOk)])
    {
      if cached.Some? {
        return cached;
      }
      var i := 0;
      while i < |values|
        invariant 0 <= i <= FirstFailure(allocOk)
        invariant cached == JoinCookies(values[..i])
      {
        var joined := ConcatCookies(cached, values[i], allocOk[i]);
        if joined.None? {
          break;
        }
        JoinCookiesStep(values, i);
        cached := joined;
        i := i + 1;
      }
      return cached;
    }

    /** `sapi_was_deactivate`: the cache ends with the request. */
    method Deactivate()
      modifies this
      ensures cached == None
    {
      cached := None;
    }
  }

  // ---------------------------------------------------------------------
  // The request body

  function Min(a: nat, b: nat): nat { if a <= b then a else b }

  /** The request body as the server delivers it: `content` with `pos`
      bytes consumed. A read at or past `failAt` fails; how much a read
      returns is up to the server. */
  class RequestBody {
    var content: bytes
    var pos: nat
    var failAt: nat

    ghost predicate Valid()
      reads this
    {
      pos <= |content|
    }

    constructor (content: bytes, failAt: nat)
      ensures Valid() && this.content == content && pos == 0 && this.failAt == failAt
    {
      this.content := content;
      pos := 0;
      this.failAt := failAt;
    }

    /** `was_simple_read(w, buffer, n)`: -1 on error, 0 at the end of the
        body, otherwise between 1 and `n` of the next bytes (never reading
        past the failure point). */
    method Read(n: nat) returns (nbytes: int, chunk: bytes)
      requires Valid() && n > 0
      modifies this
      ensures Valid() && content == old(content) && failAt == old(failAt)
      ensures old(pos) >= failAt ==> nbytes == -1 && chunk == [] && pos == old(pos)
      ensures old(pos) < failAt && old(pos) == |content| ==> nbytes == 0 && chunk == [] && pos == old(pos)
      ensures old(pos) < failAt && old(pos) < |content| ==>
        0 < nbytes <= n && nbytes == |chunk| && pos == old(pos) + nbytes && pos <= failAt
        && chunk == content[old(pos)..pos]
    {
      if pos >= failAt {
        return -1, [];
      }
      if pos == |content| {
        return 0, [];
      }
      var k :| 1 <= k <= n && pos + k <= |content| && pos + k <= failAt;
      chunk := content[pos..pos + k];
      pos := pos + k;
      nbytes := k;
    }
  }

  /** A read of `count` bytes from position `start` meets an error. */
  predicate ReadFails(start: nat, count: nat, failAt: nat, length: nat)
  {
    count > 0 && failAt <= length && failAt < start + count
  }

  /** `sapi_was_read_post`: reads until `count` bytes are in `buffer` or
      the body ends, returning how many; any failed read returns 0. */
  method ReadPost(body: RequestBody, buffer: array<uint8>, count: nat) returns (r: nat)
    requires body.Valid() && count <= buffer.Length
    modifies body, buffer
    ensures body.Valid() && body.content == old(body.content) && body.failAt == old(body.failAt)
    ensures r <= count
    ensures r == if ReadFails(old(body.pos), count, body.failAt, |body.content|) then 0
                 else Min(count, |body.content| - old(body.pos))
    ensures buffer[..r] == body.content[old(body.pos)..old(body.pos) + r]
    ensures !ReadFails(old(body.pos), count, body.failAt, |body.content|) ==> body.pos == old(body.pos) + r
  {
    ghost var start := body.pos;
    var position := 0;
    while position < count
      invariant body.Valid() && body.content == old(body.content) && body.failAt == old(body.failAt)
      invariant position <= count && body.pos == start + position
      invariant start <= body.failAt ==> body.pos <= body.failAt
      invariant body.failAt < start ==> position == 0
      invariant buffer[..position] == body.content[start..start + position]
      decreases count - position
    {
      var nbytes, chunk := body.Read(count - position);
      if nbytes <= 0 {
        if nbytes < 0 {
          return 0;
        }
        break;
      }
      var next := CopyInto(buffer, position, chunk);
      assert body.content[start..start + next] == body.content[start..start + position] + chunk;
      position := next;
    }
    return position;
  }
}
