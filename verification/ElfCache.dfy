/** The headers of all known platforms, generated once. */
module ElfCache {
  import opened Elf
  import opened ElfTable

  /** The headers of one platform, in the order in which they are made. */
  ghost function HeadersOf(e: ElfPlatform): (r: seq<seq<bv8>>)
    requires ByteOrder(e.data).Some?
    ensures |r| == |Choices(e)|
    ensures forall k :: 0 <= k < |r| ==> r[k] == HeaderBytes(e, ByteOrder(e.data).value, Choices(e)[k])
  {
    seq(|Choices(e)|, k requires 0 <= k < |Choices(e)| => HeaderBytes(e, ByteOrder(e.data).value, Choices(e)[k]))
  }

  lemma HeadersAreThoseGenerated(e: ElfPlatform, h: seq<bv8>)
    requires ByteOrder(e.data).Some?
    ensures h in HeadersOf(e) <==> Generates(e, h)
  {
    hide HeaderBytes, Choices;
    if h in HeadersOf(e) {
      var k :| 0 <= k < |HeadersOf(e)| && HeadersOf(e)[k] == h;
      assert Choices(e)[k] in Choices(e);
    }
    if Generates(e, h) {
      var c :| c in Choices(e) && h == HeaderBytes(e, ByteOrder(e.data).value, c);
      var k :| 0 <= k < |Choices(e)| && Choices(e)[k] == c;
      assert HeadersOf(e)[k] == h;
    }
  }

  /** The map has the headers of the first n rows of the table, and nothing else. */
  ghost predicate HasRows(m: map<string, seq<seq<bv8>>>, n: nat)
    requires n <= |KNOWN_PLATFORMS|
  {
    && (forall i :: 0 <= i < n ==> ByteOrder(KNOWN_PLATFORMS[i].data).Some? && KNOWN_PLATFORMS[i].platform in m
                                   && m[KNOWN_PLATFORMS[i].platform] == HeadersOf(KNOWN_PLATFORMS[i]))
    && (forall p :: p in m ==> exists i :: 0 <= i < n && KNOWN_PLATFORMS[i].platform == p)
  }

  ghost predicate IsKnownHeaders(m: map<string, seq<seq<bv8>>>) {
    HasRows(m, |KNOWN_PLATFORMS|)
  }

  lemma RowsHaveByteOrder(i: nat)
    requires i < |KNOWN_PLATFORMS|
    ensures ByteOrder(KNOWN_PLATFORMS[i].data).Some?
  {
    RowFacts(i);
  }

  lemma NamesDiffer(n: nat)
    requires n < |KNOWN_PLATFORMS|
    ensures forall i :: 0 <= i < n ==> KNOWN_PLATFORMS[i].platform != KNOWN_PLATFORMS[n].platform
  {
    KnownPlatformsDistinguishable();
    hide KNOWN_PLATFORMS;
  }

  lemma OneMoreRow(m: map<string, seq<seq<bv8>>>, n: nat, headers: seq<seq<bv8>>)
    requires n < |KNOWN_PLATFORMS| && HasRows(m, n)
    requires ByteOrder(KNOWN_PLATFORMS[n].data).Some? && headers == HeadersOf(KNOWN_PLATFORMS[n])
    ensures HasRows(m[KNOWN_PLATFORMS[n].platform := headers], n + 1)
  {
    hide HeadersOf, ByteOrder, KNOWN_PLATFORMS;
    NamesDiffer(n);
  }

  /** The contents of the headers, which nothing changes any more. */
  method Snapshot(headers: seq<array<bv8>>, e: ElfPlatform) returns (r: seq<seq<bv8>>)
    requires ByteOrder(e.data).Some? && Hold(headers, e, ByteOrder(e.data).value, Choices(e))
    ensures r == HeadersOf(e)
  {
    hide HeaderBytes, Choices;
    r := [];
    for k := 0 to |headers|
      invariant |r| == k
      invariant forall j :: 0 <= j < k ==> r[j] == headers[j][..]
    {
      r := r + [headers[k][..]];
    }
  }

  class HeaderCache {
    var filled: bool
    var headers: map<string, seq<seq<bv8>>>

    ghost predicate Valid()
      reads this
    {
      (filled ==> IsKnownHeaders(headers)) && (!filled ==> headers == map[])
    }

    constructor ()
      ensures Valid() && !filled
    {
      filled, headers := false, map[];
    }

    /** The first call fills the map; every later one returns the same map. */
    method Get() returns (r: map<string, seq<seq<bv8>>>)
      requires Valid()
      modifies this
      ensures Valid() && filled && r == headers && IsKnownHeaders(r)
      ensures old(filled) ==> headers == old(headers)
    {
      hide HeadersOf, HeaderBytes, Choices, Hold;
      if !filled {
        for n := 0 to |KNOWN_PLATFORMS|
          invariant HasRows(headers, n) && !filled
          modifies this
        {
          var row := KNOWN_PLATFORMS[n];
          var list := Header(row);
          RowsHaveByteOrder(n);
          if list.Ok? {
            var copies := Snapshot(list.value, row);
            OneMoreRow(headers, n, copies);
            headers := headers[row.platform := copies];
          }
        }
        filled := true;
      }
      r := headers;
    }
  }
}
