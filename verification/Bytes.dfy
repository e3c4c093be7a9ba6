/**
 Fixed-width integers in byte buffers, in either byte order: the part of Go's encoding/binary that the
 ELF header generator uses.
 */
module Bytes {

  datatype Endian = Little | Big

  function Hi16(v: bv16): bv8 { (v >> 8) as bv8 }

  function Lo16(v: bv16): bv8 { (v & 0xff) as bv8 }

  function Join16(hi: bv8, lo: bv8): bv16 { (hi as bv16 << 8) | (lo as bv16) }

  function Top32(v: bv32): bv8 { (v >> 24) as bv8 }

  function High32(v: bv32): bv8 { ((v >> 16) & 0xff) as bv8 }

  function Mid32(v: bv32): bv8 { ((v >> 8) & 0xff) as bv8 }

  function Low32(v: bv32): bv8 { (v & 0xff) as bv8 }

  function Join32(b3: bv8, b2: bv8, b1: bv8, b0: bv8): bv32 {
    (b3 as bv32 << 24) | (b2 as bv32 << 16) | (b1 as bv32 << 8) | (b0 as bv32)
  }

  lemma JoinSplit16(v: bv16)
    ensures Join16(Hi16(v), Lo16(v)) == v
  {
  }

  lemma JoinSplit32(v: bv32)
    ensures Join32(Top32(v), High32(v), Mid32(v), Low32(v)) == v
  {
  }

  function U16Bytes(endian: Endian, v: bv16): (s: seq<bv8>)
    ensures |s| == 2
  {
    if endian.Little? then [Lo16(v), Hi16(v)] else [Hi16(v), Lo16(v)]
  }

  function U32Bytes(endian: Endian, v: bv32): (s: seq<bv8>)
    ensures |s| == 4
  {
    if endian.Little?
    then [Low32(v), Mid32(v), High32(v), Top32(v)]
    else [Top32(v), High32(v), Mid32(v), Low32(v)]
  }

  function ReadU16(endian: Endian, s: seq<bv8>, at: nat): bv16
    requires at + 2 <= |s|
  {
    if endian.Little? then Join16(s[at + 1], s[at]) else Join16(s[at], s[at + 1])
  }

  function ReadU32(endian: Endian, s: seq<bv8>, at: nat): bv32
    requires at + 4 <= |s|
  {
    if endian.Little?
    then Join32(s[at + 3], s[at + 2], s[at + 1], s[at])
    else Join32(s[at], s[at + 1], s[at + 2], s[at + 3])
  }

  /** The bytes of s with those from index at onwards overwritten by t. */
  function Splice(s: seq<bv8>, at: nat, t: seq<bv8>): (r: seq<bv8>)
    requires at + |t| <= |s|
    ensures |r| == |s|
    ensures forall k :: 0 <= k < |s| ==> r[k] == if at <= k < at + |t| then t[k - at] else s[k]
  {
    s[..at] + t + s[at + |t|..]
  }

  function Zeros(n: nat): (s: seq<bv8>)
    ensures |s| == n
    ensures forall k :: 0 <= k < n ==> s[k] == 0
  {
    seq(n, _ => 0)
  }

  lemma SpliceIntoZeros(a: seq<bv8>, n: nat, t: seq<bv8>)
    requires |t| <= n
    ensures Splice(a + Zeros(n), |a|, t) == a + t + Zeros(n - |t|)
  {
  }

  lemma SpliceOver(a: seq<bv8>, was: seq<bv8>, b: seq<bv8>, t: seq<bv8>)
    requires |t| == |was|
    ensures Splice(a + was + b, |a|, t) == a + t + b
  {
  }

  /** Reading a 16-bit field back, wherever its two bytes stand. */
  lemma ReadBackU16(endian: Endian, v: bv16, s: seq<bv8>, at: nat)
    requires at + 2 <= |s|
    requires s[at] == U16Bytes(endian, v)[0] && s[at + 1] == U16Bytes(endian, v)[1]
    ensures ReadU16(endian, s, at) == v
  {
    JoinSplit16(v);
    if endian.Little? {
      assert s[at] == Lo16(v) && s[at + 1] == Hi16(v);
    }
  }

  /** Reading a 32-bit field back, wherever its four bytes stand. */
  lemma ReadBackU32(endian: Endian, v: bv32, s: seq<bv8>, at: nat)
    requires at + 4 <= |s|
    requires s[at..at + 4] == U32Bytes(endian, v)
    ensures ReadU32(endian, s, at) == v
  {
    JoinSplit32(v);
    var t := s[at..at + 4];
    assert s[at] == t[0] && s[at + 1] == t[1] && s[at + 2] == t[2] && s[at + 3] == t[3];
  }

  method PutU16(endian: Endian, b: array<bv8>, at: nat, v: bv16)
    requires at + 2 <= b.Length
    modifies b
    ensures b[..] == Splice(old(b[..]), at, U16Bytes(endian, v))
  {
    match endian {
      case Little => b[at], b[at + 1] := Lo16(v), Hi16(v);
      case Big => b[at], b[at + 1] := Hi16(v), Lo16(v);
    }
  }

  method PutU32(endian: Endian, b: array<bv8>, at: nat, v: bv32)
    requires at + 4 <= b.Length
    modifies b
    ensures b[..] == Splice(old(b[..]), at, U32Bytes(endian, v))
  {
    match endian {
      case Little =>
        b[at], b[at + 1], b[at + 2], b[at + 3] := Low32(v), Mid32(v), High32(v), Top32(v);
      case Big =>
        b[at], b[at + 1], b[at + 2], b[at + 3] := Top32(v), High32(v), Mid32(v), Low32(v);
    }
  }
}
