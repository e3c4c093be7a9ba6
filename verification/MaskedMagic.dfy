/** Comparing the bytes of a header with the masked magic value of a registry entry. */
module MaskedMagic {

  /** The mask byte for byte k of the magic value. Bytes that the mask is too short for are compared in full. */
  function MaskAt(mask: seq<bv8>, k: nat): bv8 {
    if k < |mask| then mask[k] else 0xff
  }

  /** What byte k of the header has to be: byte k of the *magic* value, masked. */
  function Expected(mask: seq<bv8>, magic: seq<bv8>, k: nat): bv8
    requires k < |magic|
  {
    magic[k] & MaskAt(mask, k)
  }

  /** The test as the code makes it. */
  ghost predicate Matches(header: seq<bv8>, offset: nat, mask: seq<bv8>, magic: seq<bv8>) {
    if magic == [] then offset == 0
    else
      && offset + |magic| <= |header|
      && forall k :: 0 <= k < |magic| ==> header[offset + k] == Expected(mask, magic, k)
  }

  /** A negative offset never reaches this code: its caller skips such entries. */
  method MagicMatch(header: seq<bv8>, offset: nat, mask: seq<bv8>, magic: seq<bv8>) returns (matched: bool)
    ensures matched <==> Matches(header, offset, mask, magic)
  {
    var mismatch := 0;
    var i := offset;
    while i < offset + |magic|
      invariant offset <= i <= offset + |magic|
      invariant i <= |header| || i == offset
      invariant mismatch == if i == offset then 0 else i
      invariant forall k :: 0 <= k < i - offset ==> header[offset + k] == Expected(mask, magic, k)
    {
      if i >= |header| {
        break;
      }
      var m := MaskedByte(mask, magic, i - offset);
      if header[i] != m {
        assert !Matches(header, offset, mask, magic) by {
          assert header[offset + (i - offset)] != Expected(mask, magic, i - offset);
        }
        break;
      }
      mismatch := i + 1;
      i := i + 1;
    }
    matched := mismatch >= offset + |magic|;
  }

  /** m := magic[i], masked only if the mask is long enough. */
  method MaskedByte(mask: seq<bv8>, magic: seq<bv8>, i: nat) returns (m: bv8)
    requires i < |magic|
    ensures m == Expected(mask, magic, i)
  {
    m := magic[i];
    if |mask| > i {
      m := m & mask[i];
    } else {
      KeepAll(m);
    }
  }

  lemma KeepAll(b: bv8)
    ensures b & 0xff == b
  {
  }

  // ---------------------------------------------------------------- against the kernel's rule

  /** The kernel's rule: header and magic agree on every bit that the mask selects. */
  ghost predicate KernelMatches(header: seq<bv8>, offset: nat, mask: seq<bv8>, magic: seq<bv8>) {
    && offset + |magic| <= |header|
    && forall k :: 0 <= k < |magic| ==> (header[offset + k] ^ magic[k]) & MaskAt(mask, k) == 0
  }

  /** The rule of the code's own comment: the header, masked, is the magic value. */
  ghost predicate CommentMatches(header: seq<bv8>, offset: nat, mask: seq<bv8>, magic: seq<bv8>) {
    && offset + |magic| <= |header|
    && forall k :: 0 <= k < |magic| ==> header[offset + k] & MaskAt(mask, k) == magic[k]
  }

  /** No byte of s, taken from index `offset` on, has a bit that the mask does not select. */
  ghost predicate WithinMask(s: seq<bv8>, offset: nat, mask: seq<bv8>, len: nat) {
    && offset + len <= |s|
    && forall k :: 0 <= k < len ==> s[offset + k] & !MaskAt(mask, k) == 0
  }

  lemma ByteRule(h: bv8, g: bv8, m: bv8)
    ensures h == g & m <==> (h ^ g) & m == 0 && h & !m == 0
  {
  }

  lemma CommentByteRule(h: bv8, g: bv8, m: bv8)
    ensures h & m == g <==> (h ^ g) & m == 0 && g & !m == 0
  {
  }

  /** A match is a kernel match in which, besides, the header has no bit outside the mask. */
  lemma MatchesAgainstKernel(header: seq<bv8>, offset: nat, mask: seq<bv8>, magic: seq<bv8>)
    requires magic != []
    ensures Matches(header, offset, mask, magic)
            <==> KernelMatches(header, offset, mask, magic) && WithinMask(header, offset, mask, |magic|)
  {
    if offset + |magic| <= |header| {
      forall k | 0 <= k < |magic|
        ensures header[offset + k] == Expected(mask, magic, k)
                <==> && (header[offset + k] ^ magic[k]) & MaskAt(mask, k) == 0
                     && header[offset + k] & !MaskAt(mask, k) == 0
      {
        ByteRule(header[offset + k], magic[k], MaskAt(mask, k));
      }
    }
  }

  /** The comment describes a kernel match in which, instead, the magic value has no bit outside the mask. */
  lemma CommentAgainstKernel(header: seq<bv8>, offset: nat, mask: seq<bv8>, magic: seq<bv8>)
    ensures CommentMatches(header, offset, mask, magic)
            <==> KernelMatches(header, offset, mask, magic) && WithinMask(magic, 0, mask, |magic|)
  {
    if offset + |magic| <= |header| {
      forall k | 0 <= k < |magic|
        ensures header[offset + k] & MaskAt(mask, k) == magic[k]
                <==> (header[offset + k] ^ magic[k]) & MaskAt(mask, k) == 0 && magic[k] & !MaskAt(mask, k) == 0
        ensures magic[0 + k] == magic[k]
      {
        CommentByteRule(header[offset + k], magic[k], MaskAt(mask, k));
      }
    }
  }

  /**
   Where the kernel sees a match, the code agrees with its comment exactly if header and magic value either both
   stay within the mask or both do not.
   */
  lemma CodeAgreesWithComment(header: seq<bv8>, offset: nat, mask: seq<bv8>, magic: seq<bv8>)
    requires magic != []
    ensures (Matches(header, offset, mask, magic) <==> CommentMatches(header, offset, mask, magic))
            <==> (KernelMatches(header, offset, mask, magic)
                  ==> (WithinMask(header, offset, mask, |magic|) <==> WithinMask(magic, 0, mask, |magic|)))
  {
    MatchesAgainstKernel(header, offset, mask, magic);
    CommentAgainstKernel(header, offset, mask, magic);
  }

  /** Two headers that match the same entry are the same in the range of the entry. */
  lemma MatchFixesRange(h1: seq<bv8>, h2: seq<bv8>, offset: nat, mask: seq<bv8>, magic: seq<bv8>)
    requires Matches(h1, offset, mask, magic) && Matches(h2, offset, mask, magic) && magic != []
    ensures h1[offset..offset + |magic|] == h2[offset..offset + |magic|]
  {
    var a, b := h1[offset..offset + |magic|], h2[offset..offset + |magic|];
    forall k | 0 <= k < |magic|
      ensures a[k] == b[k]
    {
      assert h1[offset + k] == Expected(mask, magic, k);
    }
  }

  /** A header matches the entry made from its own bytes. */
  lemma MatchesOwnBytes(h: seq<bv8>, offset: nat, len: nat)
    requires 0 < len && offset + len <= |h|
    ensures Matches(h, offset, [], h[offset..offset + len])
  {
    var magic := h[offset..offset + len];
    forall k | 0 <= k < len
      ensures h[offset + k] == Expected([], magic, k)
    {
      KeepAll(h[offset + k]);
    }
  }
}
