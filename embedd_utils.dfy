/** The byte packer of embedd_utils.c: a reversing copy and a straight copy. */
module EmbeddUtils {

  /** One byte of memory (uint8_t). */
  type Byte = x: int | 0 <= x < 0x100

  /** uint16_t. */
  type Uint16 = x: int | 0 <= x < 0x1_0000

  /** uint32_t. */
  type Uint32 = x: int | 0 <= x < 0x1_0000_0000

  /** The bytes of `s` in reverse order: the last byte of `s` comes first. */
  function Reverse<T>(s: seq<T>): (r: seq<T>)
    ensures |r| == |s|
  {
    if |s| == 0 then [] else [s[|s| - 1]] + Reverse(s[..|s| - 1])
  }

  /** Position `k` of the reversal holds the byte `|s| - 1 - k` of the original. */
  lemma {:induction false} ReverseAt<T>(s: seq<T>, k: nat)
    requires k < |s|
    ensures Reverse(s)[k] == s[|s| - 1 - k]
  {
    if k > 0 {
      ReverseAt(s[..|s| - 1], k - 1);
    }
  }

  /** Reversal is characterised pointwise: any sequence that is `s` read backwards is Reverse(s). */
  lemma ReverseUnique<T>(s: seq<T>, r: seq<T>)
    requires |r| == |s|
    requires forall k :: 0 <= k < |s| ==> r[k] == s[|s| - 1 - k]
    ensures r == Reverse(s)
  {
    forall k | 0 <= k < |s|
      ensures r[k] == Reverse(s)[k]
    {
      ReverseAt(s, k);
    }
  }

  /** Packing twice gives the original bytes back. */
  lemma ReverseReverse<T>(s: seq<T>)
    ensures Reverse(Reverse(s)) == s
  {
    var r := Reverse(s);
    forall k | 0 <= k < |s|
      ensures Reverse(r)[k] == s[k]
    {
      ReverseAt(r, k);
      ReverseAt(s, |s| - 1 - k);
    }
  }

  /** Reversing a single byte leaves it where it is: packing the one-byte address is a plain copy. */
  lemma ReverseSingle<T>(s: seq<T>)
    requires |s| <= 1
    ensures Reverse(s) == s
  {
  }

  /**
   * embedd_pack(dst + dstOff, src, size): copies `size` bytes of `src` into
   * `dst` from position `dstOff` on, last source byte first, and returns the
   * number of bytes moved. A NULL buffer or a zero size moves nothing and
   * returns 0. The two buffers are distinct objects.
   */
  method Pack(dst: array?<Byte>, dstOff: nat, src: array?<Byte>, size: nat) returns (n: nat)
    requires dst != null && src != null && size > 0 ==>
               dstOff + size <= dst.Length && size <= src.Length && dst != src
    modifies dst
    ensures dst == null || src == null || size == 0 ==>
              n == 0 && (dst != null ==> dst[..] == old(dst[..]))
    ensures dst != null && src != null && size > 0 ==>
              n == size &&
              dst[..] == old(dst[..dstOff]) + Reverse(old(src[..size])) + old(dst[dstOff + size..])
    ensures src != null ==> src[..] == old(src[..])
  {
    if dst == null || src == null {
      return 0;
    }
    if size == 0 {
      return 0;
    }
    ghost var packed := Reverse(src[..size]);
    // The source pointer starts at the last byte and walks down; the destination pointer walks up.
    var srcPos: int := size - 1;
    var dstPos := dstOff;
    var i := 0;
    while i < size
      invariant 0 <= i <= size
      invariant srcPos == size - 1 - i && dstPos == dstOff + i
      invariant dst[..dstOff] == old(dst[..dstOff])
      invariant dst[dstOff..dstOff + i] == packed[..i]
      invariant dst[dstOff + size..] == old(dst[dstOff + size..])
      invariant src[..] == old(src[..])
    {
      ReverseAt(src[..size], i);
      dst[dstPos] := src[srcPos];
      dstPos := dstPos + 1;
      srcPos := srcPos - 1;
      i := i + 1;
    }
    assert dst[..] == dst[..dstOff] + dst[dstOff..dstOff + size] + dst[dstOff + size..];
    return size;
  }

  /** Packing `a` into `b` and then `b` into `c` brings back the bytes of `a`. */
  method PackTwice(a: array<Byte>, b: array<Byte>, c: array<Byte>, size: nat)
    requires size <= a.Length && size <= b.Length && size <= c.Length
    requires a != b && b != c
    modifies b, c
    ensures c[..size] == old(a[..size])
  {
    ghost var original := a[..size];
    var _ := Pack(b, 0, a, size);
    assert b[..size] == Reverse(original);
    var _ := Pack(c, 0, b, size);
    assert c[..size] == Reverse(Reverse(original));
    ReverseReverse(original);
  }

  /**
   * embedd_copy(dst, src, size): memcpy of `size` bytes, returning `size`.
   * There is no NULL guard (both buffers must exist) and, as for memcpy,
   * the buffers must not overlap.
   */
  method Copy(dst: array<Byte>, src: array<Byte>, size: nat) returns (n: nat)
    requires size <= dst.Length && size <= src.Length
    requires size > 0 ==> dst != src
    modifies dst
    ensures n == size
    ensures dst[..] == old(src[..size]) + old(dst[size..])
    ensures src[..] == old(src[..])
  {
    var i := 0;
    while i < size
      invariant 0 <= i <= size
      invariant dst[..i] == old(src[..i])
      invariant dst[i..] == old(dst[i..])
      invariant src[..] == old(src[..])
    {
      dst[i] := src[i];
      i := i + 1;
    }
    assert dst[..] == dst[..size] + dst[size..];
    return size;
  }
}
