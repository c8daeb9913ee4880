/** memcpy.c: a copy by aligned words, forwards or backwards, over one byte-addressed
    memory whose indices are the addresses. */
module Memcpy {

  newtype Byte = b: int | 0 <= b < 256

  /** The memory after the bytes of a region are all read and then written: memmove,
      section 7.21.2.2 of ISO/IEC 9899:1999. */
  function Moved(m: seq<Byte>, dst: nat, src: nat, n: nat): (r: seq<Byte>)
    requires dst + n <= |m| && src + n <= |m|
    ensures |r| == |m|
    decreases n
  {
    if n == 0 then m else Moved(m, dst, src, n - 1)[dst + n - 1 := m[src + n - 1]]
  }

  /** What memmove promises about one byte of the memory. */
  function ByteAfter(m: seq<Byte>, dst: nat, src: nat, n: nat, i: nat): Byte
    requires src + n <= |m| && i < |m|
  {
    if dst <= i < dst + n then m[src + i - dst] else m[i]
  }

  lemma {:induction false} MovedAt(m: seq<Byte>, dst: nat, src: nat, n: nat, i: nat)
    requires dst + n <= |m| && src + n <= |m| && i < |m|
    ensures Moved(m, dst, src, n)[i] == ByteAfter(m, dst, src, n, i)
    decreases n
  {
    if n > 0 {
      MovedAt(m, dst, src, n - 1, i);
    }
  }

  /** Any memory with those bytes is that memory. */
  lemma MovedIs(m: seq<Byte>, dst: nat, src: nat, n: nat, r: seq<Byte>)
    requires dst + n <= |m| && src + n <= |m| && |r| == |m|
    requires forall i :: 0 <= i < |m| ==> r[i] == ByteAfter(m, dst, src, n, i)
    ensures r == Moved(m, dst, src, n)
  {
    var q := Moved(m, dst, src, n);
    forall i | 0 <= i < |m|
      ensures r[i] == q[i]
    {
      MovedAt(m, dst, src, n, i);
    }
  }

  /** Ascending copies compose when the destination is below the source. */
  lemma MovedUp(m: seq<Byte>, dst: nat, src: nat, a: nat, b: nat)
    requires dst <= src && src + a + b <= |m|
    ensures Moved(Moved(m, dst, src, a), dst + a, src + a, b) == Moved(m, dst, src, a + b)
  {
    var half := Moved(m, dst, src, a);
    var r := Moved(half, dst + a, src + a, b);
    forall i | 0 <= i < |m|
      ensures r[i] == ByteAfter(m, dst, src, a + b, i)
    {
      MovedAt(half, dst + a, src + a, b, i);
      MovedAt(m, dst, src, a, i);
      if dst + a <= i < dst + a + b {
        MovedAt(m, dst, src, a, src + i - dst);
      }
    }
    MovedIs(m, dst, src, a + b, r);
  }

  /** Descending copies compose when it is above. */
  lemma MovedDown(m: seq<Byte>, dst: nat, src: nat, a: nat, b: nat)
    requires src <= dst && dst + a + b <= |m|
    ensures Moved(Moved(m, dst + b, src + b, a), dst, src, b) == Moved(m, dst, src, a + b)
  {
    var half := Moved(m, dst + b, src + b, a);
    var r := Moved(half, dst, src, b);
    forall i | 0 <= i < |m|
      ensures r[i] == ByteAfter(m, dst, src, a + b, i)
    {
      MovedAt(half, dst, src, b, i);
      MovedAt(m, dst + b, src + b, a, i);
      if dst <= i < dst + b {
        MovedAt(m, dst + b, src + b, a, src + i - dst);
      }
    }
    MovedIs(m, dst, src, a + b, r);
  }

  // ----- alignment

  /** The mask tests of the code, for words of four bytes. */
  lemma MaskIsAlignment(s: bv32, d: bv32)
    ensures ((s | d) & 3 != 0) <==> (s % 4 != 0 || d % 4 != 0)
    ensures ((s ^ d) & 3 != 0) <==> s % 4 != d % 4
    ensures s & 3 == s % 4
  {
  }

  /** Multiples of the word size, without division. */
  predicate Aligned(a: nat, w: nat)
    requires 0 < w
  {
    a == 0 || (w <= a && Aligned(a - w, w))
  }

  lemma {:induction false} AlignedIsMod(a: nat, w: nat)
    requires 0 < w
    ensures Aligned(a, w) <==> a % w == 0
  {
    if w <= a {
      AlignedIsMod(a - w, w);
      ModLess(a, w);
    } else {
      SmallMod(a, w);
    }
  }

  lemma ModLess(a: nat, w: nat)
    requires 0 < w <= a
    ensures (a - w) % w == a % w && (a - w) / w == a / w - 1
  {
    DivModUnique(a - w, w, a / w - 1, a % w);
  }

  lemma SmallMod(a: nat, w: nat)
    requires a < w
    ensures a % w == a && a / w == 0
  {
    DivModUnique(a, w, 0, a);
  }

  lemma DivModUnique(a: int, w: nat, q: int, r: nat)
    requires r < w && a == q * w + r
    ensures a / w == q && a % w == r
  {
    Unique(w, q, r, a / w, a % w);
  }

  lemma Unique(w: nat, q: int, r: nat, p: int, s: nat)
    requires q * w + r == p * w + s && r < w && s < w
    ensures p == q && r == s
  {
    if p > q {
      Gap(q, p, w);
    } else if p < q {
      Gap(p, q, w);
    }
  }

  lemma Gap(q: int, p: int, w: nat)
    requires q < p
    ensures q * w + w <= p * w
  {
    assert (p - q - 1) * w >= 0;
  }

  /** `t` words have this many bytes. */
  function Size(t: nat, w: nat): nat
  {
    if t == 0 then 0 else Size(t - 1, w) + w
  }

  lemma {:induction false} WholeWords(length: nat, w: nat)
    requires 0 < w
    ensures Size(length / w, w) + length % w == length && length % w < w
    decreases length
  {
    if length < w {
      SmallMod(length, w);
    } else {
      ModLess(length, w);
      WholeWords(length - w, w);
    }
  }

  // ----- the loops

  /** One word access; the machine wants both addresses aligned. */
  method CopyWord(mem: array<Byte>, dst: nat, src: nat, wsize: nat)
    requires 0 < wsize && Aligned(dst, wsize) && Aligned(src, wsize)
    requires dst + wsize <= mem.Length && src + wsize <= mem.Length
    modifies mem
    ensures mem[..] == Moved(old(mem[..]), dst, src, wsize)
  {
    ghost var m := mem[..];
    forall i | dst <= i < dst + wsize {
      mem[i] := mem[src + i - dst];
    }
    MovedIs(m, dst, src, wsize, mem[..]);
  }

  method CopyByte(mem: array<Byte>, dst: nat, src: nat)
    requires dst < mem.Length && src < mem.Length
    modifies mem
    ensures mem[..] == Moved(old(mem[..]), dst, src, 1)
  {
    ghost var m := mem[..];
    mem[dst] := mem[src];
    MovedIs(m, dst, src, 1, mem[..]);
  }

  /** The do-while loop over bytes, upwards. */
  method BytesUp(mem: array<Byte>, dst0: nat, src0: nat, t0: nat)
    requires 0 < t0 && dst0 <= src0 && src0 + t0 <= mem.Length
    modifies mem
    ensures mem[..] == Moved(old(mem[..]), dst0, src0, t0)
  {
    ghost var m := mem[..];
    var dst, src, t := dst0, src0, t0;
    while t > 0
      invariant t <= t0 && dst == dst0 + (t0 - t) && src == src0 + (t0 - t)
      invariant mem[..] == Moved(m, dst0, src0, t0 - t)
    {
      MovedUp(m, dst0, src0, t0 - t, 1);
      CopyByte(mem, dst, src);
      dst, src, t := dst + 1, src + 1, t - 1;
    }
  }

  /** A word more of a copy that has done `done` bytes. */
  method WordUp(mem: array<Byte>, dst: nat, src: nat, wsize: nat, ghost m: seq<Byte>, ghost dst0: nat, ghost src0: nat, ghost done: nat)
    requires 0 < wsize && Aligned(dst, wsize) && Aligned(src, wsize) && dst0 <= src0 && dst == dst0 + done && src == src0 + done
    requires |m| == mem.Length && src + wsize <= |m| && mem[..] == Moved(m, dst0, src0, done)
    modifies mem
    ensures mem[..] == Moved(m, dst0, src0, done + wsize)
    ensures Aligned(dst + wsize, wsize) && Aligned(src + wsize, wsize)
  {
    MovedUp(m, dst0, src0, done, wsize);
    CopyWord(mem, dst, src, wsize);
  }

  method WordsUp(mem: array<Byte>, dst0: nat, src0: nat, t0: nat, wsize: nat)
    requires 0 < t0 && 0 < wsize && Aligned(dst0, wsize) && Aligned(src0, wsize)
    requires dst0 <= src0 && src0 + Size(t0, wsize) <= mem.Length
    modifies mem
    ensures mem[..] == Moved(old(mem[..]), dst0, src0, Size(t0, wsize))
  {
    ghost var m, done := mem[..], 0;
    assert Moved(m, dst0, src0, done) == m;
    hide Moved, Aligned;
    var dst, src, t := dst0, src0, t0;
    while t > 0
      invariant t <= t0 && done + Size(t, wsize) == Size(t0, wsize) && dst == dst0 + done && src == src0 + done
      invariant Aligned(dst, wsize) && Aligned(src, wsize)
      invariant mem[..] == Moved(m, dst0, src0, done)
    {
      WordUp(mem, dst, src, wsize, m, dst0, src0, done);
      dst, src, t, done := dst + wsize, src + wsize, t - 1, done + wsize;
    }
  }

  method BytesDown(mem: array<Byte>, dst0: nat, src0: nat, t0: nat)
    requires 0 < t0 <= src0 <= dst0 <= mem.Length
    modifies mem
    ensures mem[..] == Moved(old(mem[..]), dst0 - t0, src0 - t0, t0)
  {
    ghost var m := mem[..];
    var dst, src, t := dst0, src0, t0;
    while t > 0
      invariant t <= t0 && dst == dst0 - (t0 - t) && src == src0 - (t0 - t)
      invariant mem[..] == Moved(m, dst, src, t0 - t)
    {
      dst, src := dst - 1, src - 1;
      MovedDown(m, dst, src, t0 - t, 1);
      CopyByte(mem, dst, src);
      t := t - 1;
    }
  }

  method WordDown(mem: array<Byte>, dst: nat, src: nat, wsize: nat, ghost m: seq<Byte>, ghost done: nat)
    requires 0 < wsize <= src <= dst && Aligned(dst, wsize) && Aligned(src, wsize)
    requires |m| == mem.Length && dst + done <= |m| && mem[..] == Moved(m, dst, src, done)
    modifies mem
    ensures mem[..] == Moved(m, dst - wsize, src - wsize, done + wsize)
    ensures Aligned(dst - wsize, wsize) && Aligned(src - wsize, wsize)
  {
    MovedDown(m, dst - wsize, src - wsize, done, wsize);
    CopyWord(mem, dst - wsize, src - wsize, wsize);
  }

  method WordsDown(mem: array<Byte>, dst0: nat, src0: nat, t0: nat, wsize: nat)
    requires 0 < t0 && 0 < wsize && Aligned(dst0, wsize) && Aligned(src0, wsize)
    requires Size(t0, wsize) <= src0 <= dst0 <= mem.Length
    modifies mem
    ensures mem[..] == Moved(old(mem[..]), dst0 - Size(t0, wsize), src0 - Size(t0, wsize), Size(t0, wsize))
  {
    ghost var m, done := mem[..], 0;
    assert Moved(m, dst0, src0, done) == m;
    hide Moved, Aligned;
    var dst, src, t := dst0, src0, t0;
    while t > 0
      invariant t <= t0 && done + Size(t, wsize) == Size(t0, wsize) && dst == dst0 - done && src == src0 - done
      invariant Aligned(dst, wsize) && Aligned(src, wsize)
      invariant mem[..] == Moved(m, dst, src, done)
    {
      WordDown(mem, dst, src, wsize, m, done);
      dst, src, t, done := dst - wsize, src - wsize, t - 1, done + wsize;
    }
  }

  // ----- memcpy

  /** Adding the leading bytes, or taking the trailing ones off, aligns an address. */
  lemma Lead(a: nat, w: nat)
    requires 0 < w
    ensures Aligned(a + (w - a % w), w) && a % w <= a && Aligned(a - a % w, w)
  {
    var q, r := a / w, a % w;
    assert a == q * w + r;
    assert a + (w - r) == (q + 1) * w;
    DivModUnique(a + (w - r), w, q + 1, 0);
    DivModUnique(a - r, w, q, 0);
    AlignedIsMod(a + (w - r), w);
    AlignedIsMod(a - r, w);
  }

  /** How many bytes the upward copy takes singly before whole words can follow: all of
      them when the addresses are misaligned differently or there are too few. */
  method LeadUp(dst: nat, src: nat, length: nat, wsize: nat) returns (t: nat)
    requires 0 < wsize && 0 < length && !(Aligned(dst, wsize) && Aligned(src, wsize))
    ensures 0 < t <= length
    ensures t == length || (Aligned(dst + t, wsize) && Aligned(src + t, wsize))
  {
    AlignedIsMod(src, wsize);
    AlignedIsMod(dst, wsize);
    Lead(src, wsize);
    Lead(dst, wsize);
    if src % wsize != dst % wsize || length < wsize {
      t := length;
    } else {
      t := wsize - src % wsize;
    }
  }

  /** The same from the upper end. */
  method LeadDown(dst: nat, src: nat, length: nat, wsize: nat) returns (t: nat)
    requires 0 < wsize && 0 < length <= src && length <= dst && !(Aligned(dst, wsize) && Aligned(src, wsize))
    ensures 0 < t <= length
    ensures t == length || (Aligned(dst - t, wsize) && Aligned(src - t, wsize))
  {
    AlignedIsMod(src, wsize);
    AlignedIsMod(dst, wsize);
    Lead(src, wsize);
    Lead(dst, wsize);
    if src % wsize != dst % wsize || length <= wsize {
      t := length;
    } else {
      t := src % wsize;
    }
  }

  /** `(t | dst) & wmask` is zero. */
  method BothAligned(dst: nat, src: nat, wsize: nat) returns (both: bool)
    requires 0 < wsize
    ensures both <==> Aligned(dst, wsize) && Aligned(src, wsize)
  {
    AlignedIsMod(src, wsize);
    AlignedIsMod(dst, wsize);
    both := src % wsize == 0 && dst % wsize == 0;
  }

  /** The upward half: leading bytes until both addresses are aligned, whole words,
      trailing bytes. */
  method CopyUp(mem: array<Byte>, dst: nat, src: nat, length: nat, wsize: nat)
    requires 0 < wsize && 0 < length && dst < src && src + length <= mem.Length
    modifies mem
    ensures mem[..] == Moved(old(mem[..]), dst, src, length)
  {
    var both := BothAligned(dst, src, wsize);
    var t := 0;
    if !both {
      t := LeadUp(dst, src, length, wsize);
      BytesUp(mem, dst, src, t);
    }
    MovedUp(old(mem[..]), dst, src, t, length - t);
    RestUp(mem, dst + t, src + t, length - t, wsize);
  }

  /** length / wsize and length & wmask. */
  method Split(length: nat, wsize: nat) returns (words: nat, bytes: nat)
    requires 0 < wsize
    ensures Size(words, wsize) + bytes == length && bytes < wsize
  {
    WholeWords(length, wsize);
    words, bytes := length / wsize, length % wsize;
  }

  /** Whole words, then the trailing bytes. */
  method RestUp(mem: array<Byte>, dst: nat, src: nat, length: nat, wsize: nat)
    requires 0 < wsize && dst < src && src + length <= mem.Length
    requires length == 0 || (Aligned(dst, wsize) && Aligned(src, wsize))
    modifies mem
    ensures mem[..] == Moved(old(mem[..]), dst, src, length)
  {
    var words, bytes := Split(length, wsize);
    MovedUp(mem[..], dst, src, Size(words, wsize), bytes);
    if words != 0 {
      WordsUp(mem, dst, src, words, wsize);
    }
    if bytes != 0 {
      BytesUp(mem, dst + (length - bytes), src + (length - bytes), bytes);
    }
  }

  /** The downward half; `dst` and `src` are the ends of the regions. */
  method CopyDown(mem: array<Byte>, dst: nat, src: nat, length: nat, wsize: nat)
    requires 0 < wsize && 0 < length <= src < dst <= mem.Length
    modifies mem
    ensures mem[..] == Moved(old(mem[..]), dst - length, src - length, length)
  {
    var both := BothAligned(dst, src, wsize);
    var t := 0;
    if !both {
      t := LeadDown(dst, src, length, wsize);
      BytesDown(mem, dst, src, t);
    }
    MovedDown(old(mem[..]), dst - length, src - length, t, length - t);
    RestDown(mem, dst - t, src - t, length - t, wsize);
  }

  method RestDown(mem: array<Byte>, dst: nat, src: nat, length: nat, wsize: nat)
    requires 0 < wsize && length <= src < dst <= mem.Length
    requires length == 0 || (Aligned(dst, wsize) && Aligned(src, wsize))
    modifies mem
    ensures mem[..] == Moved(old(mem[..]), dst - length, src - length, length)
  {
    var words, bytes := Split(length, wsize);
    MovedDown(mem[..], dst - length, src - length, Size(words, wsize), bytes);
    if words != 0 {
      WordsDown(mem, dst, src, words, wsize);
    }
    if bytes != 0 {
      BytesDown(mem, dst - (length - bytes), src - (length - bytes), bytes);
    }
  }

  /** memcpy is memmove, for every length, alignment and overlap. */
  method Memcpy(mem: array<Byte>, dst0: nat, src0: nat, length: nat, wsize: nat) returns (r: nat)
    requires 0 < wsize && dst0 + length <= mem.Length && src0 + length <= mem.Length
    modifies mem
    ensures r == dst0
    ensures forall i :: 0 <= i < mem.Length ==> mem[i] == ByteAfter(old(mem[..]), dst0, src0, length, i)
  {
    r := dst0;
    if length == 0 || dst0 == src0 {
      MovedIs(mem[..], dst0, src0, length, mem[..]);
    } else if dst0 < src0 {
      CopyUp(mem, dst0, src0, length, wsize);
    } else {
      CopyDown(mem, dst0 + length, src0 + length, length, wsize);
    }
    forall i | 0 <= i < mem.Length
      ensures mem[i] == ByteAfter(old(mem[..]), dst0, src0, length, i)
    {
      MovedAt(old(mem[..]), dst0, src0, length, i);
    }
  }
}
