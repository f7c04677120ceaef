/** Byte strings as the driver and the PLC exchange them: little-endian words,
    concatenation of variable-length blocks, and integer totals. */
module Bytes {
  type byte = b: int | 0 <= b < 0x100
  type u16 = n: int | 0 <= n < 0x1_0000
  type u32 = n: int | 0 <= n < 0x1_0000_0000

  datatype Option<+T> = None | Some(value: T)

  function EncodeU32(n: u32): (bs: seq<byte>)
    ensures |bs| == 4
    ensures n == bs[0] as int + 0x100 * bs[1] as int + 0x1_0000 * bs[2] as int + 0x100_0000 * bs[3] as int
  {
    assert n == n % 0x100 + 0x100 * (n / 0x100);
    assert n / 0x100 == n / 0x100 % 0x100 + 0x100 * (n / 0x1_0000);
    assert n / 0x1_0000 == n / 0x1_0000 % 0x100 + 0x100 * (n / 0x100_0000);
    [n % 0x100, n / 0x100 % 0x100, n / 0x1_0000 % 0x100, n / 0x100_0000]
  }

  function DecodeU32(bs: seq<byte>): u32
    requires |bs| == 4
  {
    bs[0] as int + 0x100 * (bs[1] as int) + 0x1_0000 * (bs[2] as int) + 0x100_0000 * (bs[3] as int)
  }

  lemma DecodeEncodeU32(n: u32)
    ensures DecodeU32(EncodeU32(n)) == n
  {
  }

  lemma EncodeDecodeU32(bs: seq<byte>)
    requires |bs| == 4
    ensures EncodeU32(DecodeU32(bs)) == bs
  {
    var n := DecodeU32(bs);
    assert n / 0x100 == bs[1] as int + 0x100 * (bs[2] as int) + 0x1_0000 * (bs[3] as int);
    assert n / 0x1_0000 == bs[2] as int + 0x100 * (bs[3] as int);
    assert n / 0x100_0000 == bs[3] as int;
  }

  /** The word at byte position `at`; a word that does not lie inside the data reads as zero. */
  function WordAt(data: seq<byte>, at: nat): u32 {
    if at + 4 <= |data| then DecodeU32(data[at..at + 4]) else 0
  }

  lemma WordFound(data: seq<byte>, at: nat, n: u32)
    requires at + 4 <= |data| && data[at..at + 4] == EncodeU32(n)
    ensures WordAt(data, at) == n
  {
    DecodeEncodeU32(n);
  }

  lemma SliceIs<T>(data: seq<T>, at: nat, block: seq<T>)
    requires at + |block| <= |data| && forall k :: 0 <= k < |block| ==> data[at + k] == block[k]
    ensures data[at..at + |block|] == block
  {
  }

  lemma SliceSame<T>(a: seq<T>, b: seq<T>, lo: nat, hi: nat)
    requires lo <= hi <= |a| == |b| && forall k :: lo <= k < hi ==> a[k] == b[k]
    ensures a[lo..hi] == b[lo..hi]
  {
  }

  lemma JoinSlices<T>(data: seq<T>, a: nat, b: nat, c: nat)
    requires a <= b <= c <= |data|
    ensures data[a..c] == data[a..b] + data[b..c]
  {
  }

  /** A part of a block that was found in the data is found there too. */
  lemma PartFound<T>(data: seq<T>, at: nat, block: seq<T>, from: nat, to: nat)
    requires at + |block| <= |data| && data[at..at + |block|] == block && from <= to <= |block|
    ensures data[at + from..at + to] == block[from..to]
  {
    forall k | 0 <= k < to - from ensures data[at + from..at + to][k] == block[from..to][k] {
      assert data[at..at + |block|][from + k] == data[at + (from + k)];
    }
  }

  lemma WordInBlock(data: seq<byte>, at: nat, block: seq<byte>, from: nat, n: u32)
    requires at + |block| <= |data| && data[at..at + |block|] == block
    requires from + 4 <= |block| && block[from..from + 4] == EncodeU32(n)
    ensures WordAt(data, at + from) == n
  {
    PartFound(data, at, block, from, from + 4);
    WordFound(data, at + from, n);
  }

  /** `size` bytes from position `at`; empty when they do not lie inside the data. */
  function SliceAt(data: seq<byte>, at: nat, size: nat): seq<byte> {
    if at + size <= |data| then data[at..at + size] else []
  }

  function Zeros(n: nat): (bs: seq<byte>)
    ensures |bs| == n
  {
    seq(n, i => 0)
  }

  function Concat<T>(parts: seq<seq<T>>): seq<T> {
    if parts == [] then [] else Concat(parts[..|parts| - 1]) + parts[|parts| - 1]
  }

  /** Where block `i` starts inside the concatenation. */
  function Offset<T>(parts: seq<seq<T>>, i: nat): nat
    requires i <= |parts|
  {
    |Concat(parts[..i])|
  }

  lemma ConcatSnoc<T>(parts: seq<seq<T>>, part: seq<T>)
    ensures Concat(parts + [part]) == Concat(parts) + part
  {
    assert (parts + [part])[..|parts|] == parts;
  }

  lemma OffsetStep<T>(parts: seq<seq<T>>, i: nat)
    requires i < |parts|
    ensures Concat(parts[..i + 1]) == Concat(parts[..i]) + parts[i]
    ensures Offset(parts, i + 1) == Offset(parts, i) + |parts[i]|
  {
    assert parts[..i + 1][..i] == parts[..i];
  }

  /** Block `i` is found again at its offset. */
  lemma {:induction false} ConcatSlice<T>(parts: seq<seq<T>>, i: nat)
    requires i < |parts|
    ensures Offset(parts, i) + |parts[i]| <= |Concat(parts)|
    ensures Concat(parts)[Offset(parts, i)..Offset(parts, i) + |parts[i]|] == parts[i]
  {
    var init := parts[..|parts| - 1];
    if i == |parts| - 1 {
      assert parts[..i] == init;
    } else {
      ConcatSlice(init, i);
      assert init[..i] == parts[..i];
    }
  }

  lemma {:induction false} ConcatAppend<T>(xs: seq<seq<T>>, ys: seq<seq<T>>)
    ensures Concat(xs + ys) == Concat(xs) + Concat(ys)
  {
    if ys == [] {
      assert xs + ys == xs;
    } else {
      var init := ys[..|ys| - 1];
      ConcatAppend(xs, init);
      assert (xs + ys)[..|xs + ys| - 1] == xs + init;
    }
  }

  /** Blocks of one width: block `i` starts at `i * width`. */
  lemma {:induction false} UniformOffset<T>(parts: seq<seq<T>>, width: nat, i: nat)
    requires i <= |parts|
    requires forall j :: 0 <= j < |parts| ==> |parts[j]| == width
    ensures Offset(parts, i) == i * width
  {
    if i > 0 {
      UniformOffset(parts, width, i - 1);
      OffsetStep(parts, i - 1);
    }
  }

  function Total(xs: seq<int>): int {
    if xs == [] then 0 else Total(xs[..|xs| - 1]) + xs[|xs| - 1]
  }

  lemma TotalSnoc(xs: seq<int>, x: int)
    ensures Total(xs + [x]) == Total(xs) + x
  {
    assert (xs + [x])[..|xs|] == xs;
  }

  lemma {:induction false} TotalUpdate(xs: seq<int>, k: nat, v: int)
    requires k < |xs|
    ensures Total(xs[k := v]) == Total(xs) - xs[k] + v
  {
    var init := xs[..|xs| - 1];
    if k == |xs| - 1 {
      assert xs[k := v][..|xs| - 1] == init;
    } else {
      TotalUpdate(init, k, v);
      assert xs[k := v][..|xs| - 1] == init[k := v];
    }
  }

  /** Totals compare as their terms do, and are equal only when every term is. */
  lemma {:induction false} TotalCompare(xs: seq<int>, ys: seq<int>)
    requires |xs| == |ys|
    requires forall k :: 0 <= k < |xs| ==> xs[k] <= ys[k]
    ensures Total(xs) <= Total(ys)
    ensures Total(xs) == Total(ys) <==> xs == ys
  {
    if xs != [] {
      var n := |xs| - 1;
      TotalCompare(xs[..n], ys[..n]);
      assert xs == xs[..n] + [xs[n]] && ys == ys[..n] + [ys[n]];
    }
  }
}
