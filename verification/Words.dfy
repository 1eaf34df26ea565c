/** Bytes, little-endian words and alignment: the arithmetic the call paths share.
    Both targets of the fast path (amd64 and arm64) are little-endian. */
module Words {

  type byte = b: int | 0 <= b < 256

  const WORD_LIMIT: nat := 0x1_0000_0000_0000_0000

  /** A uintptr. */
  type word = w: int | 0 <= w < WORD_LIMIT

  datatype Option<+T> = None | Some(value: T)

  function Last<T>(s: seq<T>): T
    requires s != []
  {
    s[|s| - 1]
  }

  function Front<T>(s: seq<T>): seq<T>
    requires s != []
  {
    s[..|s| - 1]
  }

  /** The first `n` bytes of `w` in memory. */
  function LittleEndian(w: nat, n: nat): (bs: seq<byte>)
    ensures |bs| == n
  {
    if n == 0 then [] else [w % 256] + LittleEndian(w / 256, n - 1)
  }

  /** The number whose memory image is `bs`. */
  function FromLittleEndian(bs: seq<byte>): nat {
    if bs == [] then 0 else bs[0] + 256 * FromLittleEndian(bs[1..])
  }

  /** Reading fewer bytes of a word reads its low bytes. */
  lemma {:induction false} LowBytes(w: nat, m: nat, n: nat)
    requires m <= n
    ensures LittleEndian(w, n)[..m] == LittleEndian(w, m)
  {
    if m > 0 {
      LowBytes(w / 256, m - 1, n - 1);
    }
  }

  lemma {:induction false} BytesRoundTrip(bs: seq<byte>)
    ensures LittleEndian(FromLittleEndian(bs), |bs|) == bs
  {
    if bs != [] {
      BytesRoundTrip(bs[1..]);
      assert FromLittleEndian(bs) / 256 == FromLittleEndian(bs[1..]);
      assert bs == [bs[0]] + bs[1..];
    }
  }

  function Pow256(n: nat): (p: nat)
    ensures p > 0
  {
    if n == 0 then 1 else 256 * Pow256(n - 1)
  }

  lemma {:induction false} FromLittleEndianBound(bs: seq<byte>)
    ensures FromLittleEndian(bs) < Pow256(|bs|)
  {
    if bs != [] {
      FromLittleEndianBound(bs[1..]);
    }
  }

  lemma {:induction false} WordRoundTrip(w: nat, n: nat)
    requires w < Pow256(n)
    ensures FromLittleEndian(LittleEndian(w, n)) == w
  {
    if n > 0 {
      assert w / 256 < Pow256(n - 1);
      WordRoundTrip(w / 256, n - 1);
      assert LittleEndian(w, n)[1..] == LittleEndian(w / 256, n - 1);
    }
  }

  lemma Pow256Of8()
    ensures Pow256(8) == WORD_LIMIT
  {
    assert Pow256(4) == 0x1_0000_0000;
    assert Pow256(8) == 0x1_0000_0000 * Pow256(4) by {
      assert Pow256(6) == 0x1_0000 * Pow256(4);
      assert Pow256(8) == 0x1_0000 * Pow256(6);
    }
  }

  /** A word in memory after a callee wrote `bs` over its first bytes. */
  function StoreBytes(old_: word, bs: seq<byte>): (w: word)
    requires |bs| <= 8
  {
    var image := bs + LittleEndian(old_, 8)[|bs|..];
    FromLittleEndianBound(image);
    Pow256Of8();
    FromLittleEndian(image)
  }

  /** The bytes a callee stored are the low bytes of the word, whatever was there before. */
  lemma StoredBytesAreLow(old_: word, bs: seq<byte>)
    requires |bs| <= 8
    ensures LittleEndian(StoreBytes(old_, bs), 8)[..|bs|] == bs
  {
    var image := bs + LittleEndian(old_, 8)[|bs|..];
    BytesRoundTrip(image);
  }

  /** The alignments of Go and C scalars on 64-bit targets. */
  predicate IsAlignment(a: nat) {
    a == 1 || a == 2 || a == 4 || a == 8
  }

  /** Rounds `x` up to a multiple of the power of two `a`. */
  function AlignUp(x: nat, a: nat): (r: nat)
    ensures r >= x
  {
    if a <= 1 then x else 2 * AlignUp((x + 1) / 2, a / 2)
  }

  /** AlignUp gives the least multiple of `a` that is not below `x`. */
  lemma {:induction false} AlignUpIsLeast(x: nat, a: nat)
    requires IsAlignment(a)
    ensures AlignUp(x, a) % a == 0 && AlignUp(x, a) < x + a
  {
    if a > 1 {
      AlignUpIsLeast((x + 1) / 2, a / 2);
    }
  }

  lemma {:induction false} AlignUpTwice(x: nat, a: nat)
    ensures AlignUp(AlignUp(x, a), a) == AlignUp(x, a)
  {
    if a > 1 {
      AlignUpTwice((x + 1) / 2, a / 2);
      assert (2 * AlignUp((x + 1) / 2, a / 2) + 1) / 2 == AlignUp((x + 1) / 2, a / 2);
    }
  }

  predicate Aligned(x: nat, a: nat) {
    AlignUp(x, a) == x
  }

  lemma {:induction false} SumAligned(x: nat, y: nat, a: nat)
    requires Aligned(x, a) && Aligned(y, a)
    ensures Aligned(x + y, a)
  {
    if a > 1 {
      SumAligned(x / 2, y / 2, a / 2);
      assert (x + y + 1) / 2 == x / 2 + y / 2;
    }
  }

  /** One byte of padding after offset `x` changes the rounded size exactly at multiples of `a`. */
  lemma {:induction false} PaddingByte(x: nat, a: nat)
    requires IsAlignment(a)
    ensures AlignUp(x + 1, a) == AlignUp(x, a) <==> !Aligned(x, a)
  {
    if a > 1 {
      var y := x / 2;
      if x % 2 == 0 {
        PaddingByte(y, a / 2);
        assert (x + 1) / 2 == y && (x + 2) / 2 == y + 1;
        assert AlignUp(x, a) == 2 * AlignUp(y, a / 2) && AlignUp(x + 1, a) == 2 * AlignUp(y + 1, a / 2);
      } else {
        assert (x + 1) / 2 == y + 1 && (x + 2) / 2 == y + 1;
        assert AlignUp(x, a) == 2 * AlignUp(y + 1, a / 2) == AlignUp(x + 1, a);
      }
    }
  }
}
