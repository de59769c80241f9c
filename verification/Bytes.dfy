/**
 Bytes, and the little-endian loads and stores that the rewriter performs through unaligned
 pointers. Stores truncate to the given width; loads are unsigned or two's complement.
 */
module Bytes {

  type byte = b: int | 0 <= b < 256

  datatype Option<+T> = None | Some(value: T)

  datatype Result<+T> = Ok(value: T) | Err

  function Pow256(n: nat): (p: int)
    ensures p >= 1
  {
    if n == 0 then 1 else 256 * Pow256(n - 1)
  }

  /** The `width` low bytes of `v` in two's complement, least significant first. */
  function Store(width: nat, v: int): (r: seq<byte>)
    ensures |r| == width
  {
    if width == 0 then [] else [v % 256] + Store(width - 1, v / 256)
  }

  function LoadUnsigned(b: seq<byte>): (u: nat)
    ensures u < Pow256(|b|)
  {
    if b == [] then 0 else b[0] + 256 * LoadUnsigned(b[1..])
  }

  function LoadSigned(b: seq<byte>): (v: int)
    ensures -Pow256(|b|) <= 2 * v < Pow256(|b|) || b == []
  {
    var u := LoadUnsigned(b);
    if 2 * u >= Pow256(|b|) then u - Pow256(|b|) else u
  }

  /** `v` can be held by a two's complement integer of `width` bytes. */
  predicate Fits(width: nat, v: int) {
    -Pow256(width) <= 2 * v < Pow256(width)
  }

  lemma {:induction false} StoredResidue(width: nat, v: int) returns (q: int)
    ensures v == LoadUnsigned(Store(width, v)) + Pow256(width) * q
  {
    if width == 0 {
      q := v;
    } else {
      q := StoredResidue(width - 1, v / 256);
      var low := LoadUnsigned(Store(width - 1, v / 256));
      assert Store(width, v)[1..] == Store(width - 1, v / 256);
      assert v == v % 256 + 256 * (low + Pow256(width - 1) * q);
      assert 256 * (Pow256(width - 1) * q) == Pow256(width) * q;
    }
  }

  lemma MultipleBound(p: int, q: int)
    requires p >= 1
    ensures q >= 1 ==> p * q >= p
    ensures q <= -1 ==> p * q <= -p
    ensures q <= -2 ==> p * q <= -2 * p
  {
    if q >= 1 {
      assert p * (q - 1) >= 0;
    } else if q <= -2 {
      assert p * (-2 - q) >= 0;
    }
  }

  lemma {:induction false} LoadStoreSigned(width: nat, v: int)
    requires width > 0 && Fits(width, v)
    ensures LoadSigned(Store(width, v)) == v
  {
    var q := StoredResidue(width, v);
    MultipleBound(Pow256(width), q);
    assert q == 0 || q == -1;
    assert q == -1 ==> Pow256(width) * q == -Pow256(width);
  }

  lemma {:induction false} LoadStoreUnsigned(width: nat, v: nat)
    requires v < Pow256(width)
    ensures LoadUnsigned(Store(width, v)) == v
  {
    var q := StoredResidue(width, v);
    MultipleBound(Pow256(width), q);
    assert q == 0;
  }

  lemma Widths()
    ensures Pow256(1) == 0x100 && Pow256(2) == 0x1_0000
    ensures Pow256(4) == 0x1_0000_0000 && Pow256(8) == 0x1_0000_0000_0000_0000
  {
    assert Pow256(2) == 256 * Pow256(1);
    assert Pow256(3) == 256 * Pow256(2);
    assert Pow256(4) == 256 * Pow256(3);
    assert Pow256(5) == 256 * Pow256(4);
    assert Pow256(6) == 256 * Pow256(5);
    assert Pow256(7) == 256 * Pow256(6);
    assert Pow256(8) == 256 * Pow256(7);
  }

  lemma SliceSplit<T>(s: seq<T>, lo: nat, hi: nat, front: seq<T>, rest: seq<T>)
    requires lo <= hi <= |s| && s[lo..hi] == front + rest
    ensures hi == lo + |front| + |rest|
    ensures s[lo..lo + |front|] == front && s[lo + |front|..hi] == rest
  {
    var part := s[lo..hi];
    assert forall k :: 0 <= k < |part| ==> part[k] == s[lo + k];
    assert forall k :: 0 <= k < |front| ==> part[k] == front[k];
    assert forall k :: 0 <= k < |rest| ==> part[|front| + k] == rest[k];
  }

  /** Storing what was loaded gives the bytes back. */
  lemma {:induction false} StoreLoadUnsigned(s: seq<byte>)
    ensures Store(|s|, LoadUnsigned(s)) == s
  {
    if s != [] {
      StoreLoadUnsigned(s[1..]);
      var rest: int := LoadUnsigned(s[1..]);
      var low: int := s[0];
      assert (low + 256 * rest) % 256 == low && (low + 256 * rest) / 256 == rest;
      assert s == [s[0]] + s[1..];
    }
  }

  lemma {:induction false} StoreResidue(width: nat, v: int)
    ensures Store(width, v - Pow256(width)) == Store(width, v)
  {
    if width > 0 {
      StoreResidue(width - 1, v / 256);
      var p := Pow256(width - 1);
      assert (v - 256 * p) % 256 == v % 256 && (v - 256 * p) / 256 == v / 256 - p;
    }
  }

  lemma {:induction false} StoreLoadSigned(s: seq<byte>)
    ensures Store(|s|, LoadSigned(s)) == s
  {
    StoreLoadUnsigned(s);
    StoreResidue(|s|, LoadUnsigned(s));
  }
}
