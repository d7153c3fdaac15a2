/** The size buckets that hide the length of an attachment: powers of 1.05, rounded down, never
    below 541. Arithmetic is exact here. */
module SizeBucket {

  const SMALLEST := 541

  function Pow(k: nat): (r: real)
    ensures r >= 1.0
  {
    if k == 0 then 1.0 else 1.05 * Pow(k - 1)
  }

  lemma {:induction false} PowAdd(a: nat, b: nat)
    ensures Pow(a + b) == Pow(a) * Pow(b)
    decreases a
  {
    if a > 0 {
      PowAdd(a - 1, b);
      assert Pow(a + b) == 1.05 * Pow(a - 1 + b);
    }
  }

  lemma {:induction false} PowMonotone(a: nat, b: nat)
    requires a <= b
    ensures Pow(a) <= Pow(b)
    decreases b
  {
    if a < b {
      PowMonotone(a, b - 1);
    }
  }

  lemma {:induction false} PowGrows(k: nat)
    ensures Pow(k) >= 1.0 + 0.05 * k as real
  {
    if k > 0 {
      PowGrows(k - 1);
    }
  }

  /** The least exponent, from `k` on, whose power reaches `n`. */
  function LeastFrom(n: nat, k: nat): (r: nat)
    requires k <= 20 * n
    ensures k <= r && Pow(r) >= n as real
    ensures forall j :: k <= j < r ==> Pow(j) < n as real
    decreases 20 * n - k
  {
    PowGrows(k);
    if Pow(k) >= n as real then k else LeastFrom(n, k + 1)
  }

  /** The logarithm of `n` to the base 1.05, rounded up. */
  function CeilLog(n: nat): nat {
    LeastFrom(n, 0)
  }

  /** The logarithm of 0 is minus infinity and its power is 0, so size 0 gets the smallest
      bucket. */
  function Bucket(size: nat): nat {
    if size == 0 then SMALLEST else Max(SMALLEST, Pow(CeilLog(size)).Floor)
  }

  function Max(a: int, b: int): int {
    if a < b then b else a
  }

  function RMax(a: real, b: real): real {
    if a < b then b else a
  }

  /** The bucket holds the size and wastes at most a twentieth of it. */
  lemma BucketFits(size: nat)
    ensures size <= Bucket(size)
    ensures Bucket(size) as real <= RMax(541.0, 1.05 * size as real)
  {
    if size > 0 && CeilLog(size) > 0 {
      assert Pow(CeilLog(size) - 1) < size as real;
    }
  }

  lemma CeilLogMonotone(a: nat, b: nat)
    requires a <= b
    ensures CeilLog(a) <= CeilLog(b)
  {
    assert CeilLog(b) >= CeilLog(a) || Pow(CeilLog(b)) < a as real;
  }

  lemma BucketMonotone(a: nat, b: nat)
    requires a <= b
    ensures Bucket(a) <= Bucket(b)
  {
    CeilLogMonotone(a, b);
    PowMonotone(CeilLog(a), CeilLog(b));
  }

  lemma Squares(x: real, y: real)
    requires 0.0 <= x <= y
    ensures x * x <= y * y
  {
    assert y * y - x * x == (y - x) * (y + x);
  }

  /** Squares the bounds of a power; the new bounds are rounded outwards. */
  lemma Doubled(a: nat, b: nat, lo: real, hi: real, lo2: real, hi2: real)
    requires 0.0 <= lo <= Pow(a) <= hi && b == a + a
    requires lo2 <= lo * lo && hi * hi <= hi2
    ensures lo2 <= Pow(b) <= hi2
  {
    PowAdd(a, a);
    Squares(lo, Pow(a));
    Squares(Pow(a), hi);
  }

  lemma FourthPower()
    ensures Pow(4) == 1.21550625
  {
    assert Pow(1) == 1.05 && Pow(2) == 1.1025;
    PowAdd(2, 2);
  }

  lemma Power32()
    ensures 4.764934 <= Pow(32) <= 4.764953
  {
    hide Pow;
    FourthPower();
    Doubled(4, 8, 1.21550625, 1.21550625, 1.477455, 1.477456);
    Doubled(8, 16, 1.477455, 1.477456, 2.182873, 2.182877);
    Doubled(16, 32, 2.182873, 2.182877, 4.764934, 4.764953);
  }

  /** The smallest bucket is itself a rounded power: the one with exponent 129. */
  lemma SmallestIsAPower()
    ensures 541.0 <= Pow(129) < 542.0
  {
    assert Pow(129) == 1.05 * Pow(128);
    hide Pow;
    Power32();
    Doubled(32, 64, 4.764934, 4.764953, 22.704596, 22.704778);
    Doubled(64, 128, 22.704596, 22.704778, 515.498, 515.507);
  }

  lemma BucketIdempotent(size: nat)
    ensures Bucket(Bucket(size)) == Bucket(size)
  {
    var m := Bucket(size);
    BucketFits(m);
    if m == SMALLEST {
      SmallestIsAPower();
      assert CeilLog(m) <= 129;
      PowMonotone(CeilLog(m), 129);
    } else {
      var k := CeilLog(size);
      assert CeilLog(m) <= k;
      PowMonotone(CeilLog(m), k);
    }
  }

  /** So a bucket is the least bucket size that holds the attachment. */
  lemma LeastBucket(size: nat, other: nat)
    requires size <= Bucket(other)
    ensures size <= Bucket(size) <= Bucket(other)
  {
    BucketFits(size);
    BucketMonotone(size, Bucket(other));
    BucketIdempotent(other);
  }
}
