/** How far a rollout of p percent is from p percent of all digests: an exact count. */
module Bias {
  import opened Base
  import opened Engine

  function Min(a: int, b: int): int { if a < b then a else b }

  /** The numbers below `n` whose residue modulo `m` is below `p`. */
  function Residues(n: nat, m: nat, p: nat): set<int>
    requires m > 0
  {
    set x: int | 0 <= x < n && x % m < p
  }

  lemma MultiplesGap(m: nat, a: nat, b: nat)
    requires a < b
    ensures m * a + m <= m * b
  {
    assert m * b == m * a + m * (b - a);
    assert m * (b - a) == m + m * (b - a - 1);
  }

  lemma DivisionIsUnique(n: nat, m: nat, q: nat, r: nat)
    requires m > 0 && r < m && n == m * q + r
    ensures n / m == q && n % m == r
  {
    var q' := n / m;
    if q < q' {
      MultiplesGap(m, q, q');
    } else if q' < q {
      MultiplesGap(m, q', q);
    }
  }

  /** The count predicted for `n` numbers: `p` from each full block of `m`, and at most `p`
      from the last partial one. */
  function Predicted(n: nat, m: nat, p: nat): int
    requires m > 0
  {
    p * (n / m) + Min(p, n % m)
  }

  lemma PredictedIs(n: nat, m: nat, p: nat, q: nat, r: nat)
    requires r < m && n == m * q + r
    ensures Predicted(n, m, p) == p * q + Min(p, r)
  {
    DivisionIsUnique(n, m, q, r);
  }

  lemma PredictedNext(n: nat, m: nat, p: nat, q: nat, r: nat)
    requires r < m && p <= m && n == m * q + r
    ensures Predicted(n + 1, m, p) == Predicted(n, m, p) + if r < p then 1 else 0
  {
    hide Predicted;
    PredictedIs(n, m, p, q, r);
    if r == m - 1 {
      Distribute(m, q);
      Distribute(p, q);
      PredictedIs(n + 1, m, p, q + 1, 0);
    } else {
      PredictedIs(n + 1, m, p, q, r + 1);
    }
  }

  lemma PredictedStep(n: nat, m: nat, p: nat)
    requires 0 < m && p <= m
    ensures Predicted(n + 1, m, p) == Predicted(n, m, p) + if n % m < p then 1 else 0
  {
    hide Predicted;
    PredictedNext(n, m, p, n / m, n % m);
  }

  lemma Distribute(a: nat, b: nat)
    ensures a * (b + 1) == a * b + a
  {
  }

  lemma ResiduesStep(n: nat, m: nat, p: nat)
    requires 0 < m
    ensures |Residues(n + 1, m, p)| == |Residues(n, m, p)| + if n % m < p then 1 else 0
  {
    var before, after := Residues(n, m, p), Residues(n + 1, m, p);
    if n % m < p {
      assert after == before + {n};
    } else {
      assert after == before;
    }
  }

  lemma {:induction false} ResidueCount(n: nat, m: nat, p: nat)
    requires 0 < m && p <= m
    ensures |Residues(n, m, p)| == p * (n / m) + Min(p, n % m)
  {
    if n == 0 {
      assert Residues(0, m, p) == {};
      DivisionIsUnique(0, m, 0, 0);
    } else {
      ResidueCount(n - 1, m, p);
      ResiduesStep(n - 1, m, p);
      PredictedStep(n - 1, m, p);
      assert |Residues(n, m, p)| == Predicted(n, m, p);
    }
  }

  // ----- Digest prefixes -----

  /** All four-byte prefixes. */
  function Prefixes(): set<Bytes4> {
    set a, b, c, d | 0 <= a < 256 && 0 <= b < 256 && 0 <= c < 256 && 0 <= d < 256 :: (a, b, c, d)
  }

  /** The prefixes that put a user inside a rollout of `p` percent. */
  function PrefixesBelow(p: nat): set<Bytes4> {
    set x | x in Prefixes() && BigEndian(x) % BUCKET_SPACE < p
  }

  function BytesOf(n: int): Bytes4
    requires 0 <= n < 0x1_0000_0000
  {
    (n / 256 / 256 / 256, n / 256 / 256 % 256, n / 256 % 256, n % 256)
  }

  lemma BigEndianIsBijective(x: Bytes4, n: int)
    requires x in Prefixes() && 0 <= n < 0x1_0000_0000
    ensures 0 <= BigEndian(x) < 0x1_0000_0000 && BytesOf(BigEndian(x)) == x
    ensures BytesOf(n) in Prefixes() && BigEndian(BytesOf(n)) == n
  {
  }

  lemma {:induction false} SameSize<A, B>(s: set<A>, t: set<B>, f: A -> B, g: B -> A)
    requires forall a :: a in s ==> f(a) in t && g(f(a)) == a
    requires forall b :: b in t ==> g(b) in s && f(g(b)) == b
    ensures |s| == |t|
  {
    if s == {} {
      assert forall b :: b in t ==> g(b) in s;
      assert t == {};
    } else {
      var a :| a in s;
      SameSize(s - {a}, t - {f(a)}, f, g);
    }
  }

  /** The digest prefixes below `p`, counted exactly; the error of a rollout of `p` percent,
      in hundredths of a prefix, is never negative and never above 384. */
  lemma ModuloBias(p: nat)
    requires p <= 100
    ensures |PrefixesBelow(p)| == 42949672 * p + Min(p, 96)
    ensures 0 <= 100 * |PrefixesBelow(p)| - p * 0x1_0000_0000 <= 384
  {
    var numbers := Residues(0x1_0000_0000, 100, p);
    var g := (n: int) => if 0 <= n < 0x1_0000_0000 then BytesOf(n) else (0, 0, 0, 0);
    forall x | x in PrefixesBelow(p) ensures BigEndian(x) in numbers && g(BigEndian(x)) == x {
      BigEndianIsBijective(x, 0);
    }
    forall n | n in numbers ensures g(n) in PrefixesBelow(p) && BigEndian(g(n)) == n {
      BigEndianIsBijective((0, 0, 0, 0), n);
    }
    SameSize(PrefixesBelow(p), numbers, BigEndian, g);
    ResidueCount(0x1_0000_0000, 100, p);
  }

  lemma HundredsDrop(q: nat, r: nat)
    ensures (100 * q + r) % 100 == r % 100
  {
    DivisionIsUnique(100 * q + r, 100, q + r / 100, r % 100);
  }

  /** The bucket on the digest's own bytes. Every client that takes SHA-256 of the key, a colon and the user
      id, and computes this, arrives at the same number. */
  lemma BucketFromBytes(pf: Platform, flagKey: string, userId: string)
    ensures
      var d := pf.sha256(flagKey + ":" + userId);
      BucketFor(pf, flagKey, userId) == (16 * d[0] + 36 * d[1] + 56 * d[2] + d[3]) % 100
  {
    var d := pf.sha256(flagKey + ":" + userId);
    var rest := 16 * d[0] + 36 * d[1] + 56 * d[2] + d[3];
    var hundreds := 167772 * d[0] + 655 * d[1] + 2 * d[2];
    assert BigEndian(Prefix(d)) == 100 * hundreds + rest;
    HundredsDrop(hundreds, rest);
  }

  /** Nothing of the digest matters beyond its first four bytes. */
  lemma FourBytesDecide(pf: Platform, k1: string, u1: string, k2: string, u2: string)
    requires pf.sha256(k1 + ":" + u1)[..4] == pf.sha256(k2 + ":" + u2)[..4]
    ensures BucketFor(pf, k1, u1) == BucketFor(pf, k2, u2)
  {
    var d, e := pf.sha256(k1 + ":" + u1), pf.sha256(k2 + ":" + u2);
    assert forall i :: 0 <= i < 4 ==> d[i] == d[..4][i] == e[..4][i] == e[i];
    BucketFromBytes(pf, k1, u1);
    BucketFromBytes(pf, k2, u2);
  }

  /** The buckets of the engine are these: a user's bucket is below `p` exactly when the first four bytes of
      the digest are among the counted prefixes. */
  lemma BucketBelowIffPrefixCounted(pf: Platform, flagKey: string, userId: string, p: nat)
    ensures
      var d := pf.sha256(flagKey + ":" + userId);
      BucketFor(pf, flagKey, userId) < p <==> (d[0], d[1], d[2], d[3]) in PrefixesBelow(p)
  {
    var d := pf.sha256(flagKey + ":" + userId);
    assert (d[0], d[1], d[2], d[3]) in Prefixes();
  }
}
