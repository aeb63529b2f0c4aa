/** Sequence helpers shared by the whole model: Python's clipped slicing,
    one-level flattening (numpy concatenate along the first axis) and
    re-chunking (numpy reshape of a flat run of samples). */
module Seqs {

  datatype Option<T> = None | Some(value: T)

  datatype Result<T, E> = Ok(value: T) | Err(error: E)

  function Min(a: int, b: int): int { if a <= b then a else b }

  /** Python's `s[lo:hi]` for non-negative bounds: both ends are clipped to
      the length of `s`, and the slice is empty when it would run backwards. */
  function Slice<T>(s: seq<T>, lo: nat, hi: nat): (r: seq<T>)
    ensures |r| == if Min(hi, |s|) <= lo then 0 else Min(hi, |s|) - lo
    ensures lo <= hi <= |s| ==> r == s[lo..hi]
  {
    if Min(hi, |s|) <= lo then [] else s[lo..Min(hi, |s|)]
  }

  /** Concatenation of a sequence of sequences, in order. */
  function Concat<T>(xs: seq<seq<T>>): seq<T>
  {
    if |xs| == 0 then [] else Concat(xs[..|xs| - 1]) + xs[|xs| - 1]
  }

  /** Splits `s` into consecutive pieces of `k` elements; a shorter tail
      becomes the last piece. */
  function Chunk<T>(s: seq<T>, k: nat): seq<seq<T>>
    requires k > 0
    decreases |s|
  {
    if |s| == 0 then [] else if |s| <= k then [s] else [s[..k]] + Chunk(s[k..], k)
  }

  /** Every element of `xs` has length `k`. */
  predicate Uniform<T>(xs: seq<seq<T>>, k: nat)
  {
    forall i :: 0 <= i < |xs| ==> |xs[i]| == k
  }

  lemma {:induction false} ConcatAppend<T>(a: seq<seq<T>>, b: seq<seq<T>>)
    ensures Concat(a + b) == Concat(a) + Concat(b)
    decreases |b|
  {
    if |b| == 0 {
      assert a + b == a;
    } else {
      var n := |b| - 1;
      assert (a + b)[..|a + b| - 1] == a + b[..n];
      ConcatAppend(a, b[..n]);
    }
  }

  lemma ConcatCons<T>(x: seq<T>, xs: seq<seq<T>>)
    ensures Concat([x] + xs) == x + Concat(xs)
  {
    ConcatAppend([x], xs);
    assert Concat([x]) == Concat([x][..0]) + x;
  }

  lemma ConcatAppendOne<T>(xs: seq<seq<T>>, x: seq<T>)
    ensures Concat(xs + [x]) == Concat(xs) + x
  {
    assert (xs + [x])[..|xs|] == xs;
  }

  lemma ConcatAppendTwo<T>(xs: seq<seq<T>>, x: seq<T>, y: seq<T>)
    ensures Concat(xs + [x, y]) == Concat(xs) + (x + y)
  {
    assert xs + [x, y] == (xs + [x]) + [y];
    ConcatAppendOne(xs + [x], y);
    ConcatAppendOne(xs, x);
  }

  /** An element of an element of `xs` is an element of their concatenation. */
  lemma {:induction false} ConcatIn<T>(xs: seq<seq<T>>, x: seq<T>, v: T)
    requires x in xs && v in x
    ensures v in Concat(xs)
    decreases |xs|
  {
    var n := |xs| - 1;
    if xs[n] != x {
      assert x in xs[..n];
      ConcatIn(xs[..n], x, v);
    }
  }

  lemma {:induction false} ConcatUniformLength<T>(xs: seq<seq<T>>, k: nat)
    requires Uniform(xs, k)
    ensures |Concat(xs)| == Offset(|xs|, k)
    decreases |xs|
  {
    if |xs| > 0 {
      ConcatUniformLength(xs[..|xs| - 1], k);
    }
  }

  /** Re-chunking a concatenation of equal-length pieces gives the pieces back. */
  lemma {:induction false} ChunkConcat<T>(xs: seq<seq<T>>, k: nat)
    requires k > 0 && Uniform(xs, k)
    ensures Chunk(Concat(xs), k) == xs
    decreases |xs|
  {
    if |xs| > 0 {
      var rest := xs[1..];
      assert xs == [xs[0]] + rest;
      ConcatCons(xs[0], rest);
      ConcatUniformLength(rest, k);
      if |rest| == 0 {
        assert Concat(xs) == xs[0];
      } else {
        var c := Concat(xs);
        assert c[..k] == xs[0];
        assert c[k..] == Concat(rest);
        ChunkConcat(rest, k);
      }
    }
  }

  /** Cutting into pieces and concatenating them gives the sequence back
      (a DataLoader's batches, concatenated). */
  lemma {:induction false} ConcatChunk<T>(s: seq<T>, k: nat)
    requires k > 0
    ensures Concat(Chunk(s, k)) == s
    decreases |s|
  {
    if 0 < |s| <= k {
      ConcatCons(s, []);
      assert [s] + [] == [s];
    } else if |s| > k {
      ConcatChunk(s[k..], k);
      ConcatCons(s[..k], Chunk(s[k..], k));
      assert s[..k] + s[k..] == s;
    }
  }

  /** Every element of every piece is an element of the sequence. */
  lemma {:induction false} ChunkMembers<T>(s: seq<T>, k: nat)
    requires k > 0
    ensures forall j, i :: 0 <= j < |Chunk(s, k)| && 0 <= i < |Chunk(s, k)[j]| ==> Chunk(s, k)[j][i] in s
    decreases |s|
  {
    if |s| > k {
      ChunkMembers(s[k..], k);
      var cs := Chunk(s, k);
      forall j, i | 0 <= j < |cs| && 0 <= i < |cs[j]| ensures cs[j][i] in s {
        if j == 0 {
          assert cs[0] == s[..k];
          assert s[..k][i] == s[i];
        } else {
          assert cs[j] == Chunk(s[k..], k)[j - 1];
          assert cs[j][i] in s[k..];
        }
      }
    }
  }

  /** The elements of `xs`, each wrapped in a singleton sequence (numpy `[:, None]`). */
  function Singletons<T>(xs: seq<T>): (r: seq<seq<T>>)
    ensures |r| == |xs| && forall i :: 0 <= i < |r| ==> r[i] == [xs[i]]
  {
    seq(|xs|, i requires 0 <= i < |xs| => [xs[i]])
  }

  lemma {:induction false} ConcatSingletons<T>(xs: seq<T>)
    ensures Concat(Singletons(xs)) == xs
    decreases |xs|
  {
    if |xs| > 0 {
      var n := |xs| - 1;
      assert Singletons(xs)[..n] == Singletons(xs[..n]);
      ConcatSingletons(xs[..n]);
      assert xs == xs[..n] + [xs[n]];
    }
  }

  /** `a * k`, spelled as repeated addition so that index arithmetic stays
      linear for the solver; OffsetIsProduct ties it to the product. */
  function Offset(a: nat, k: nat): nat
  {
    if a == 0 then 0 else Offset(a - 1, k) + k
  }

  lemma {:induction false} OffsetIsProduct(a: nat, k: nat)
    ensures Offset(a, k) == a * k
  {
    if a > 0 {
      OffsetIsProduct(a - 1, k);
      assert (a - 1) * k + k == a * k;
    }
  }

  /** Block `a` ends no later than block `b` starts, for a < b. */
  lemma {:induction false} OffsetMono(a: nat, b: nat, k: nat)
    requires a < b
    ensures Offset(a, k) + k <= Offset(b, k)
    decreases b
  {
    if a + 1 < b {
      OffsetMono(a, b - 1, k);
    }
  }

  /** `b` divides `n` (numpy's test before a reshape), by repeated subtraction. */
  predicate Divisible(n: nat, b: nat)
    decreases n
  {
    n == 0 || (b > 0 && n >= b && Divisible(n - b, b))
  }

  lemma {:induction false} DivisibleOffset(m: nat, b: nat)
    requires b > 0
    ensures Divisible(Offset(m, b), b)
  {
    if m > 0 {
      DivisibleOffset(m - 1, b);
    }
  }

  /** The quotient of a divisible `n` by `b`, as a repetition count. */
  lemma {:induction false} DivisibleQuotient(n: nat, b: nat) returns (q: nat)
    requires Divisible(n, b)
    ensures Offset(q, b) == n
    decreases n
  {
    if n == 0 {
      q := 0;
    } else {
      var p := DivisibleQuotient(n - b, b);
      q := p + 1;
    }
  }

  lemma {:induction false} OffsetAdd(a: nat, b: nat, k: nat)
    ensures Offset(a + b, k) == Offset(a, k) + Offset(b, k)
    decreases b
  {
    if b > 0 {
      OffsetAdd(a, b - 1, k);
    }
  }

  /** `q` blocks of `m·k` are `q·m` blocks of `k`. */
  lemma {:induction false} OffsetNested(q: nat, m: nat, k: nat)
    ensures Offset(q, Offset(m, k)) == Offset(Offset(q, m), k)
    decreases q
  {
    if q > 0 {
      OffsetNested(q - 1, m, k);
      OffsetAdd(Offset(q - 1, m), m, k);
    }
  }

  /** What divides by `k·m` divides by `k`, and `k` goes into it a multiple
      of `m` times. */
  lemma DivisibleFactor(n: nat, k: nat, m: nat)
    requires k > 0 && m > 0 && Divisible(n, k * m)
    ensures Divisible(n, k)
    ensures forall c :: Offset(c, k) == n ==> Divisible(c, m)
  {
    var q := DivisibleQuotient(n, k * m);
    OffsetIsProduct(m, k);
    OffsetNested(q, m, k);
    var d := Offset(q, m);
    assert Offset(d, k) == n;
    DivisibleOffset(d, k);
    DivisibleOffset(q, m);
    forall c | Offset(c, k) == n
      ensures Divisible(c, m)
    {
      if c < d {
        OffsetMono(c, d, k);
      } else if d < c {
        OffsetMono(d, c, k);
      }
    }
  }

  /** Cutting a sequence whose length `k` divides gives pieces of exactly
      `k`, as many as `k` goes into the length. */
  lemma {:induction false} ChunkUniform<T>(s: seq<T>, k: nat)
    requires k > 0 && Divisible(|s|, k)
    ensures Uniform(Chunk(s, k), k) && Offset(|Chunk(s, k)|, k) == |s|
    decreases |s|
  {
    if |s| > k {
      ChunkUniform(s[k..], k);
    }
  }

  /** A non-empty sequence is its front followed by its last element. */
  lemma FrontLast<T>(s: seq<T>)
    requires |s| > 0
    ensures s[..|s| - 1] + [s[|s| - 1]] == s
  {
  }

  /** Slicing a prefix of `s` inside that prefix is slicing `s`. */
  lemma SliceOfPrefix<T>(s: seq<T>, m: nat, lo: nat, hi: nat)
    requires hi <= m <= |s|
    ensures Slice(s[..m], lo, hi) == Slice(s, lo, hi)
  {
  }
}
