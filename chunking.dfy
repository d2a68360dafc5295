/** Splitting the input rows into contiguous windows (`range(0, len(data), chunk_size)`). */
module Chunking {

  /** The window size the processing loop uses. */
  const ChunkSize: nat := 1000

  /** The windows `s[0..n]`, `s[n..2n]`, ... in order; the last may be shorter. */
  function Chunks<T>(s: seq<T>, n: nat): (r: seq<seq<T>>)
    requires n > 0
    ensures s == [] <==> r == []
    ensures forall c :: c in r ==> 0 < |c| <= n
    decreases |s|
  {
    if s == [] then []
    else if |s| <= n then [s]
    else [s[..n]] + Chunks(s[n..], n)
  }

  /** The concatenation of a sequence of sequences. */
  function Flatten<T>(ss: seq<seq<T>>): seq<T>
  {
    if ss == [] then [] else ss[0] + Flatten(ss[1..])
  }

  /** The windows, concatenated in order, give back the input: every row is in
      exactly one window, in its original position. */
  lemma {:induction false} ChunksCoverInput<T>(s: seq<T>, n: nat)
    requires n > 0
    ensures Flatten(Chunks(s, n)) == s
    decreases |s|
  {
    if s != [] && |s| > n {
      var c := Chunks(s, n);
      var rest := Chunks(s[n..], n);
      assert c == [s[..n]] + rest;
      ChunksCoverInput(s[n..], n);
      FlattenCons(s[..n], rest);
      assert s == s[..n] + s[n..];
    } else if s != [] {
      FlattenCons(s, []);
    }
  }

  lemma FlattenCons<T>(x: seq<T>, xs: seq<seq<T>>)
    ensures Flatten([x] + xs) == x + Flatten(xs)
  {
    assert ([x] + xs)[1..] == xs;
  }

  /** There are ceil(|s| / n) windows. */
  lemma {:induction false} ChunkSizes<T>(s: seq<T>, n: nat)
    requires n > 0
    ensures |Chunks(s, n)| == (|s| + n - 1) / n
    decreases |s|
  {
    if s != [] && |s| > n {
      ChunkSizes(s[n..], n);
      CeilStep(|s|, n);
    } else if s != [] {
      CeilOne(|s|, n);
    }
  }

  /** ceil(len / n) is one more than ceil((len - n) / n). */
  lemma CeilStep(len: nat, n: nat)
    requires n > 0 && len > n
    ensures (len + n - 1) / n == (len - n + n - 1) / n + 1
  {
    DivShift(len - 1, n);
  }

  /** ceil(len / n) is 1 for 0 < len <= n. */
  lemma CeilOne(len: nat, n: nat)
    requires 0 < len <= n
    ensures (len + n - 1) / n == 1
  {
    assert n <= len + n - 1 < 2 * n;
  }

  /** Every window but the last holds exactly n rows. */
  lemma {:induction false} FullChunks<T>(s: seq<T>, n: nat)
    requires n > 0
    ensures forall i :: 0 <= i < |Chunks(s, n)| - 1 ==> |Chunks(s, n)[i]| == n
    decreases |s|
  {
    if |s| > n {
      FullChunks(s[n..], n);
      var c := Chunks(s, n);
      forall i | 1 <= i < |c| - 1
        ensures |c[i]| == n
      {
        assert c[i] == Chunks(s[n..], n)[i - 1];
      }
    }
  }

  /** Adding the divisor once to the dividend adds one to the quotient. */
  lemma DivShift(a: int, n: nat)
    requires n > 0 && a >= 0
    ensures (a + n) / n == a / n + 1
  {
    var q, r := a / n, a % n;
    assert a == q * n + r && 0 <= r < n;
    assert a + n == (q + 1) * n + r;
    DivUnique(a + n, n, q + 1, r);
  }

  /** The quotient is determined by any decomposition with a remainder in range. */
  lemma DivUnique(x: int, n: nat, q: int, r: int)
    requires n > 0 && x == q * n + r && 0 <= r < n
    ensures x / n == q
  {
    var q', r' := x / n, x % n;
    assert x == q' * n + r' && 0 <= r' < n;
    var d := q - q';
    assert d * n == q * n - q' * n by { MulSub(q, q', n); }
    assert d * n == r' - r;
    if d >= 1 {
      MulAtLeast(d, n);
    } else if d <= -1 {
      MulAtLeast(-d, n);
    }
  }

  lemma MulSub(a: int, b: int, n: int)
    ensures (a - b) * n == a * n - b * n
  {
  }

  lemma MulAtLeast(k: int, n: nat)
    requires k >= 1
    ensures k * n >= n
  {
    assert k * n == (k - 1) * n + n;
  }

  /** The windows of a suffix `s[start..]` with `start < |s|`: the first one is
      `s[start .. start + n]` (clipped to the end), the rest are the windows of what follows. */
  lemma ChunksFrom<T>(s: seq<T>, n: nat, start: nat)
    requires n > 0 && start < |s|
    ensures var hi := if start + n < |s| then start + n else |s|;
      Chunks(s[start..], n) == [s[start..hi]] + Chunks(s[hi..], n)
  {
    var hi := if start + n < |s| then start + n else |s|;
    if start + n < |s| {
      assert s[start..][..n] == s[start..hi];
      assert s[start..][n..] == s[hi..];
    } else {
      assert s[start..] == s[start..hi];
      assert s[hi..] == [];
    }
  }
}
