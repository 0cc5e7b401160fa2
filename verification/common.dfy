/** Shared vocabulary: optional values, the outcome of a call that may raise,
    and the fixed-size chunking that both the audio splitter and the verdict
    wrapper perform. */
module Common {

  datatype Option<+T> = None | Some(value: T)

  /** The outcome of a call into code outside the model (a language model,
      the speech-to-text service, the file system): it either returns a
      value or raises an exception. */
  datatype Attempt<+T> = Returned(value: T) | Raised

  function Min(a: int, b: int): int
  {
    if a <= b then a else b
  }

  /** Python's `(n + k - 1) // k` for positive k. */
  function CeilDiv(n: nat, k: nat): (q: nat)
    requires k > 0
    ensures q * k >= n
    ensures q == 0 || (q - 1) * k < n
  {
    CeilDivBounds(n, k);
    (n + k - 1) / k
  }

  lemma CeilDivBounds(n: nat, k: nat)
    requires k > 0
    ensures ((n + k - 1) / k) * k >= n
    ensures (n + k - 1) / k == 0 || ((n + k - 1) / k - 1) * k < n
  {
    var q := (n + k - 1) / k;
    var r := (n + k - 1) % k;
    assert n + k - 1 == q * k + r;
  }

  /** Concatenation of a sequence of sequences. */
  function Flatten<T>(xs: seq<seq<T>>): seq<T>
  {
    if xs == [] then [] else xs[0] + Flatten(xs[1..])
  }

  lemma FlattenAppend<T>(xs: seq<seq<T>>, ys: seq<seq<T>>)
    ensures Flatten(xs + ys) == Flatten(xs) + Flatten(ys)
  {
    if xs != [] {
      assert (xs + ys)[1..] == xs[1..] + ys;
      FlattenAppend(xs[1..], ys);
    } else {
      assert xs + ys == ys;
    }
  }

  /** Consecutive slices `s[i*size : i*size + size]` for i = 0, 1, ...,
      as long as the offset is below `|s|`; the last one may be short. */
  function Chunks<T>(s: seq<T>, size: nat): seq<seq<T>>
    requires size > 0
    decreases |s|
  {
    if |s| == 0 then []
    else if |s| <= size then [s]
    else [s[..size]] + Chunks(s[size..], size)
  }

  /** Concatenating the chunks gives back the sequence, every chunk is
      non-empty, and every chunk but the last is exactly `size` long. */
  lemma {:induction false} ChunksRoundTrip<T>(s: seq<T>, size: nat)
    requires size > 0
    ensures Flatten(Chunks(s, size)) == s
    ensures forall c :: c in Chunks(s, size) ==> 0 < |c| <= size
    ensures forall i :: 0 <= i < |Chunks(s, size)| - 1 ==> |Chunks(s, size)[i]| == size
    decreases |s|
  {
    ChunksFlatten(s, size);
    ChunksSizes(s, size);
    var cs := Chunks(s, size);
    forall c | c in cs ensures 0 < |c| <= size {
      var i :| 0 <= i < |cs| && cs[i] == c;
    }
  }

  lemma {:induction false} ChunksFlatten<T>(s: seq<T>, size: nat)
    requires size > 0
    ensures Flatten(Chunks(s, size)) == s
    decreases |s|
  {
    if |s| > size {
      var head, rest := s[..size], s[size..];
      ChunksFlatten(rest, size);
      var cs := Chunks(s, size);
      assert cs == [head] + Chunks(rest, size);
      assert cs[0] == head && cs[1..] == Chunks(rest, size);
      assert head + rest == s;
    }
  }

  lemma {:induction false} ChunksSizes<T>(s: seq<T>, size: nat)
    requires size > 0
    ensures var cs := Chunks(s, size);
            forall i :: 0 <= i < |cs| ==> 0 < |cs[i]| <= size && (i < |cs| - 1 ==> |cs[i]| == size)
    decreases |s|
  {
    if |s| > size {
      var rest := s[size..];
      ChunksSizes(rest, size);
      var cs := Chunks(s, size);
      assert cs == [s[..size]] + Chunks(rest, size);
      forall i | 1 <= i < |cs| ensures cs[i] == Chunks(rest, size)[i - 1] {
      }
    }
  }

  /** The number of chunks is the ceiling of `|s| / size`. */
  lemma {:induction false} ChunksCount<T>(s: seq<T>, size: nat)
    requires size > 0
    ensures |Chunks(s, size)| == CeilDiv(|s|, size)
    decreases |s|
  {
    if |s| > size {
      ChunksCount(s[size..], size);
      var m := |s| + size - 1;
      DivShift(m, size);
      assert m - size == |s[size..]| + size - 1;
    } else if |s| > 0 {
      DivOne(|s| + size - 1, size);
    }
  }

  lemma DivShift(m: nat, k: nat)
    requires k > 0 && m >= k
    ensures m / k == (m - k) / k + 1
  {
    var q, r := (m - k) / k, (m - k) % k;
    assert m - k == q * k + r;
    assert m == (q + 1) * k + r;
    DivUnique(m, k, q + 1, r);
  }

  lemma DivUnique(m: int, k: int, q: int, r: int)
    requires k > 0 && 0 <= r < k && m == q * k + r
    ensures m / k == q
  {
    var q', r' := m / k, m % k;
    assert m == q' * k + r';
    var d := q - q';
    assert d * k == r' - r;
    if d >= 1 {
      MulAtLeast(d, k);
    } else if d <= -1 {
      MulAtLeast(-d, k);
    }
  }

  lemma {:induction false} MulAtLeast(a: int, k: int)
    requires a >= 1 && k > 0
    ensures a * k >= k
    decreases a
  {
    if a > 1 {
      MulAtLeast(a - 1, k);
      assert a * k == (a - 1) * k + k;
    }
  }

  lemma DivOne(m: nat, k: nat)
    requires k > 0 && k <= m < 2 * k
    ensures m / k == 1
  {
  }

  lemma OffsetStep(i: nat, size: nat)
    requires i > 0
    ensures (i - 1) * size + size == i * size
  {
  }

  /** Chunk i is the slice starting at offset `i * size`. */
  lemma {:induction false} ChunkAt<T>(s: seq<T>, size: nat, i: nat)
    requires size > 0
    requires i < |Chunks(s, size)|
    ensures i * size < |s|
    ensures Chunks(s, size)[i] == s[i * size .. Min(i * size + size, |s|)]
    decreases |s|
  {
    if |s| > size {
      var rest := s[size..];
      assert Chunks(s, size) == [s[..size]] + Chunks(rest, size);
      if i > 0 {
        ChunkAt(rest, size, i - 1);
        var off := (i - 1) * size;
        OffsetStep(i, size);
        assert Chunks(s, size)[i] == Chunks(rest, size)[i - 1];
        var hi := Min(off + size, |rest|);
        assert hi + size == Min(i * size + size, |s|);
        assert rest[off .. hi] == s[i * size .. hi + size];
      }
    }
  }

  /** Splitting off one more chunk at offset `pos`: the chunks of `s[pos..]`
      are the slice `s[pos : pos + size]` followed by the chunks of what is
      left.  This is the step the chunking loops take. */
  lemma ChunksStep<T>(s: seq<T>, size: nat, pos: nat)
    requires size > 0 && pos < |s|
    ensures Chunks(s[pos..], size)
         == [s[pos .. Min(pos + size, |s|)]] + Chunks(s[Min(pos + size, |s|)..], size)
  {
    var t := s[pos..];
    if |t| <= size {
      assert t == s[pos .. Min(pos + size, |s|)];
      assert s[Min(pos + size, |s|)..] == [];
    } else {
      assert t[..size] == s[pos .. pos + size];
      assert t[size..] == s[pos + size..];
    }
  }
}
