/**
 * The fixed-size split the streamed uploader reads a file with, and the chunk
 * count it announces before the first request.
 */
module Chunking {
  import opened Http

  /** `CHUNK_SIZE`: 10 MiB. */
  const ChunkSize: nat := 10 * 1024 * 1024

  /** `Math.ceil(a / b)` on exact integers. */
  function CeilDiv(a: nat, b: nat): (r: nat)
    requires b > 0
    ensures a <= r * b < a + b
  {
    (a + b - 1) / b
  }

  /** The ceiling is the least multiple count covering `a`. */
  lemma CeilDivBounds(a: nat, b: nat)
    requires b > 0
    ensures CeilDiv(a, b) * b >= a
    ensures a > 0 ==> (CeilDiv(a, b) - 1) * b < a
    ensures a == 0 <==> CeilDiv(a, b) == 0
  {
    var q, r := (a + b - 1) / b, (a + b - 1) % b;
    assert a + b - 1 == q * b + r && 0 <= r < b;
  }

  lemma CeilDivStep(a: nat, b: nat)
    requires 0 < b < a
    ensures CeilDiv(a, b) == 1 + CeilDiv(a - b, b)
  {
    var x := a - b + b - 1;
    assert a + b - 1 == x + b;
    DivPlusDivisor(x, b);
  }

  lemma DivPlusDivisor(x: nat, b: nat)
    requires b > 0
    ensures (x + b) / b == x / b + 1
  {
    var q, r := x / b, x % b;
    assert x == q * b + r && 0 <= r < b;
    assert x + b == (q + 1) * b + r;
    DivUnique(x + b, b, q + 1, r);
  }

  /** Euclidean division has one quotient. */
  lemma DivUnique(n: nat, b: nat, q: int, r: int)
    requires b > 0 && 0 <= r < b && n == q * b + r
    ensures n / b == q
  {
    var q', r' := n / b, n % b;
    assert n == q' * b + r' && 0 <= r' < b;
    if q > q' {
      assert (q - q') * b == r' - r;
      assert (q - q') * b >= b by {
        MulAtLeast(q - q', b);
      }
    } else if q < q' {
      assert (q' - q) * b == r - r';
      assert (q' - q) * b >= b by {
        MulAtLeast(q' - q, b);
      }
    }
  }

  lemma MulAtLeast(k: int, b: nat)
    requires k >= 1
    ensures k * b >= b
  {
  }

  lemma CeilDivOne(a: nat, b: nat)
    requires 0 < a <= b
    ensures CeilDiv(a, b) == 1
  {
    assert b <= a + b - 1 < 2 * b;
  }

  /**
   * The slicing loop `for (i = 0; i < len; i += size) chunks.push(buf.slice(i, i + size))`:
   * full slices of `size` bytes and a shorter last one, which together spell
   * the input, `ceil(len / size)` of them, none for an empty input.
   */
  function Split(s: Bytes, size: nat): (chunks: seq<Bytes>)
    requires size > 0
    ensures Concat(chunks) == s
    ensures forall i :: 0 <= i < |chunks| ==> 0 < |chunks[i]| <= size
    ensures forall i :: 0 <= i < |chunks| - 1 ==> |chunks[i]| == size
    ensures |chunks| == CeilDiv(|s|, size)
    decreases |s|
  {
    if |s| == 0 then
      CeilDivBounds(0, size);
      []
    else if |s| <= size then
      CeilDivOne(|s|, size);
      ConcatCons(s, []);
      [s]
    else
      var rest := Split(s[size..], size);
      ConcatCons(s[..size], rest);
      CeilDivStep(|s|, size);
      assert s[..size] + s[size..] == s;
      [s[..size]] + rest
  }
}
