/** The row-sequence witness: a 64-bit multiply-then-xor fold over a list of words,
    and the segmentation that lets a long list be folded piece by piece. */
module RowWitness {
  import opened Arith64

  const FNV_OFFSET: nat := 1469598103934665603
  const FNV_PRIME: nat := 1099511628211

  /** The inverse of FNV_PRIME modulo 2^64; only the proofs use it. */
  const PRIME_INVERSE: nat := 14886173955864302971

  function Mix(acc: nat, w: int): nat
  {
    Xor(Low64(acc * FNV_PRIME), Low64(w))
  }

  function Fold(acc: nat, words: seq<int>): nat
    decreases |words|
  {
    if words == [] then acc else Fold(Mix(acc, words[0]), words[1..])
  }

  function Witness(words: seq<int>, accIn: int): nat
  {
    Fold(Low64(accIn), words)
  }

  method ReferenceWitnessWords(words: seq<int>, accIn: int) returns (acc: nat)
    ensures acc == Witness(words, accIn) < WORD
  {
    acc := Low64(accIn);
    for i := 0 to |words|
      invariant acc < WORD
      invariant Fold(acc, words[i..]) == Witness(words, accIn)
    {
      assert words[i..][1..] == words[i + 1..];
      MixBound(acc, words[i]);
      acc := Low64(acc * FNV_PRIME);
      acc := Xor(acc, Low64(words[i]));
    }
    acc := Low64(acc);
  }

  lemma MixBound(acc: nat, w: int)
    ensures Mix(acc, w) < WORD
  {
    WordIsPow2();
    XorBound(Low64(acc * FNV_PRIME), Low64(w), 64);
  }

  lemma {:induction false} FoldBound(acc: nat, words: seq<int>)
    requires acc < WORD
    ensures Fold(acc, words) < WORD
    decreases |words|
  {
    if words != [] {
      MixBound(acc, words[0]);
      FoldBound(Mix(acc, words[0]), words[1..]);
    }
  }

  lemma {:induction false} FoldAppend(acc: nat, a: seq<int>, b: seq<int>)
    ensures Fold(acc, a + b) == Fold(Fold(acc, a), b)
    decreases |a|
  {
    if a == [] {
      assert a + b == b;
    } else {
      assert (a + b)[1..] == a[1..] + b;
      FoldAppend(Mix(acc, a[0]), a[1..], b);
    }
  }

  // ----- The fold loses nothing: every step can be undone -----

  function Unmix(r: nat, w: int): nat
  {
    Low64(Xor(r, Low64(w)) * PRIME_INVERSE)
  }

  function Unfold(r: nat, words: seq<int>): nat
    decreases |words|
  {
    if words == [] then r else Unmix(Unfold(r, words[1..]), words[0])
  }

  lemma ScaleBack(x: nat)
    requires x < WORD
    ensures Low64(Low64(x * FNV_PRIME) * PRIME_INVERSE) == x
    ensures Low64(Low64(x * PRIME_INVERSE) * FNV_PRIME) == x
  {
    var one := FNV_PRIME * PRIME_INVERSE;
    var q := one / WORD;
    assert one == 1 + q * WORD;
    MulMod(x * FNV_PRIME, PRIME_INVERSE, WORD);
    MulMod(Low64(x * FNV_PRIME), PRIME_INVERSE, WORD);
    MulMod(x * PRIME_INVERSE, FNV_PRIME, WORD);
    MulMod(Low64(x * PRIME_INVERSE), FNV_PRIME, WORD);
    assert x * FNV_PRIME * PRIME_INVERSE == x + (x * q) * WORD == x * PRIME_INVERSE * FNV_PRIME;
    ModShift(x, x * q, WORD);
  }

  lemma MixInverse(x: nat, w: int)
    requires x < WORD
    ensures Unmix(Mix(x, w), w) == x
    ensures Unmix(x, w) < WORD && Mix(Unmix(x, w), w) == x
  {
    WordIsPow2();
    ScaleBack(x);
    XorCancels(Low64(x * FNV_PRIME), Low64(w));
    XorBound(x, Low64(w), 64);
    ScaleBack(Xor(x, Low64(w)));
    XorCancels(x, Low64(w));
  }

  /** For fixed words, accumulator in and witness out determine each other. */
  lemma {:induction false} FoldIsBijection(acc: nat, words: seq<int>)
    requires acc < WORD
    ensures Unfold(Fold(acc, words), words) == acc
    ensures Unfold(acc, words) < WORD && Fold(Unfold(acc, words), words) == acc
    decreases |words|
  {
    if words != [] {
      MixBound(acc, words[0]);
      MixInverse(acc, words[0]);
      FoldIsBijection(Mix(acc, words[0]), words[1..]);
      FoldIsBijection(acc, words[1..]);
      MixInverse(Unfold(acc, words[1..]), words[0]);
    }
  }

  lemma StartingAccumulatorIsDetected(words: seq<int>, a: int, b: int)
    ensures Witness(words, a) == Witness(words, b) <==> Low64(a) == Low64(b)
  {
    FoldIsBijection(Low64(a), words);
    FoldIsBijection(Low64(b), words);
  }

  lemma {:induction false} XorCommutes(a: nat, b: nat)
    ensures Xor(a, b) == Xor(b, a)
    decreases a + b
  {
    if a > 0 || b > 0 {
      XorCommutes(a / 2, b / 2);
    }
  }

  lemma MixSeesWord(acc: nat, v: int, w: int)
    ensures Mix(acc, v) == Mix(acc, w) <==> Low64(v) == Low64(w)
  {
    var x := Low64(acc * FNV_PRIME);
    XorCommutes(x, Low64(v));
    XorCommutes(x, Low64(w));
    XorCancels(Low64(v), x);
    XorCancels(Low64(w), x);
  }

  /** Two lists that agree except at position k have the same witness exactly when the two words
      at k agree modulo 2^64. */
  lemma SingleWordChangeIsDetected(ws: seq<int>, vs: seq<int>, k: nat, accIn: int)
    requires |ws| == |vs| && k < |ws|
    requires ws[..k] == vs[..k] && ws[k + 1..] == vs[k + 1..]
    ensures Witness(ws, accIn) == Witness(vs, accIn) <==> Low64(ws[k]) == Low64(vs[k])
  {
    var acc := Fold(Low64(accIn), ws[..k]);
    assert ws == ws[..k] + ws[k..] && vs == ws[..k] + vs[k..];
    FoldAppend(Low64(accIn), ws[..k], ws[k..]);
    FoldAppend(Low64(accIn), ws[..k], vs[k..]);
    assert ws[k..][1..] == ws[k + 1..] == vs[k..][1..];
    MixSeesWord(acc, ws[k], vs[k]);
    MixBound(acc, ws[k]);
    MixBound(acc, vs[k]);
    FoldIsBijection(Mix(acc, ws[k]), ws[k + 1..]);
    FoldIsBijection(Mix(acc, vs[k]), ws[k + 1..]);
  }

  // ----- Segmentation -----

  /** Consecutive segments of at most maxRows words, in order. */
  function Segments(words: seq<int>, maxRows: nat): (segs: seq<seq<int>>)
    requires maxRows >= 1
    ensures forall i :: 0 <= i < |segs| ==> 1 <= |segs[i]| <= maxRows
    ensures forall i :: 0 <= i < |segs| - 1 ==> |segs[i]| == maxRows
    ensures Concat(segs) == words
    decreases |words|
  {
    if words == [] then []
    else if |words| <= maxRows then [words]
    else
      assert words == words[..maxRows] + words[maxRows..];
      [words[..maxRows]] + Segments(words[maxRows..], maxRows)
  }

  function Concat(segs: seq<seq<int>>): seq<int>
  {
    if segs == [] then [] else segs[0] + Concat(segs[1..])
  }

  lemma {:induction false} ConcatSnoc(segs: seq<seq<int>>, last: seq<int>)
    ensures Concat(segs + [last]) == Concat(segs) + last
  {
    if segs == [] {
      assert segs + [last] == [last];
    } else {
      assert (segs + [last])[1..] == segs[1..] + [last];
      ConcatSnoc(segs[1..], last);
    }
  }
}
