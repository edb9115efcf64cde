/** Division and multiplication facts. */
module Arithmetic {
  const TWO32: nat := 0x1_0000_0000

  function Min(a: int, b: int): int {
    if a < b then a else b
  }

  function Max(a: int, b: int): int {
    if a < b then b else a
  }


  lemma IndexInBounds(off: nat, n: nat, s: nat)
    requires s > 0 && off < n * s
    ensures 0 <= off / s < n
    ensures (off / s) * s <= off < (off / s) * s + s
  {
  }

  lemma DivModUnique(off: int, s: nat, i: int, r: nat)
    requires s > 0 && r < s && off == i * s + r
    ensures off / s == i && off % s == r
  {
    var d := off / s - i;
    assert d * s == (off / s) * s - i * s == r - off % s;
    SmallMultiple(d, s);
  }

  lemma SmallMultiple(d: int, s: int)
    requires -s < d * s < s
    ensures d == 0
  {
    if d >= 1 {
      assert false;
    } else if d <= -1 {
      assert false;
    }
  }

  lemma MulStep(i: int, n: int, s: nat)
    requires i < n
    ensures (i + 1) * s == i * s + s && i * s + s <= n * s
  {
    assert (i + 1) * s <= n * s;
  }

  lemma MultipleMod(q: int, s: nat)
    requires s > 0
    ensures (q * s) % s == 0
  {
    DivModUnique(q * s, s, q, 0);
  }

  /** Definitions that say `Unfold(k) ==> ...` are only looked into by proofs that say `Unfold`.
      This keeps proofs that do not need them small. */
  predicate Unfold(k: nat) {
    true
  }

  /** The same for a second layer of definitions, so that it can be looked into alone. */
  predicate Open(k: nat) {
    true
  }

  /** `a` is a multiple of `size`. */
  ghost predicate Aligned(a: int, size: nat)
    requires size > 0
  {
    forall k {:trigger Unfold(k)} :: Unfold(k) ==> a % size == 0
  }

  lemma AlignedIs(a: int, size: nat)
    requires size > 0
    ensures Aligned(a, size) <==> a % size == 0
  {
    assert Unfold(0);
  }
}
