/** Properties of the prefixes of a list, by the number of items in them: what holds step by step holds of the whole. */
module Prefixes {

  /** The property of n holds exactly when that of i does and i itself is fine. */
  ghost predicate Extends(upTo: nat -> bool, fine: nat -> bool, i: nat, n: nat) {
    n == i + 1 && (upTo(n) <==> upTo(i) && fine(i))
  }

  lemma {:induction false} AllOf(upTo: nat -> bool, fine: nat -> bool, n: nat)
    requires upTo(0) && forall i: nat, m: nat :: i < n && m == i + 1 ==> Extends(upTo, fine, i, m)
    ensures upTo(n) <==> forall i: nat :: i < n ==> fine(i)
  {
    if n > 0 {
      AllOf(upTo, fine, n - 1);
      assert Extends(upTo, fine, n - 1, n);
    }
  }

  /** The property of n holds exactly when that of i does or i gives cause for it. */
  ghost predicate Collects(upTo: nat -> bool, cause: nat -> bool, i: nat, n: nat) {
    n == i + 1 && (upTo(n) <==> upTo(i) || cause(i))
  }

  lemma {:induction false} AnyOf(upTo: nat -> bool, cause: nat -> bool, n: nat)
    requires !upTo(0) && forall i: nat, m: nat :: i < n && m == i + 1 ==> Collects(upTo, cause, i, m)
    ensures upTo(n) <==> exists i: nat :: i < n && cause(i)
  {
    if n > 0 {
      AnyOf(upTo, cause, n - 1);
      assert Collects(upTo, cause, n - 1, n);
    }
  }

  /** What holds at the start and is kept by every step holds at the end. */
  ghost predicate Passes(kept: nat -> bool, i: nat, n: nat) {
    n == i + 1 && (kept(i) ==> kept(n))
  }

  lemma {:induction false} KeptTo(kept: nat -> bool, n: nat)
    requires kept(0) && forall i: nat, m: nat :: i < n && m == i + 1 ==> Passes(kept, i, m)
    ensures kept(n)
  {
    if n > 0 {
      KeptTo(kept, n - 1);
      assert Passes(kept, n - 1, n);
    }
  }

  /** The items up to n are those up to i, and one more if i gives one. */
  ghost predicate Grows<T(!new)>(items: nat -> seq<T>, count: nat -> nat, gives: nat -> bool, item: nat -> T, i: nat,
      n: nat) {
    && n == i + 1 && items(n) == (if gives(i) then items(i) + [item(i)] else items(i))
    && count(n) == count(i) + if gives(i) then 1 else 0
  }

  lemma {:induction false} ItemsAre<T(!new)>(items: nat -> seq<T>, count: nat -> nat, gives: nat -> bool,
      item: nat -> T, n: nat)
    requires items(0) == [] && count(0) == 0
    requires forall i: nat, m: nat :: i < n && m == i + 1 ==> Grows(items, count, gives, item, i, m)
    ensures |items(n)| == count(n)
    ensures forall i: nat :: i < n && gives(i) ==> count(i) < |items(n)| && items(n)[count(i)] == item(i)
  {
    if n > 0 {
      ItemsAre(items, count, gives, item, n - 1);
      assert Grows(items, count, gives, item, n - 1, n);
    }
  }
}
