/** `Priority` (src/shared/priority.rs): the scheduling hint of a spawned task, an
    enum whose derived `Ord` follows declaration order and whose default is MEDIUM. */
module Priorities {
  import opened Common

  datatype Priority = BACKGROUND | LOW | UTILITY | MEDIUM | HIGH | USERINITIATED

  /** The enum discriminant: BACKGROUND is 0 and each later variant is one more. */
  function Discriminant(p: Priority): (d: nat)
    ensures d <= 5
    ensures d == 0 <==> p == BACKGROUND
    ensures d == 5 <==> p == USERINITIATED
  {
    match p
    case BACKGROUND => 0
    case LOW => 1
    case UTILITY => 2
    case MEDIUM => 3
    case HIGH => 4
    case USERINITIATED => 5
  }

  /** The variant with a given discriminant: the inverse of `Discriminant`. */
  function FromDiscriminant(d: nat): (p: Priority)
    requires d <= 5
    ensures Discriminant(p) == d
  {
    if d == 0 then BACKGROUND
    else if d == 1 then LOW
    else if d == 2 then UTILITY
    else if d == 3 then MEDIUM
    else if d == 4 then HIGH
    else USERINITIATED
  }

  /** The derived `Ord::cmp`. */
  function Cmp(a: Priority, b: Priority): (r: Ordering)
    ensures r == Equal <==> a == b
    ensures r == Less <==> Discriminant(a) < Discriminant(b)
  {
    CompareNat(Discriminant(a), Discriminant(b))
  }

  /** `a <= b` under the derived order. */
  predicate Le(a: Priority, b: Priority) {
    Cmp(a, b) != Greater
  }

  /** `a < b` under the derived order. */
  predicate Lt(a: Priority, b: Priority) {
    Cmp(a, b) == Less
  }

  /** `Priority::default()`. */
  function Default(): (p: Priority)
    ensures Discriminant(p) == 3
  {
    MEDIUM
  }

  /** The declared order, variant by variant. */
  lemma DeclarationOrder()
    ensures Lt(BACKGROUND, LOW) && Lt(LOW, UTILITY) && Lt(UTILITY, MEDIUM)
    ensures Lt(MEDIUM, HIGH) && Lt(HIGH, USERINITIATED)
  {
  }

  /** Each variant's discriminant is unique, and every discriminant from 0 to 5 is used. */
  lemma {:induction false} DiscriminantsAreConsecutive(p: Priority, q: Priority)
    ensures Discriminant(p) == Discriminant(q) ==> p == q
    ensures FromDiscriminant(Discriminant(p)) == p
  {
  }

  /** `<=` compares discriminants. */
  lemma LeIsDiscriminantOrder(a: Priority, b: Priority)
    ensures Le(a, b) <==> Discriminant(a) <= Discriminant(b)
    ensures Lt(a, b) <==> Discriminant(a) < Discriminant(b)
  {
    DiscriminantsAreConsecutive(a, b);
  }

  /** The derived `PartialOrd`/`Ord` pair is a total order consistent with `Eq`. */
  lemma TotalOrder(a: Priority, b: Priority, c: Priority)
    ensures Le(a, a)
    ensures Le(a, b) && Le(b, a) ==> a == b
    ensures Le(a, b) && Le(b, c) ==> Le(a, c)
    ensures Le(a, b) || Le(b, a)
    ensures Lt(a, b) <==> Le(a, b) && a != b
    ensures Cmp(a, b) == Cmp(b, a).Reverse()
  {
  }
}
