/**
  The detail screen: the product handed over by the catalog and a quantity
  counter that starts at 1, goes up without bound and never goes below 1.
 */
module ProductDetailScreen {
  import opened DonutApp

  /** The two quantity buttons. */
  datatype Press = IncreasePress | DecreasePress

  /** The update applied on "-": one less, but never below 1. The result is
      the smallest quantity of at least 1 that is at least `prev - 1`. */
  function DecreaseStep(prev: int): (r: int)
    ensures r >= 1 && r >= prev - 1
    ensures r == 1 || r == prev - 1
  {
    if prev > 1 then prev - 1 else 1
  }

  /** The quantity after one press. */
  function Step(quantity: int, press: Press): (r: int)
    ensures quantity >= 1 ==> r >= 1 && quantity - 1 <= r <= quantity + 1
    ensures quantity >= 1 ==> (r > quantity <==> press == IncreasePress)
  {
    match press
    case IncreasePress => quantity + 1
    case DecreasePress => DecreaseStep(quantity)
  }

  /** The quantity after pressing the buttons in the order given. No
      sequence of presses takes a valid quantity below 1. */
  function Run(start: int, presses: seq<Press>): (r: int)
    ensures start >= 1 ==> r >= 1
  {
    if presses == [] then start
    else Step(Run(start, presses[..|presses| - 1]), presses[|presses| - 1])
  }

  /** "-" undoes "+" from every valid quantity. */
  lemma IncreaseThenDecrease(n: int)
    requires n >= 1
    ensures Run(n, [IncreasePress, DecreasePress]) == n
  {
    assert [IncreasePress, DecreasePress][..1] == [IncreasePress];
    assert [IncreasePress][..0] == [];
    assert Run(n, [IncreasePress]) == n + 1;
  }

  /** From a valid quantity, "-" moves down exactly when it is above 1 and
      leaves 1 where it is. */
  lemma DecreaseOnlyAboveOne(n: int)
    requires n >= 1
    ensures Step(n, DecreasePress) < n <==> n > 1
    ensures Step(n, DecreasePress) == n <==> n == 1
  {
  }

  /** However often "-" is pressed at 1, the quantity stays 1. */
  lemma {:induction false} RepeatedDecreaseAtOne(k: nat)
    ensures Run(1, seq(k, _ => DecreasePress)) == 1
  {
    if k > 0 {
      RepeatedDecreaseAtOne(k - 1);
      assert seq(k, _ => DecreasePress)[..k - 1] == seq(k - 1, _ => DecreasePress);
    }
  }

  /** "+" has no upper bound: `k` presses add exactly `k`. */
  lemma {:induction false} RepeatedIncrease(start: int, k: nat)
    ensures Run(start, seq(k, _ => IncreasePress)) == start + k
  {
    if k > 0 {
      RepeatedIncrease(start, k - 1);
      assert seq(k, _ => IncreasePress)[..k - 1] == seq(k - 1, _ => IncreasePress);
    }
  }

  /** Each "+" adds one and each "-" removes at most one, so the quantity is
      bounded above by the start plus the "+" presses and below by the start
      plus the "+" presses minus the "-" presses. */
  lemma {:induction false} RunBounds(start: int, presses: seq<Press>)
    requires start >= 1
    ensures Run(start, presses) <= start + multiset(presses)[IncreasePress]
    ensures Run(start, presses) >= start + multiset(presses)[IncreasePress] - multiset(presses)[DecreasePress]
  {
    if presses != [] {
      var init := presses[..|presses| - 1];
      RunBounds(start, init);
      assert presses == init + [presses[|presses| - 1]];
    }
  }

  /** The detail screen's state. */
  class ProductDetail {
    /** The product handed over by the catalog; the screen never changes it. */
    const product: Product
    var quantity: int
    /** The buttons pressed since the screen was opened. */
    ghost var presses: seq<Press>

    /** The quantity is what the presses so far produce from 1, and so at
        least 1. */
    ghost predicate Valid()
      reads this
    {
      quantity == Run(1, presses) && quantity >= 1
    }

    /** Opening the screen for a product: quantity 1, nothing pressed. */
    constructor (product: Product)
      ensures Valid()
      ensures this.product == product && quantity == 1 && presses == []
    {
      this.product := product;
      quantity := 1;
      presses := [];
    }

    /** "+": one more, with no upper bound. */
    method IncreaseQuantity()
      requires Valid()
      modifies this
      ensures Valid()
      ensures quantity == old(quantity) + 1
      ensures presses == old(presses) + [IncreasePress]
    {
      quantity := quantity + 1;
      presses := presses + [IncreasePress];
    }

    /** "-": one less above 1, and 1 stays 1. */
    method DecreaseQuantity()
      requires Valid()
      modifies this
      ensures Valid()
      ensures quantity == DecreaseStep(old(quantity))
      ensures presses == old(presses) + [DecreasePress]
    {
      quantity := DecreaseStep(quantity);
      presses := presses + [DecreasePress];
    }
  }
}
