/**
 * The inventory ledger (`Storage` and `Item` in storage.rs): a money balance and
 * a quantity per stock item, plus the buy and sell transactions of the shop.
 */
module Ledger {
  import opened Crops

  /** A ledger key: seeds and harvested crops of one kind are counted apart. */
  datatype Item = Seed(crop: CropType) | Crop(crop: CropType)

  datatype Storage = Storage(money: int, items: map<Item, int>)

  /** Quantity of an item; an absent key stands for zero. */
  function Amount(s: Storage, it: Item): int
  {
    if it in s.items then s.items[it] else 0
  }

  /** Money and every quantity are non-negative. */
  ghost predicate Valid(s: Storage)
  {
    s.money >= 0 && forall it | it in s.items :: s.items[it] >= 0
  }

  /** Unit price of an item, for buying and selling alike. */
  function Cost(it: Item): (r: int)
    ensures r > 0
  {
    match it
    case Seed(Potato) => 1
    case Seed(Onion) => 8
    case Crop(Potato) => 2
    case Crop(Onion) => 16
  }

  /** Display name of an item: a seed is its crop's name followed by " seed". */
  function Name(it: Item): (r: string)
    ensures it.Crop? ==> r == CropName(it.crop)
    ensures it.Seed? ==> |r| == |CropName(it.crop)| + 5
    ensures it.Seed? ==> r[..|CropName(it.crop)|] == CropName(it.crop)
    ensures it.Seed? ==> r[|CropName(it.crop)|..] == " seed"
  {
    match it
    case Seed(c) => CropName(c) + " seed"
    case Crop(c) => CropName(c)
  }

  /** Distinct items have distinct names. */
  lemma NameInjective(a: Item, b: Item)
    requires Name(a) == Name(b)
    ensures a == b
  {
    assert |Name(a)| == |Name(b)|;
  }

  /** Value of the holding of one item together with the money. */
  function Holding(s: Storage, it: Item): int
  {
    s.money + Cost(it) * Amount(s, it)
  }

  /** Total value of the ledger: the money plus every holding at its unit price. */
  function Worth(s: Storage): int
  {
    s.money
    + Cost(Seed(Potato)) * Amount(s, Seed(Potato)) + Cost(Seed(Onion)) * Amount(s, Seed(Onion))
    + Cost(Crop(Potato)) * Amount(s, Crop(Potato)) + Cost(Crop(Onion)) * Amount(s, Crop(Onion))
  }

  /** A change confined to one item that keeps that item's holding value keeps the total value. */
  lemma WorthPreserved(s: Storage, s': Storage, it: Item)
    requires forall other | other != it :: Amount(s', other) == Amount(s, other)
    requires Holding(s', it) == Holding(s, it)
    ensures Worth(s') == Worth(s)
  {
    assert Amount(s', Seed(Potato)) == Amount(s, Seed(Potato)) || it == Seed(Potato);
    assert Amount(s', Seed(Onion)) == Amount(s, Seed(Onion)) || it == Seed(Onion);
    assert Amount(s', Crop(Potato)) == Amount(s, Crop(Potato)) || it == Crop(Potato);
    assert Amount(s', Crop(Onion)) == Amount(s, Crop(Onion)) || it == Crop(Onion);
  }

  /** Number of units a buy order obtains when the first unit is affordable. */
  function BuyUnits(money: int, cost: int): int
    requires cost > 0
  {
    if money / cost < 10 then money / cost else 10
  }

  /**
   * Buy order: when at least one unit is affordable, buy as many as the money
   * allows but never more than ten, and pay for them in the same step.
   */
  function Buy(s: Storage, it: Item): (r: Storage)
    ensures Cost(it) > s.money ==> r == s
    ensures Cost(it) <= s.money ==>
              var c := Amount(r, it) - Amount(s, it);
              && 1 <= c <= 10
              && r.money == s.money - Cost(it) * c
              && 0 <= r.money
              && (c == 10 || r.money < Cost(it))
    ensures forall other | other != it :: Amount(r, other) == Amount(s, other)
    ensures Holding(r, it) == Holding(s, it)
  {
    var cost := Cost(it);
    if cost <= s.money then
      var c := BuyUnits(s.money, cost);
      assert s.money == cost * (s.money / cost) + s.money % cost;
      Storage(s.money - cost * c, s.items[it := Amount(s, it) + c])
    else
      s
  }

  /**
   * The number of units bought is the only count that is at most ten, is paid
   * for, and leaves too little money for one more unit unless the cap was hit.
   */
  lemma {:induction false} BuyUnitsUnique(money: int, cost: int, c: int)
    requires 0 < cost <= money
    requires 1 <= c <= 10 && cost * c <= money
    requires c == 10 || money - cost * c < cost
    ensures c == BuyUnits(money, cost)
  {
    var q := money / cost;
    assert money == cost * q + money % cost && money % cost < cost;
    if c < 10 && c < q {
      MulMonotone(cost, c + 1, q);
      MulSucc(cost, c);
      assert false;
    }
    if q < c {
      MulMonotone(cost, q + 1, c);
      MulSucc(cost, q);
      assert false;
    }
  }

  /** One more unit costs one more price. */
  lemma MulSucc(a: int, x: int)
    ensures a * (x + 1) == a * x + a
  {
  }

  /** Multiplying by a positive factor keeps the order. */
  lemma MulMonotone(a: int, x: int, y: int)
    requires a > 0 && x <= y
    ensures a * x <= a * y
  {
    assert a * y == a * x + a * (y - x);
  }

  /** Sell order: a positive holding is sold whole at the unit price. */
  function Sell(s: Storage, it: Item): (r: Storage)
    ensures Amount(s, it) <= 0 ==> r == s
    ensures Amount(s, it) > 0 ==> Amount(r, it) == 0 && r.money == s.money + Cost(it) * Amount(s, it)
    ensures forall other | other != it :: Amount(r, other) == Amount(s, other)
    ensures Holding(r, it) == Holding(s, it)
  {
    var amount := Amount(s, it);
    if amount > 0 then
      Storage(s.money + Cost(it) * amount, s.items[it := amount - amount])
    else
      s
  }

  /** Buying and selling keep the ledger valid. */
  lemma TradesKeepValid(s: Storage, it: Item)
    ensures Valid(s) ==> Valid(Buy(s, it)) && Valid(Sell(s, it))
  {
    if !Valid(s) {
      return;
    }
    var b := Buy(s, it);
    forall i | i in b.items
      ensures b.items[i] >= 0
    {
      assert Amount(b, i) == b.items[i];
      if i != it {
        assert Amount(b, i) == Amount(s, i);
      }
    }
    var t := Sell(s, it);
    forall i | i in t.items
      ensures t.items[i] >= 0
    {
      assert Amount(t, i) == t.items[i];
      if i != it {
        assert Amount(t, i) == Amount(s, i);
      }
    }
  }
}
