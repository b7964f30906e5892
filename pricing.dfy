/**
 * The margin policy of a product: `Product.get_status` and
 * `Product.calculate_new_prices`. The target margin (55%) and the yellow
 * threshold (10%) are fixed constants. Arithmetic is exact over reals;
 * Python's `round` (ties to even) is written out.
 */
module Pricing {
  import opened Wrappers

  datatype Status = Green | Yellow | Red | Unknown

  /** Dividing a non-zero cost by a zero price raises. */
  datatype PricingError = DivisionByZero

  const TargetMarginPercent: int := 55
  const MinMarginPercent: int := 10

  /** `((price - cost) / price) * 100` */
  function MarginPercent(price: real, cost: real): real
    requires price != 0.0
  {
    (price - cost) / price * 100.0
  }

  /** `get_status`: unknown without a cost, otherwise green / yellow / red by margin. */
  function GetStatus(cost: int, price: int): (r: Result<Status, PricingError>)
    ensures r.Failure? <==> cost != 0 && price == 0
    ensures r == Success(Unknown) <==> cost == 0
  {
    if cost == 0 then Success(Unknown)
    else if price == 0 then Failure(DivisionByZero)
    else
      var margin := MarginPercent(price as real, cost as real);
      if margin >= TargetMarginPercent as real then Success(Green)
      else if margin >= MinMarginPercent as real then Success(Yellow)
      else Success(Red)
  }

  /** Over a positive price, comparing the margin with a bound needs no division. */
  lemma MarginAtLeast(p: real, c: real, bound: real)
    requires p > 0.0
    ensures MarginPercent(p, c) >= bound <==> (p - c) * 100.0 >= bound * p
  {
    var m := MarginPercent(p, c);
    assert m * p == (p - c) * 100.0;
    assert m >= bound <==> m * p >= bound * p by {
      if m >= bound {
        assert m * p >= bound * p;
      } else {
        assert m * p < bound * p;
      }
    }
  }

  /**
   * For a positive price the classification needs no division: green when the
   * price is at least cost + 55% of the price, yellow when at least cost + 10%,
   * red below that.
   */
  lemma {:induction false} StatusByIntegers(cost: int, price: int)
    requires cost != 0 && price > 0
    ensures GetStatus(cost, price) == Success(Green) <==> 100 * (price - cost) >= 55 * price
    ensures GetStatus(cost, price) == Success(Yellow) <==> 100 * (price - cost) < 55 * price && 100 * (price - cost) >= 10 * price
    ensures GetStatus(cost, price) == Success(Red) <==> 100 * (price - cost) < 10 * price
  {
    MarginAtLeast(price as real, cost as real, 55.0);
    MarginAtLeast(price as real, cost as real, 10.0);
  }

  /** Python's `round(x)`: the nearest integer, ties to the even one. */
  function RoundHalfEven(x: real): (r: int)
    ensures x - 0.5 <= r as real <= x + 0.5
    ensures (r as real - x == 0.5 || x - r as real == 0.5) ==> r % 2 == 0
  {
    var f := x.Floor;
    var d := x - f as real;
    if d < 0.5 then f
    else if d > 0.5 then f + 1
    else if f % 2 == 0 then f else f + 1
  }

  /** The two properties of `RoundHalfEven` determine its value. */
  lemma RoundHalfEvenUnique(x: real, n: int)
    requires x - 0.5 <= n as real <= x + 0.5
    requires (n as real - x == 0.5 || x - n as real == 0.5) ==> n % 2 == 0
    ensures n == RoundHalfEven(x)
  {
    var r := RoundHalfEven(x);
    assert -1 <= n - r <= 1;
    assert n - r == 1 ==> n as real - x == 0.5 && x - r as real == 0.5;
    assert n - r == -1 ==> x - n as real == 0.5 && r as real - x == 0.5;
  }

  /** Python's `round(x, 1)`, taken over exact reals. */
  function RoundTenths(x: real): (r: real)
    ensures x - 0.05 <= r <= x + 0.05
  {
    RoundHalfEven(x * 10.0) as real / 10.0
  }

  /** The dictionary returned by `calculate_new_prices`. */
  datatype PriceCalculation = PriceCalculation(
    productCode: string,
    productName: string,
    costOld: real,
    costNew: int,
    priceOld: real,
    currentMargin: real,
    status: Status,
    recommendedPrice: int,
    shouldUpdate: bool)

  /** `cost * (1 + pct / 100)` */
  function NewCost(cost: int, costIncreasePercent: real): real
  {
    cost as real * (1.0 + costIncreasePercent / 100.0)
  }

  /** The price whose margin over `costNew` is the target: `cost_new / (1 - 0.55)`. */
  function RecommendedPrice(costNew: real): real
  {
    var targetMargin := TargetMarginPercent as real / 100.0;
    if targetMargin < 1.0 then costNew / (1.0 - targetMargin) else costNew * 2.0
  }

  /** The margin the current price would have over the new cost (0 without a positive price). */
  function CurrentMargin(price: int, costNew: real): real
  {
    if price > 0 then MarginPercent(price as real, costNew) else 0.0
  }

  /** `calculate_new_prices(cost_increase_percent)`; it fails exactly when `get_status` does. */
  function CalculateNewPrices(productCode: string, productName: string, cost: int, price: int,
                              costIncreasePercent: real): (r: Result<PriceCalculation, PricingError>)
    ensures r.Failure? <==> GetStatus(cost, price).Failure?
    ensures r.Success? ==> r.value.status == GetStatus(cost, price).value
    ensures r.Success? ==> r.value.shouldUpdate <==> CurrentMargin(price, NewCost(cost, costIncreasePercent)) < 55.0
  {
    var status := GetStatus(cost, price);
    if status.Failure? then Failure(status.error)
    else
      var costNew := NewCost(cost, costIncreasePercent);
      var currentMargin := CurrentMargin(price, costNew);
      Success(PriceCalculation(
        productCode, productName, cost as real, RoundHalfEven(costNew), price as real,
        RoundTenths(currentMargin), status.value, RoundHalfEven(RecommendedPrice(costNew)),
        currentMargin < TargetMarginPercent as real))
  }

  /** The recommended price, before rounding, has exactly the target margin over the new cost. */
  lemma RecommendedHitsTarget(costNew: real)
    requires costNew != 0.0
    ensures RecommendedPrice(costNew) != 0.0
    ensures MarginPercent(RecommendedPrice(costNew), costNew) == 55.0
  {
    var p := RecommendedPrice(costNew);
    assert p * 0.45 == costNew;
    assert (p - costNew) / p == 0.55 by {
      assert p - costNew == 0.55 * p;
    }
  }

  /**
   * With a positive price, an update is advised exactly when the new cost takes
   * more than 45% of the current price.
   */
  lemma ShouldUpdateByCost(productCode: string, productName: string, cost: int, price: int, pct: real)
    requires price > 0 && CalculateNewPrices(productCode, productName, cost, price, pct).Success?
    ensures CalculateNewPrices(productCode, productName, cost, price, pct).value.shouldUpdate <==>
            NewCost(cost, pct) > 0.45 * price as real
  {
    MarginAtLeast(price as real, NewCost(cost, pct), 55.0);
  }

  /** The rounded outputs are within half a unit of the exact values. */
  lemma RoundedOutputs(productCode: string, productName: string, cost: int, price: int, pct: real)
    requires CalculateNewPrices(productCode, productName, cost, price, pct).Success?
    ensures var r := CalculateNewPrices(productCode, productName, cost, price, pct).value;
            var exact := NewCost(cost, pct);
            exact - 0.5 <= r.costNew as real <= exact + 0.5 &&
            RecommendedPrice(exact) - 0.5 <= r.recommendedPrice as real <= RecommendedPrice(exact) + 0.5
  {
  }

  /** cost 100, price 150, a 20% increase: new cost 120, recommended 267, current margin 20.0, update advised. */
  lemma RepriceExample()
    ensures var r := CalculateNewPrices("10001", "p", 100, 150, 20.0);
            r.Success? && r.value.costNew == 120 && r.value.recommendedPrice == 267 &&
            r.value.currentMargin == 20.0 && r.value.shouldUpdate && r.value.status == Yellow
  {
    assert NewCost(100, 20.0) == 120.0;
    var rec := RecommendedPrice(120.0);
    assert rec * 0.45 == 120.0;
    assert 266.5 < rec < 267.0;
    RoundHalfEvenUnique(rec, 267);
    RoundHalfEvenUnique(120.0, 120);
    assert CurrentMargin(150, 120.0) == 20.0;
    RoundHalfEvenUnique(200.0, 200);
    StatusByIntegers(100, 150);
  }

  /** The classification examples: margins 55%, 20%, 5%, and a zero cost. */
  lemma StatusExamples()
    ensures GetStatus(45, 100) == Success(Green)
    ensures GetStatus(80, 100) == Success(Yellow)
    ensures GetStatus(95, 100) == Success(Red)
    ensures GetStatus(0, 100) == Success(Unknown)
  {
    StatusByIntegers(45, 100);
    StatusByIntegers(80, 100);
    StatusByIntegers(95, 100);
  }
}
