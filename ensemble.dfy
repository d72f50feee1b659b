/**
 * The ensemble of agente_ensamblador.py: three estimators price a
 * description, a regression model reads the row of their estimates together
 * with their minimum and maximum, and the result is clamped at 0.
 *
 * The estimators and the regression model are parameters.
 */
module Ensemble {

  /** The five columns of the row given to the regression model, in order. */
  datatype Features = Features(specialist: real, frontier: real, randomForest: real, min: real, max: real)

  datatype Estimators = Estimators(
    specialist: string -> real,
    frontier: string -> real,
    randomForest: string -> real,
    predict: Features -> real)

  /** `min(a, b, c)`. */
  function Min3(a: real, b: real, c: real): (m: real)
    ensures m <= a && m <= b && m <= c
    ensures m == a || m == b || m == c
  {
    if a <= b && a <= c then a else if b <= c then b else c
  }

  /** `max(a, b, c)`. */
  function Max3(a: real, b: real, c: real): (m: real)
    ensures m >= a && m >= b && m >= c
    ensures m == a || m == b || m == c
  {
    if a >= b && a >= c then a else if b >= c then b else c
  }

  /** The DataFrame row built from the three estimates. */
  function Row(specialist: real, frontier: real, randomForest: real): (x: Features)
    ensures x.specialist == specialist && x.frontier == frontier && x.randomForest == randomForest
    ensures x.min <= specialist <= x.max && x.min <= frontier <= x.max && x.min <= randomForest <= x.max
    ensures x.min in {specialist, frontier, randomForest} && x.max in {specialist, frontier, randomForest}
  {
    Features(specialist, frontier, randomForest,
             Min3(specialist, frontier, randomForest), Max3(specialist, frontier, randomForest))
  }

  /** `max(0, y)`. */
  function Clamp(y: real): (r: real)
    ensures r >= 0.0
    ensures y >= 0.0 ==> r == y
    ensures y < 0.0 ==> r == 0.0
  {
    if y >= 0.0 then y else 0.0
  }

  /** `price`: the clamped prediction on the row of the three estimates. */
  function Price(e: Estimators, description: string): (y: real)
    ensures y >= 0.0
    ensures var x := Row(e.specialist(description), e.frontier(description), e.randomForest(description));
      (e.predict(x) >= 0.0 ==> y == e.predict(x)) && (e.predict(x) < 0.0 ==> y == 0.0)
  {
    Clamp(e.predict(Row(e.specialist(description), e.frontier(description), e.randomForest(description))))
  }

  /** The minimum and maximum do not depend on the order of the three estimates. */
  lemma BoundsSymmetric(a: real, b: real, c: real)
    ensures Min3(a, b, c) == Min3(b, a, c) == Min3(a, c, b)
    ensures Max3(a, b, c) == Max3(b, a, c) == Max3(a, c, b)
    ensures Min3(a, b, c) <= Max3(a, b, c)
  {
  }

  /** Two descriptions that the three estimators price alike get the same result. */
  lemma PriceDependsOnEstimatesOnly(e: Estimators, d1: string, d2: string)
    requires e.specialist(d1) == e.specialist(d2)
    requires e.frontier(d1) == e.frontier(d2)
    requires e.randomForest(d1) == e.randomForest(d2)
    ensures Price(e, d1) == Price(e, d2)
  {
  }
}
