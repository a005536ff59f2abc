/**
 The shop's money arithmetic: prices are exact cents in DECIMAL(10,2) columns, the server multiplies and
 adds them as binary doubles, and the results go back through decimal text into DECIMAL(10,2) columns.
 A double operation is any function whose result is within the relative error 2^-53 that
 section 4.3.1 of IEEE 754-2019 (round to nearest) allows.
 */
module Money {
  /** One line of a cart: a price in whole cents and an INTEGER quantity (the server accepts any sign). */
  datatype Line = Line(price: nat, quantity: int)

  /** x times the relative error 2^-53. */
  function Unit(x: real): real {
    x / 9007199254740992.0
  }

  /** DECIMAL(10,2) holds the amounts of fewer than this many cents. */
  const DECIMAL_LIMIT := 10_000_000_000

  /** Carts of up to this many lines are covered by the exactness theorems. */
  const LINE_LIMIT := 450_000

  function Abs(x: real): (a: real)
    ensures a >= 0.0 && (a == x || a == -x) && a >= x && a >= -x
  {
    if x < 0.0 then -x else x
  }

  function Magnitude(n: int): nat {
    if n < 0 then -n else n
  }

  function Dollars(cents: int): real {
    cents as real / 100.0
  }

  /** y is a double that round-to-nearest may deliver for the exact value x. */
  ghost predicate Rounds(x: real, y: real) {
    -Unit(Abs(x)) <= y - x <= Unit(Abs(x))
  }

  ghost predicate ParsedTimes(price: real, quantity: real, y: real) {
    exists p: real :: Rounds(price, p) && Rounds(p * quantity, y)
  }

  /** y may be the value of parseFloat(price) * quantity. */
  ghost predicate Product(line: Line, y: real) {
    ParsedTimes(Dollars(line.price), line.quantity as real, y)
  }

  /** y may be the value of totalAmount after the accumulation loop has passed over the lines. */
  ghost predicate Accumulates(lines: seq<Line>, y: real) {
    if lines == [] then y == 0.0
    else
      var rest, line := lines[..|lines| - 1], lines[|lines| - 1];
      exists before, product ::
        Accumulates(rest, before) && Product(line, product) && Rounds(before + product, y)
  }

  /** PostgreSQL rounds numeric values half away from zero. */
  function HalfAway(x: real): int {
    if x >= 0.0 then (x + 0.5).Floor else -((-x + 0.5).Floor)
  }

  /** It delivers a nearest whole number, and of two that are equally near the one farther from zero. */
  lemma HalfAwayIsNearest(x: real)
    ensures -0.5 <= HalfAway(x) as real - x <= 0.5
    ensures HalfAway(x) as real - x == 0.5 ==> x > 0.0
    ensures HalfAway(x) as real - x == -0.5 ==> x < 0.0
  {}

  /** cents may be what a DECIMAL(10,2) column receives when the double x is sent as decimal text. */
  ghost predicate Stored(x: real, cents: int) {
    exists text: real :: Rounds(x, text) && cents == HalfAway(100.0 * text)
  }

  predicate Fits(cents: int) {
    -DECIMAL_LIMIT < cents < DECIMAL_LIMIT
  }

  function LineCents(line: Line): int {
    line.price * line.quantity
  }

  function LineMass(line: Line): nat {
    line.price * Magnitude(line.quantity)
  }

  /** The exact total in cents. */
  function ExactTotal(lines: seq<Line>): int {
    if lines == [] then 0 else ExactTotal(lines[..|lines| - 1]) + LineCents(lines[|lines| - 1])
  }

  /** The total in cents of the absolute line values: it bounds every rounding error. */
  function Mass(lines: seq<Line>): nat {
    if lines == [] then 0 else Mass(lines[..|lines| - 1]) + LineMass(lines[|lines| - 1])
  }

  predicate AllPositive(lines: seq<Line>) {
    forall i :: 0 <= i < |lines| ==> lines[i].quantity > 0
  }

  // ----- error analysis

  /** x times a little more than 2^-53: it absorbs the second-order terms of up to LINE_LIMIT operations. */
  function Wide(x: real): real {
    x / 9007199245000000.0
  }

  predicate Within(x: real, y: real, error: real) {
    -error <= y - x <= error
  }

  /** One more rounding of a value x near exact adds at most Wide(m), where m bounds exact. */
  lemma RoundOnce(exact: real, x: real, y: real, m: real, error: real)
    requires -m <= exact <= m && Within(exact, x, error) && 1_000_000_000.0 * error <= m
    requires Rounds(x, y)
    ensures Within(exact, y, error + Wide(m))
  {}

  lemma Scale(a: real, b: real, k: real)
    requires a <= b && 0.0 <= k
    ensures a * k <= b * k
  {}

  /** p within e of c stays within e*|q| of it after both are multiplied by q. */
  lemma ScaleError(c: real, p: real, q: real, e: real)
    requires Within(c, p, e)
    ensures Within(c * q, p * q, e * Abs(q))
  {
    assert p * q - c * q == (p - c) * q;
    if q >= 0.0 {
      Scale(-e, p - c, q);
      Scale(p - c, e, q);
    } else {
      Scale(-e, p - c, -q);
      Scale(p - c, e, -q);
    }
  }

  lemma DollarsOfProduct(price: nat, quantity: int)
    ensures Dollars(price * quantity) == Dollars(price) * quantity as real
  {
    assert (price * quantity) as real == price as real * quantity as real;
  }

  lemma UnitOfProduct(c: real, q: real)
    ensures Unit(c) * q == Unit(c * q)
  {}

  lemma LineWithinMass(line: Line)
    ensures 0 - LineMass(line) <= LineCents(line) <= LineMass(line)
    ensures line.quantity >= 0 ==> LineCents(line) == LineMass(line)
  {
    if line.quantity < 0 {
      assert line.price * line.quantity == -(line.price * -line.quantity);
    }
  }

  /** The error allowed after n lines of total mass m. */
  function Slack(n: nat, m: real): real {
    if n == 0 then Wide(m) + Wide(m) else Slack(n - 1, m) + Wide(m)
  }

  /** parseFloat then a multiplication: c the price, x = p * q with p its double, m the mass of the exact product. */
  lemma TwoRoundings(c: real, p: real, q: real, x: real, y: real, exact: real, m: real)
    requires exact == c * q && x == p * q && m == c * Abs(q) && -m <= exact <= m && c >= 0.0
    requires Rounds(c, p) && Rounds(x, y)
    ensures Within(exact, y, Slack(0, m))
  {
    ScaleError(c, p, q, Unit(c));
    UnitOfProduct(c, Abs(q));
    RoundOnce(exact, x, y, m, Unit(m));
  }

  lemma LineInDollars(line: Line)
    ensures Dollars(LineCents(line)) == Dollars(line.price) * line.quantity as real
    ensures Dollars(LineMass(line)) == Dollars(line.price) * Abs(line.quantity as real)
    ensures -Dollars(LineMass(line)) <= Dollars(LineCents(line)) <= Dollars(LineMass(line))
  {
    DollarsOfProduct(line.price, line.quantity);
    DollarsOfProduct(line.price, Magnitude(line.quantity));
    assert Abs(line.quantity as real) == Magnitude(line.quantity) as real;
    LineWithinMass(line);
  }

  lemma ParsedTimesError(c: real, q: real, y: real, exact: real, m: real)
    requires exact == c * q && m == c * Abs(q) && -m <= exact <= m && c >= 0.0
    requires ParsedTimes(c, q, y)
    ensures Within(exact, y, Slack(0, m))
  {
    var p: real :| Rounds(c, p) && Rounds(p * q, y);
    TwoRoundings(c, p, q, p * q, y, exact, m);
  }

  lemma ProductError(line: Line, y: real)
    requires Product(line, y)
    ensures Within(Dollars(LineCents(line)), y, Slack(0, Dollars(LineMass(line))))
  {
    LineInDollars(line);
    ParsedTimesError(Dollars(line.price), line.quantity as real, y, Dollars(LineCents(line)), Dollars(LineMass(line)));
  }

  lemma {:induction false} TotalWithinMass(lines: seq<Line>)
    ensures 0 - Mass(lines) <= ExactTotal(lines) <= Mass(lines)
    ensures AllPositive(lines) ==> ExactTotal(lines) == Mass(lines)
  {
    if lines != [] {
      TotalWithinMass(lines[..|lines| - 1]);
      LineWithinMass(lines[|lines| - 1]);
    }
  }

  lemma {:induction false} SlackIsLinear(n: nat, m: real)
    ensures Slack(n, m) == (n as real + 2.0) * Wide(m)
  {
    if n > 0 {
      SlackIsLinear(n - 1, m);
    }
  }

  lemma {:induction false} SlackAdds(n: nat, a: real, b: real)
    requires a >= 0.0 && b >= 0.0
    ensures Slack(n, a) + Slack(0, b) <= Slack(n, a + b)
  {
    if n > 0 {
      SlackAdds(n - 1, a, b);
    }
  }

  lemma SlackIsSmall(n: nat, m: real)
    requires n <= LINE_LIMIT && m >= 0.0
    ensures 0.0 <= Slack(n, m) <= m * 0.00000000005 - Wide(m)
  {
    SlackIsLinear(n, m);
    Scale(n as real + 2.0, LINE_LIMIT as real + 2.0, Wide(m));
  }

  /** One pass of the accumulation loop: a running total of mass a, a product of mass b, one addition. */
  lemma AddOne(total: real, before: real, a: real, line: real, product: real, b: real, y: real, n: nat)
    requires n <= LINE_LIMIT && a >= 0.0 && b >= 0.0 && -(a + b) <= total + line <= a + b
    requires Within(total, before, Slack(n, a)) && Within(line, product, Slack(0, b))
    requires Rounds(before + product, y)
    ensures Within(total + line, y, Slack(n + 1, a + b))
  {
    SlackAdds(n, a, b);
    SlackIsSmall(n, a + b);
    RoundOnce(total + line, before + product, y, a + b, Slack(n, a + b));
  }

  /** The float total after n lines is within Slack(n) of the exact one, relative to the mass. */
  lemma {:induction false} TotalError(lines: seq<Line>, y: real)
    requires |lines| <= LINE_LIMIT && Accumulates(lines, y)
    ensures Within(Dollars(ExactTotal(lines)), y, Slack(|lines|, Dollars(Mass(lines))))
  {
    if lines != [] {
      var rest, line := lines[..|lines| - 1], lines[|lines| - 1];
      var before, product: real :| Accumulates(rest, before) && Product(line, product) && Rounds(before + product, y);
      TotalError(rest, before);
      ProductError(line, product);
      TotalWithinMass(lines);
      AddOne(Dollars(ExactTotal(rest)), before, Dollars(Mass(rest)),
             Dollars(LineCents(line)), product, Dollars(LineMass(line)), y, |rest|);
    }
  }

  // ----- what the DECIMAL(10,2) columns receive

  lemma HalfAwayMonotone(x: real, y: real)
    requires x <= y
    ensures HalfAway(x) <= HalfAway(y)
  {}

  /** Sending a double near exact cents as text stores exactly those cents, if the mass fits the column. */
  lemma StoredWithin(x: real, stored: int, exact: int, mass: nat, n: nat)
    requires n <= LINE_LIMIT
    requires 0 - mass <= exact <= mass < DECIMAL_LIMIT
    requires Within(Dollars(exact), x, Slack(n, Dollars(mass)))
    requires Stored(x, stored)
    ensures stored == exact
  {
    var text: real :| Rounds(x, text) && stored == HalfAway(100.0 * text);
    var m := Dollars(mass);
    SlackIsSmall(n, m);
    RoundOnce(Dollars(exact), x, text, m, Slack(n, m));
  }

  /** Exactness of one subtotal, for quantities of either sign. */
  lemma SubtotalExact(line: Line, y: real, stored: int)
    requires LineMass(line) < DECIMAL_LIMIT
    requires Product(line, y) && Stored(y, stored)
    ensures stored == LineCents(line)
  {
    ProductError(line, y);
    LineWithinMass(line);
    StoredWithin(y, stored, LineCents(line), LineMass(line), 0);
  }

  /** Exactness of the order total, for quantities of either sign. */
  lemma TotalExact(lines: seq<Line>, y: real, stored: int)
    requires |lines| <= LINE_LIMIT && Mass(lines) < DECIMAL_LIMIT
    requires Accumulates(lines, y) && Stored(y, stored)
    ensures stored == ExactTotal(lines)
  {
    TotalError(lines, y);
    TotalWithinMass(lines);
    StoredWithin(y, stored, ExactTotal(lines), Mass(lines), |lines|);
  }

  /** A double near an amount too large for the column is still too large after rounding. */
  lemma StoredTooLarge(x: real, stored: int, exact: nat, n: nat)
    requires n <= LINE_LIMIT && exact >= DECIMAL_LIMIT
    requires Within(Dollars(exact), x, Slack(n, Dollars(exact)))
    requires Stored(x, stored)
    ensures stored >= DECIMAL_LIMIT
  {
    var text: real :| Rounds(x, text) && stored == HalfAway(100.0 * text);
    var m := Dollars(exact);
    SlackIsSmall(n, m);
    RoundOnce(m, x, text, m, Slack(n, m));
    HalfAwayMonotone(DECIMAL_LIMIT as real - 0.5, 100.0 * text);
  }

  /**
   For a cart of positive quantities the column's own range check decides on the exact total:
   the INSERT is accepted exactly when the exact total fits, and then stores exactly that total.
   */
  lemma TotalDecidedExactly(lines: seq<Line>, y: real, stored: int)
    requires |lines| <= LINE_LIMIT && AllPositive(lines)
    requires Accumulates(lines, y) && Stored(y, stored)
    ensures Fits(stored) <==> ExactTotal(lines) < DECIMAL_LIMIT
    ensures Fits(stored) ==> stored == ExactTotal(lines)
  {
    TotalWithinMass(lines);
    if Mass(lines) < DECIMAL_LIMIT {
      TotalExact(lines, y, stored);
    } else {
      TotalError(lines, y);
      StoredTooLarge(y, stored, Mass(lines), |lines|);
    }
  }
}
