/** The price summary: fares per passenger type from one base price, the 12%
    tax, the gross and offer totals, the flat discount line and the per-type
    breakdown blocks. Exact `real` arithmetic; display rounding is not part
    of the model. */
module BookingSummary {
  import opened BookingContext

  const ChildFactor: real := 0.75
  const InfantFactor: real := 0.1
  const TaxRate: real := 0.12
  const OfferFactor: real := 0.95
  const DiscountRate: real := 0.1

  function AdultPrice(base: real, c: PassengerCounts): real {
    base * (c.adult as real)
  }

  function ChildPrice(base: real, c: PassengerCounts): real {
    base * ChildFactor * (c.children as real)
  }

  function InfantPrice(base: real, c: PassengerCounts): real {
    base * InfantFactor * (c.infant as real)
  }

  function Subtotal(base: real, c: PassengerCounts): real {
    AdultPrice(base, c) + ChildPrice(base, c) + InfantPrice(base, c)
  }

  function Taxes(base: real, c: PassengerCounts): real {
    Subtotal(base, c) * TaxRate
  }

  /** "Gross Amount". */
  function TotalAmount(base: real, c: PassengerCounts): real {
    Subtotal(base, c) + Taxes(base, c)
  }

  /** "Offer Amount", the headline payable figure. */
  function OfferAmount(base: real, c: PassengerCounts): real {
    TotalAmount(base, c) * OfferFactor
  }

  /** The "Discount Amount" line: a tenth of the base price. */
  function DiscountAmount(base: real): real {
    base * DiscountRate
  }

  /** The subtotal charges each adult the base price, each child three
      quarters of it and each infant a tenth of it. */
  lemma SubtotalFormula(base: real, c: PassengerCounts)
    ensures Subtotal(base, c)
         == base * (c.adult as real) + 0.75 * base * (c.children as real) + 0.1 * base * (c.infant as real)
  {
  }

  /** Gross is the subtotal plus 12%, and the offer is 95% of gross. */
  lemma TotalsFormula(base: real, c: PassengerCounts)
    ensures TotalAmount(base, c) == 1.12 * Subtotal(base, c)
    ensures OfferAmount(base, c) == 0.95 * TotalAmount(base, c)
    ensures OfferAmount(base, c) == 1.064 * Subtotal(base, c)
  {
  }

  /** The discount line is a tenth of the base price whatever the counts,
      and the offer is not gross minus that line: for one adult on a positive
      fare the two differ. */
  lemma DiscountNotApplied(base: real)
    requires base > 0.0
    ensures DiscountAmount(base) == 0.1 * base
    ensures OfferAmount(base, PassengerCounts(1, 0, 0))
         != TotalAmount(base, PassengerCounts(1, 0, 0)) - DiscountAmount(base)
  {
  }

  /** Which type blocks the price summary lists. */
  datatype Block = Block(ptype: PassengerType, baseFare: real, tax: real)

  /** The breakdown: an adult block when there are adults, a child block
      when there are children, and never an infant block. */
  function Breakdown(base: real, c: PassengerCounts): (bs: seq<Block>)
    ensures |bs| == (if c.adult > 0 then 1 else 0) + (if c.children > 0 then 1 else 0)
    ensures forall i :: 0 <= i < |bs| ==> bs[i].ptype != Infant
    ensures c.adult > 0 ==> bs[0].ptype == Adult
    ensures c.children > 0 ==> bs[|bs| - 1].ptype == Child
    ensures forall i :: 0 <= i < |bs| && bs[i].ptype == Adult ==>
              c.adult > 0 && bs[i].baseFare == AdultPrice(base, c) && bs[i].tax == TaxRate * bs[i].baseFare
    ensures forall i :: 0 <= i < |bs| && bs[i].ptype == Child ==>
              c.children > 0 && bs[i].baseFare == ChildPrice(base, c) && bs[i].tax == TaxRate * bs[i].baseFare
  {
    (if c.adult > 0 then [Block(Adult, base * (c.adult as real), base * (c.adult as real) * 0.12)] else [])
    + (if c.children > 0
       then [Block(Child, base * 0.75 * (c.children as real), base * 0.75 * (c.children as real) * 0.12)]
       else [])
  }

  function SumTaxes(bs: seq<Block>): real {
    if bs == [] then 0.0 else bs[0].tax + SumTaxes(bs[1..])
  }

  /** The listed block taxes plus 12% of the (unlisted) infant fare add up to
      the total tax, whenever the counts are not negative. */
  lemma BreakdownTaxesAddUp(base: real, c: PassengerCounts)
    requires c.adult >= 0 && c.children >= 0
    ensures SumTaxes(Breakdown(base, c)) + TaxRate * InfantPrice(base, c) == Taxes(base, c)
  {
    var bs := Breakdown(base, c);
    var at := base * (c.adult as real) * 0.12;
    var ct := base * 0.75 * (c.children as real) * 0.12;
    if c.adult > 0 && c.children > 0 {
      assert SumTaxes(bs) == at + SumTaxes(bs[1..]);
      assert SumTaxes(bs[1..]) == ct + SumTaxes(bs[2..]);
    } else if c.adult > 0 {
      assert SumTaxes(bs) == at + SumTaxes(bs[1..]);
      assert c.children as real == 0.0;
    } else if c.children > 0 {
      assert SumTaxes(bs) == ct + SumTaxes(bs[1..]);
      assert c.adult as real == 0.0;
    } else {
      assert c.adult as real == 0.0 && c.children as real == 0.0;
    }
  }

  /** Each of the three fares is linear in its own count: scaling the count
      by `k` scales the fare by `k`, and the fare of a sum of counts is the
      sum of their fares. */
  lemma FaresLinear(base: real, c: PassengerCounts, k: int, d: PassengerCounts)
    ensures AdultPrice(base, c.(adult := k * c.adult)) == (k as real) * AdultPrice(base, c)
    ensures ChildPrice(base, c.(children := k * c.children)) == (k as real) * ChildPrice(base, c)
    ensures InfantPrice(base, c.(infant := k * c.infant)) == (k as real) * InfantPrice(base, c)
    ensures AdultPrice(base, c.(adult := c.adult + d.adult)) == AdultPrice(base, c) + AdultPrice(base, d)
    ensures ChildPrice(base, c.(children := c.children + d.children)) == ChildPrice(base, c) + ChildPrice(base, d)
    ensures InfantPrice(base, c.(infant := c.infant + d.infant)) == InfantPrice(base, c) + InfantPrice(base, d)
  {
  }

  /** With a non-negative base price, more passengers of any type never make
      the subtotal, gross or offer smaller. */
  lemma TotalsMonotone(base: real, c: PassengerCounts, d: PassengerCounts)
    requires base >= 0.0
    requires c.adult <= d.adult && c.children <= d.children && c.infant <= d.infant
    ensures Subtotal(base, c) <= Subtotal(base, d)
    ensures TotalAmount(base, c) <= TotalAmount(base, d)
    ensures OfferAmount(base, c) <= OfferAmount(base, d)
  {
    MulMonotone(base, c.adult as real, d.adult as real);
    MulMonotone(base * ChildFactor, c.children as real, d.children as real);
    MulMonotone(base * InfantFactor, c.infant as real, d.infant as real);
  }

  lemma MulMonotone(k: real, x: real, y: real)
    requires k >= 0.0 && x <= y
    ensures k * x <= k * y
  {
    assert k * y - k * x == k * (y - x);
  }

  /** Base 110, two adults and one child: subtotal 302.5, tax 36.3, gross
      338.8, offer 321.86; the discount line reads 11. */
  lemma WorkedExample()
    ensures Subtotal(110.0, PassengerCounts(2, 1, 0)) == 302.5
    ensures Taxes(110.0, PassengerCounts(2, 1, 0)) == 36.3
    ensures TotalAmount(110.0, PassengerCounts(2, 1, 0)) == 338.8
    ensures OfferAmount(110.0, PassengerCounts(2, 1, 0)) == 321.86
    ensures DiscountAmount(110.0) == 11.0
  {
  }
}
