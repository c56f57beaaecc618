/** A sale's derived prices: net price, VAT amount and total price, written
    into the sale record after every load and before every insert. */
module Pricing {

  /** The inputs the price calculation reads. */
  datatype Terms = Terms(quantity: real, salePrice: real, discount: real, vat: real)

  /** The three derived figures. */
  datatype Prices = Prices(netPrice: real, vatAmount: real, totalPrice: real)

  /** The figures the calculation writes, given the VAT amount the record
      held before: the discount is subtracted only when positive, and the
      VAT amount is recomputed only when the VAT rate is positive. */
  function Priced(t: Terms, vatAmount: real): Prices
  {
    var net := t.salePrice * t.quantity - (if t.discount > 0.0 then t.discount else 0.0);
    var vatAmount' := if t.vat > 0.0 then net * (t.vat / 100.0) else vatAmount;
    Prices(net, vatAmount', net + vatAmount')
  }

  /** The constraints the sale record declares on its fields. */
  predicate Declared(t: Terms)
  {
    t.quantity > 0.0 && t.salePrice > 0.0 && t.discount >= 0.0 && 0.0 <= t.vat <= 100.0
  }

  class Sale {
    var quantity: real
    var salePrice: real
    var discount: real
    var vat: real
    var netPrice: real
    var vatAmount: real
    var totalPrice: real

    /** A record as loaded or bound: the derived fields are not stored, so
        they start at zero. */
    constructor (quantity: real, salePrice: real, discount: real, vat: real)
      ensures Inputs() == Terms(quantity, salePrice, discount, vat)
      ensures Figures() == Prices(0.0, 0.0, 0.0)
    {
      this.quantity := quantity;
      this.salePrice := salePrice;
      this.discount := discount;
      this.vat := vat;
      netPrice := 0.0;
      vatAmount := 0.0;
      totalPrice := 0.0;
    }

    function Inputs(): Terms
      reads this
    {
      Terms(quantity, salePrice, discount, vat)
    }

    function Figures(): Prices
      reads this
    {
      Prices(netPrice, vatAmount, totalPrice)
    }

    method CalculatePrices()
      modifies this`netPrice, this`vatAmount, this`totalPrice
      ensures Figures() == Priced(Inputs(), old(vatAmount))
    {
      netPrice := salePrice * quantity;
      if discount > 0.0 {
        netPrice := netPrice - discount;
      }
      if vat > 0.0 {
        vatAmount := netPrice * (vat / 100.0);
      }
      totalPrice := netPrice + vatAmount;
    }

    /** The hook run after a sale is loaded. */
    method AfterFind()
      modifies this`netPrice, this`vatAmount, this`totalPrice
      ensures Figures() == Priced(Inputs(), old(vatAmount))
    {
      CalculatePrices();
    }

    /** The hook run before a sale is inserted. */
    method BeforeCreate()
      modifies this`netPrice, this`vatAmount, this`totalPrice
      ensures Figures() == Priced(Inputs(), old(vatAmount))
    {
      CalculatePrices();
    }
  }

  /** Calculating twice gives what calculating once gives. */
  lemma PricedIdempotent(t: Terms, vatAmount: real)
    ensures Priced(t, Priced(t, vatAmount).vatAmount) == Priced(t, vatAmount)
  {
  }

  /** A sale loaded (prices computed on a fresh record) and then priced again
      shows the figures of a single calculation from zero. */
  method LoadAndPrice(quantity: real, salePrice: real, discount: real, vat: real) returns (p: Prices)
    ensures p == Priced(Terms(quantity, salePrice, discount, vat), 0.0)
  {
    var s := new Sale(quantity, salePrice, discount, vat);
    s.AfterFind();
    s.CalculatePrices();
    PricedIdempotent(s.Inputs(), 0.0);
    p := s.Figures();
  }

  /** With no VAT rate the previous VAT amount is carried into the total:
      a record that held 5 reports a total 5 above its net price. */
  lemma StaleVatCarried()
    ensures Priced(Terms(2.0, 10.0, 0.0, 0.0), 5.0) == Prices(20.0, 5.0, 25.0)
  {
  }

  /** Within the declared constraints, with a discount no larger than the
      gross price and a positive VAT rate, the net price is non-negative,
      VAT is net × rate / 100, and the total lies between the net price and
      twice the net price. */
  lemma PricedBounds(t: Terms, vatAmount: real)
    requires Declared(t) && t.discount <= t.salePrice * t.quantity && t.vat > 0.0
    ensures var p := Priced(t, vatAmount);
      && 0.0 <= p.netPrice <= t.salePrice * t.quantity
      && p.vatAmount == p.netPrice * t.vat / 100.0
      && p.netPrice <= p.totalPrice <= 2.0 * p.netPrice
  {
    var p := Priced(t, vatAmount);
    var net := p.netPrice;
    var rate := t.vat / 100.0;
    assert 0.0 < rate <= 1.0;
    assert p.vatAmount == net * rate;
    assert p.totalPrice == net + net * rate;
    RateBounds(net, rate);
    ScaleRate(net, t.vat);
  }

  lemma ScaleRate(net: real, vat: real)
    ensures net * vat / 100.0 == net * (vat / 100.0)
  {
  }

  lemma RateBounds(net: real, rate: real)
    requires net >= 0.0 && 0.0 < rate <= 1.0
    ensures 0.0 <= net * rate <= net
    ensures net <= net + net * rate <= 2.0 * net
  {
    assert net - net * rate == net * (1.0 - rate);
  }
}
