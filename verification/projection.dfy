/** The display summary the handler sends back for each selected product. */
module Projection {
  import opened Strings
  import opened Products

  datatype Summary = Summary(name: string, description: string, price: string, notes: seq<string>)

  /**
   * `₹${p.capacityInML[0]?.price || "N/A"}`: the first entry's price, or "N/A" when
   * there is no entry or its price is 0, which JavaScript's `||` treats as missing.
   */
  function PriceLabel(p: Product): string {
    [Rupee] + if |p.capacityInML| == 0 || p.capacityInML[0].price == 0 then "N/A"
              else IntToString(p.capacityInML[0].price)
  }

  /** The object built for one product: name, description, price label and keynote names. */
  function Summarize(p: Product): Summary {
    Summary(p.name, p.description, PriceLabel(p), seq(|p.keynotes|, i requires 0 <= i < |p.keynotes| => p.keynotes[i].name))
  }

  /** `perfumes.map(...)`: one summary per product, in the same order. */
  function Project(ps: seq<Product>): (r: seq<Summary>)
    ensures |r| == |ps|
    ensures forall i :: 0 <= i < |ps| ==>
      && r[i].name == ps[i].name
      && r[i].description == ps[i].description
      && r[i].price == PriceLabel(ps[i])
      && |r[i].notes| == |ps[i].keynotes|
      && forall j :: 0 <= j < |ps[i].keynotes| ==> r[i].notes[j] == ps[i].keynotes[j].name
  {
    seq(|ps|, i requires 0 <= i < |ps| => Summarize(ps[i]))
  }

  /**
   * The label is the rupee sign followed either by "N/A", exactly when there is no
   * first entry or its price is 0, or by the printed price: digits with no leading zero,
   * after a minus sign for a negative price, that read back as that price.
   */
  lemma PriceLabelSpec(p: Product)
    ensures |PriceLabel(p)| >= 2 && PriceLabel(p)[0] == Rupee
    ensures PriceLabel(p) == [Rupee] + "N/A" <==> |p.capacityInML| == 0 || p.capacityInML[0].price == 0
    ensures |p.capacityInML| > 0 && p.capacityInML[0].price > 0 ==>
      var digits := PriceLabel(p)[1..];
      AllDigits(digits) && digits[0] != '0' && DecimalValue(digits) == p.capacityInML[0].price
    ensures |p.capacityInML| > 0 && p.capacityInML[0].price < 0 ==>
      var digits := PriceLabel(p)[2..];
      && PriceLabel(p)[1] == '-' && AllDigits(digits) && digits[0] != '0'
      && DecimalValue(digits) == -p.capacityInML[0].price
  {
    var shown := PriceLabel(p);
    if |p.capacityInML| > 0 && p.capacityInML[0].price != 0 {
      var price := p.capacityInML[0].price;
      var text := IntToString(price);
      assert shown == [Rupee] + text;
      if price > 0 {
        PrintedPositive(price);
        assert text == Decimal(price);
        assert shown[1..] == text;
        assert text[0] != 'N';
      } else {
        PrintedPositive(-price);
        assert text == "-" + Decimal(-price);
        assert shown[2..] == Decimal(-price);
      }
      assert shown[1] == text[0] && text[0] != 'N';
    }
  }

  /** A positive number prints as digits with no leading zero that read back as the number. */
  lemma PrintedPositive(x: nat)
    requires x > 0
    ensures var s := Decimal(x); AllDigits(s) && s[0] != '0' && DecimalValue(s) == x
  {
    DecimalRoundTrip(x);
  }
}
