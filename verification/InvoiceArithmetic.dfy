/** VAT splits and regulated discounts, in integer centavos with exact rational
    intermediate values rounded as `Number.prototype.toFixed` rounds
    (ECMA-262 section 21.1.3.3). */
module InvoiceArithmetic {
  // ------------------------------------------------------------ rounding

  /** `r(x)` for the exact value x = num / den centavos: the nearest centavo, on a tie the
      larger magnitude, and a negative number as the mirror image of its opposite. */
  function ToFixed(num: int, den: int): int
    requires den > 0
  {
    if num < 0 then -Nearest(-num, den) else Nearest(num, den)
  }

  function Nearest(num: int, den: int): int
    requires den > 0
  {
    (2 * num + den) / (2 * den)
  }

  function Abs(x: int): nat {
    if x < 0 then -x else x
  }

  /** n centavos are nearest to num / den, and on a tie they are the ones farther from zero. */
  predicate IsNearestCentavo(n: int, num: int, den: int)
    requires den > 0
  {
    2 * Abs(n * den - num) <= den && (2 * Abs(n * den - num) == den ==> Abs(n * den) > Abs(num))
  }

  lemma Multiples(a: int, b: int)
    requires a >= 0 && b > 0
    ensures a * b >= 0
  {
  }

  /** Rounding gives a nearest centavo. */
  lemma ToFixedIsNearest(num: int, den: int)
    requires den > 0
    ensures IsNearestCentavo(ToFixed(num, den), num, den)
  {
    NearestOfMagnitude(Abs(num), den);
    if num < 0 {
      assert ToFixed(num, den) * den == -(Nearest(-num, den) * den);
    }
  }

  lemma NearestOfMagnitude(num: nat, den: int)
    requires den > 0
    ensures IsNearestCentavo(Nearest(num, den), num, den)
  {
    var n := Nearest(num, den);
    var rest := (2 * num + den) % (2 * den);
    assert 2 * num + den == 2 * (n * den) + rest by {
      assert 2 * num + den == (2 * den) * n + rest;
      assert (2 * den) * n == 2 * (n * den);
    }
  }

  /** There is only one nearest centavo. */
  lemma NearestIsUnique(n: int, k: int, num: int, den: int)
    requires den > 0 && IsNearestCentavo(n, num, den) && IsNearestCentavo(k, num, den)
    ensures n == k
  {
    if n < k {
      StepsApart(n, k, num, den);
    } else if k < n {
      StepsApart(k, n, num, den);
    }
  }

  lemma StepsApart(n: int, k: int, num: int, den: int)
    requires den > 0 && n < k && IsNearestCentavo(n, num, den)
    ensures !IsNearestCentavo(k, num, den)
  {
    Multiples(k - n - 1, den);
    assert k * den == n * den + (k - n - 1) * den + den;
  }

  // ------------------------------------------------------------ VAT

  datatype TaxType = Vat | NonVat | VatExempt | ZeroRated | UnknownTax

  datatype TaxBreakdown = TaxBreakdown(
    taxType: TaxType, vatableSales: int, vatAmount: int, vatExemptSales: int, zeroRatedSales: int)

  /** `calculateTax`: the vatable part is subtotal / 1.12 = 25 subtotal / 28. */
  function CalculateTax(subtotal: int, taxType: TaxType): TaxBreakdown {
    match taxType
    case Vat => TaxBreakdown(Vat, ToFixed(25 * subtotal, 28), ToFixed(28 * subtotal - 25 * subtotal, 28), 0, 0)
    case NonVat => TaxBreakdown(NonVat, 0, 0, ToFixed(subtotal, 1), 0)
    case VatExempt => TaxBreakdown(VatExempt, 0, 0, ToFixed(subtotal, 1), 0)
    case ZeroRated => TaxBreakdown(ZeroRated, 0, 0, 0, ToFixed(subtotal, 1))
    case UnknownTax => TaxBreakdown(NonVat, 0, 0, ToFixed(subtotal, 1), 0)
  }

  function TotalOf(b: TaxBreakdown): int {
    b.vatableSales + b.vatAmount + b.vatExemptSales + b.zeroRatedSales
  }

  /** A `vat` split gains a centavo exactly when both halves fall on a tie. */
  predicate IsTie(subtotal: int, taxType: TaxType) {
    taxType == Vat && Abs(subtotal) % 28 == 14
  }

  lemma VatHalves(s: nat)
    ensures Nearest(25 * s, 28) + Nearest(3 * s, 28) == s + (if s % 28 == 14 then 1 else 0)
  {
    var q, r := s / 28, s % 28;
    assert s == 28 * q + r;
    assert (50 * s + 28) / 56 == 25 * q + (50 * r + 28) / 56;
    assert (6 * s + 28) / 56 == 3 * q + (6 * r + 28) / 56;
    VatHalvesOfRemainder(r);
  }

  lemma VatHalvesOfRemainder(r: nat)
    requires r < 28
    ensures (50 * r + 28) / 56 + (6 * r + 28) / 56 == r + (if r == 14 then 1 else 0)
  {
  }

  lemma VatSplit(s: int)
    ensures ToFixed(25 * s, 28) + ToFixed(28 * s - 25 * s, 28) ==
            s + (if Abs(s) % 28 != 14 then 0 else if s > 0 then 1 else -1)
  {
    VatHalves(Abs(s));
    if s < 0 {
      assert ToFixed(25 * s, 28) == -Nearest(25 * -s, 28);
      assert ToFixed(28 * s - 25 * s, 28) == -Nearest(3 * -s, 28);
    } else {
      assert ToFixed(28 * s - 25 * s, 28) == Nearest(3 * s, 28);
    }
  }

  lemma WholeCentavos(s: int)
    ensures ToFixed(s, 1) == s
  {
  }

  /** A split conserves the subtotal, except that on a tie it is one centavo too large. */
  lemma SplitConserves(subtotal: int, taxType: TaxType)
    ensures TotalOf(CalculateTax(subtotal, taxType)) ==
            subtotal + (if !IsTie(subtotal, taxType) then 0 else if subtotal > 0 then 1 else -1)
  {
    if taxType == Vat {
      VatSplit(subtotal);
    } else {
      WholeCentavos(subtotal);
    }
  }

  /** Each part is the nearest centavo to its share, 25/28 and 3/28 of a `vat` subtotal, and
      any other subtotal lands whole in the column of its type. */
  lemma SplitPartsAreNearest(subtotal: int, taxType: TaxType)
    ensures var b := CalculateTax(subtotal, taxType);
            if taxType == Vat then
              && IsNearestCentavo(b.vatableSales, 25 * subtotal, 28) && IsNearestCentavo(b.vatAmount, 3 * subtotal, 28)
              && b.taxType == Vat && b.vatExemptSales == b.zeroRatedSales == 0
            else if taxType == ZeroRated then b == TaxBreakdown(ZeroRated, 0, 0, 0, subtotal)
            else b == TaxBreakdown(if taxType == VatExempt then VatExempt else NonVat, 0, 0, subtotal, 0)
  {
    ToFixedIsNearest(25 * subtotal, 28);
    ToFixedIsNearest(3 * subtotal, 28);
    assert 28 * subtotal - 25 * subtotal == 3 * subtotal;
    WholeCentavos(subtotal);
  }

  // ------------------------------------------------------------ the summary

  datatype Status = Voided | OtherStatus
  datatype DocumentType = InvoiceDocument | Receipt | OtherDocument

  datatype Invoice = Invoice(status: Status, documentType: DocumentType, subtotal: int, tax: TaxBreakdown)

  predicate IsActive(i: Invoice) {
    i.status != Voided && (i.documentType == InvoiceDocument || i.documentType == Receipt)
  }

  function Active(invoices: seq<Invoice>): seq<Invoice> {
    if invoices == [] then []
    else
      Active(invoices[..|invoices| - 1])
      + (if IsActive(invoices[|invoices| - 1]) then [invoices[|invoices| - 1]] else [])
  }

  datatype Summary = Summary(vatable: int, vat: int, exempt: int, zero: int, count: nat)

  /** The four reductions of `exportVATSummaryCSV`. */
  function Totals(invoices: seq<Invoice>): Summary {
    if invoices == [] then Summary(0, 0, 0, 0, 0)
    else
      var t, b := Totals(invoices[..|invoices| - 1]), invoices[|invoices| - 1].tax;
      Summary(
        t.vatable + b.vatableSales, t.vat + b.vatAmount,
        t.exempt + b.vatExemptSales, t.zero + b.zeroRatedSales,
        t.count + 1)
  }

  function VATSummary(invoices: seq<Invoice>): Summary {
    Totals(Active(invoices))
  }

  function Subtotals(invoices: seq<Invoice>): int {
    if invoices == [] then 0 else Subtotals(invoices[..|invoices| - 1]) + invoices[|invoices| - 1].subtotal
  }

  /** By how much an invoice's parts exceed its subtotal: a centavo of its sign on a tie. */
  function Surplus(i: Invoice): int {
    if !IsTie(i.subtotal, i.tax.taxType) then 0 else if i.subtotal > 0 then 1 else -1
  }

  function SurplusOf(invoices: seq<Invoice>): int {
    if invoices == [] then 0 else SurplusOf(invoices[..|invoices| - 1]) + Surplus(invoices[|invoices| - 1])
  }

  /** The invoice's amounts are those of `calculateTax`. */
  predicate IsComputed(i: Invoice) {
    exists t :: t in {Vat, NonVat, VatExempt, ZeroRated, UnknownTax} && i.tax == CalculateTax(i.subtotal, t)
  }

  lemma {:induction false} TotalsExceedByTies(invoices: seq<Invoice>)
    requires forall i :: 0 <= i < |invoices| ==> IsComputed(invoices[i])
    ensures var t := Totals(invoices);
            && t.vatable + t.vat + t.exempt + t.zero == Subtotals(invoices) + SurplusOf(invoices)
            && Abs(SurplusOf(invoices)) <= t.count == |invoices|
            && ((forall i :: 0 <= i < |invoices| ==> invoices[i].subtotal >= 0) ==> SurplusOf(invoices) >= 0)
  {
    if invoices != [] {
      var last := invoices[|invoices| - 1];
      assert IsComputed(last);
      TotalsExceedByTies(invoices[..|invoices| - 1]);
      SplitConserves(last.subtotal, last.tax.taxType);
    }
  }

  lemma {:induction false} ActiveAreComputed(invoices: seq<Invoice>)
    requires forall i :: 0 <= i < |invoices| && IsActive(invoices[i]) ==> IsComputed(invoices[i])
    ensures forall i :: 0 <= i < |Active(invoices)| ==> IsComputed(Active(invoices)[i])
  {
    if invoices != [] {
      ActiveAreComputed(invoices[..|invoices| - 1]);
    }
  }

  /** The summary's four totals exceed the active subtotals by the ties among them: at most
      one centavo for each active invoice, and never less than nothing without returns. */
  lemma SummaryExceedsSubtotalsByTies(invoices: seq<Invoice>)
    requires forall i :: 0 <= i < |invoices| && IsActive(invoices[i]) ==> IsComputed(invoices[i])
    ensures var (s, active) := (VATSummary(invoices), Active(invoices));
            && s.vatable + s.vat + s.exempt + s.zero == Subtotals(active) + SurplusOf(active)
            && Abs(SurplusOf(active)) <= s.count == |active|
            && ((forall i :: 0 <= i < |active| ==> active[i].subtotal >= 0) ==> SurplusOf(active) >= 0)
  {
    ActiveAreComputed(invoices);
    TotalsExceedByTies(Active(invoices));
  }

  /** The invoice is summarised, under one of these tax types. */
  predicate Falls(i: Invoice, types: set<TaxType>) {
    i.status != Voided && i.documentType in {InvoiceDocument, Receipt} && i.tax.taxType in types
  }

  /** The subtotals that fall under the types, and how many they are. */
  function Sales(invoices: seq<Invoice>, types: set<TaxType>): int {
    if invoices == [] then 0
    else Sales(invoices[1..], types) + (if Falls(invoices[0], types) then invoices[0].subtotal else 0)
  }

  function Number(invoices: seq<Invoice>, types: set<TaxType>): nat {
    if invoices == [] then 0
    else Number(invoices[1..], types) + (if Falls(invoices[0], types) then 1 else 0)
  }

  lemma {:induction false} SalesPush(front: seq<Invoice>, last: Invoice, types: set<TaxType>)
    ensures Sales(front + [last], types) == Sales(front, types) + (if Falls(last, types) then last.subtotal else 0)
    ensures Number(front + [last], types) == Number(front, types) + (if Falls(last, types) then 1 else 0)
  {
    var all := front + [last];
    if front == [] {
      assert all == [last] && all[1..] == [];
    } else {
      assert all[1..] == front[1..] + [last];
      SalesPush(front[1..], last, types);
    }
  }

  /** The four columns against the sums they stand for. */
  ghost predicate ColumnsFit(s: Summary, vatSales: int, vatNumber: nat, exemptSales: int, zeroSales: int) {
    && 2 * Abs(28 * s.vatable - 25 * vatSales) <= 28 * vatNumber
    && 2 * Abs(28 * s.vat - 3 * vatSales) <= 28 * vatNumber
    && s.exempt == exemptSales
    && s.zero == zeroSales
  }

  lemma ColumnsAdd(s: Summary, i: Invoice, vatSales: int, vatNumber: nat, exemptSales: int, zeroSales: int)
    requires IsComputed(i) && ColumnsFit(s, vatSales, vatNumber, exemptSales, zeroSales)
    ensures var b, t := i.tax, i.tax.taxType;
            ColumnsFit(
              Summary(
                s.vatable + b.vatableSales, s.vat + b.vatAmount,
                s.exempt + b.vatExemptSales, s.zero + b.zeroRatedSales, s.count + 1),
              vatSales + (if t == Vat then i.subtotal else 0), vatNumber + (if t == Vat then 1 else 0),
              exemptSales + (if t in {NonVat, VatExempt} then i.subtotal else 0),
              zeroSales + (if t == ZeroRated then i.subtotal else 0))
  {
    var t :| t in {Vat, NonVat, VatExempt, ZeroRated, UnknownTax} && i.tax == CalculateTax(i.subtotal, t);
    SplitPartsAreNearest(i.subtotal, t);
  }

  lemma TotalsPush(invoices: seq<Invoice>, last: Invoice)
    ensures var t, b := Totals(invoices), last.tax;
            Totals(invoices + [last]) ==
            Summary(
              t.vatable + b.vatableSales, t.vat + b.vatAmount,
              t.exempt + b.vatExemptSales, t.zero + b.zeroRatedSales, t.count + 1)
  {
    var all := invoices + [last];
    assert all[..|all| - 1] == invoices;
  }

  lemma ActivePush(front: seq<Invoice>, last: Invoice)
    ensures Active(front + [last]) == if IsActive(last) then Active(front) + [last] else Active(front)
    ensures forall types :: Falls(last, types) <==> IsActive(last) && last.tax.taxType in types
  {
    var all := front + [last];
    assert all[..|all| - 1] == front;
  }

  /** The summary fits the sums over these invoices. */
  ghost predicate Summarises(s: Summary, invoices: seq<Invoice>) {
    ColumnsFit(
      s, Sales(invoices, {Vat}), Number(invoices, {Vat}),
      Sales(invoices, {NonVat, VatExempt}), Sales(invoices, {ZeroRated}))
  }

  lemma SummaryPush(s: Summary, front: seq<Invoice>, last: Invoice)
    requires Summarises(s, front) && IsComputed(last) && IsActive(last)
    ensures var b := last.tax;
            Summarises(
              Summary(
                s.vatable + b.vatableSales, s.vat + b.vatAmount,
                s.exempt + b.vatExemptSales, s.zero + b.zeroRatedSales, s.count + 1),
              front + [last])
  {
    ActivePush(front, last);
    SalesPush(front, last, {Vat});
    SalesPush(front, last, {NonVat, VatExempt});
    SalesPush(front, last, {ZeroRated});
    ColumnsAdd(
      s, last, Sales(front, {Vat}), Number(front, {Vat}),
      Sales(front, {NonVat, VatExempt}), Sales(front, {ZeroRated}));
  }

  lemma SummarySkip(s: Summary, front: seq<Invoice>, last: Invoice)
    requires Summarises(s, front) && !IsActive(last)
    ensures Summarises(s, front + [last])
  {
    ActivePush(front, last);
    SalesPush(front, last, {Vat});
    SalesPush(front, last, {NonVat, VatExempt});
    SalesPush(front, last, {ZeroRated});
  }

  lemma CountPush(front: seq<Invoice>, last: Invoice)
    requires IsActive(last) ==> IsComputed(last)
    ensures Number(front + [last], {Vat, NonVat, VatExempt, ZeroRated}) ==
            Number(front, {Vat, NonVat, VatExempt, ZeroRated}) + (if IsActive(last) then 1 else 0)
  {
    ActivePush(front, last);
    SalesPush(front, last, {Vat, NonVat, VatExempt, ZeroRated});
  }

  /** Column by column, over the invoices that are not voided and are an invoice or a
      receipt: vatable sales and VAT are within half a centavo an invoice of 25/28 and 3/28 of
      the `vat` subtotals, the other two columns are exact, and the count is theirs. */
  lemma {:induction false} ColumnsMean(invoices: seq<Invoice>)
    requires forall i :: 0 <= i < |invoices| && IsActive(invoices[i]) ==> IsComputed(invoices[i])
    ensures ColumnsFit(
              VATSummary(invoices), Sales(invoices, {Vat}), Number(invoices, {Vat}),
              Sales(invoices, {NonVat, VatExempt}), Sales(invoices, {ZeroRated}))
    ensures VATSummary(invoices).count == Number(invoices, {Vat, NonVat, VatExempt, ZeroRated})
  {
    if invoices != [] {
      var front, last := invoices[..|invoices| - 1], invoices[|invoices| - 1];
      assert invoices == front + [last];
      ColumnsMean(front);
      ActivePush(front, last);
      CountPush(front, last);
      if IsActive(last) {
        TotalsPush(Active(front), last);
        SummaryPush(VATSummary(front), front, last);
      } else {
        SummarySkip(VATSummary(front), front, last);
      }
    }
  }

  // ------------------------------------------------------------ discounts

  datatype DiscountType = SeniorCitizen | Pwd | Naac | SoloParent

  /** The discount is 1 in this many parts of five times the gross: 20 or 10 percent of the
      VAT-exclusive gross / 1.12 is 5/28 or 5/56 of the gross. */
  function Parts(d: DiscountType): int {
    if d == SoloParent then 56 else 28
  }

  /** The regulated discount, in lowest terms. */
  function DiscountOn(gross: int, d: DiscountType): int {
    ToFixed(5 * gross, Parts(d))
  }

  /** 20 percent by law, or 10 for solo parents, of the VAT-exclusive amount: the nearest
      centavo to 5/28, or 5/56, of the gross, and never more than the gross. */
  method CalculateDiscount(gross: int, d: DiscountType) returns (rate: int, amount: int)
    ensures rate == if d == SoloParent then 10 else 20
    ensures IsNearestCentavo(amount, 5 * gross, if d == SoloParent then 56 else 28)
    ensures gross >= 0 ==> 0 <= amount <= gross
    ensures amount == DiscountOn(gross, d)
  {
    rate := 0;
    amount := 0;
    match d {
      case SeniorCitizen =>
        rate := 20;
        amount := ToFixed(25 * gross * rate, 28 * 100);
      case Pwd =>
        rate := 20;
        amount := ToFixed(25 * gross * rate, 28 * 100);
      case Naac =>
        rate := 20;
        amount := ToFixed(25 * gross * rate, 28 * 100);
      case SoloParent =>
        rate := 10;
        amount := ToFixed(25 * gross * rate, 28 * 100);
    }
    LowestTerms(gross, rate, d);
    DiscountIsNear(gross, d);
  }

  lemma LowestTerms(gross: int, rate: int, d: DiscountType)
    requires rate == if d == SoloParent then 10 else 20
    ensures ToFixed(25 * gross * rate, 2800) == DiscountOn(gross, d)
  {
    var n := ToFixed(25 * gross * rate, 2800);
    ToFixedIsNearest(25 * gross * rate, 2800);
    assert IsNearestCentavo(n, 5 * gross, Parts(d)) by {
      assert 25 * gross * rate == if d == SoloParent then 50 * (5 * gross) else 100 * (5 * gross);
    }
    ToFixedIsNearest(5 * gross, Parts(d));
    NearestIsUnique(n, DiscountOn(gross, d), 5 * gross, Parts(d));
  }

  datatype Line = Line(unitPrice: int, quantity: int, taxType: TaxType)

  /** The discount on the line's gross; after any discount but a solo parent's the line
      carries no VAT, whatever its net amount, and splits without loss. */
  method ApplyLineItemDiscount(item: Line, d: DiscountType) returns (amount: int, newTaxType: TaxType)
    ensures IsNearestCentavo(amount, 5 * (item.unitPrice * item.quantity), if d == SoloParent then 56 else 28)
    ensures amount == DiscountOn(item.unitPrice * item.quantity, d)
    ensures d != SoloParent ==>
              forall net :: CalculateTax(net, newTaxType).vatAmount == 0
                && TotalOf(CalculateTax(net, newTaxType)) == net
    ensures newTaxType != item.taxType <==> item.taxType == Vat && d != SoloParent
    ensures newTaxType != item.taxType ==> newTaxType == VatExempt
  {
    var grossAmount := item.unitPrice * item.quantity;
    var rate;
    rate, amount := CalculateDiscount(grossAmount, d);
    newTaxType := item.taxType;
    if d in {SeniorCitizen, Pwd, Naac} && item.taxType == Vat {
      newTaxType := VatExempt;
    }
    forall net | newTaxType != Vat
      ensures CalculateTax(net, newTaxType).vatAmount == 0 && TotalOf(CalculateTax(net, newTaxType)) == net
    {
      SplitPartsAreNearest(net, newTaxType);
    }
  }

  /** The discount is the nearest centavo to 5/28, or 5/56, of the gross, between nothing
      and the gross. */
  lemma DiscountIsNear(gross: int, d: DiscountType)
    ensures IsNearestCentavo(DiscountOn(gross, d), 5 * gross, Parts(d))
    ensures gross >= 0 ==> 0 <= DiscountOn(gross, d) <= gross
  {
    ToFixedIsNearest(5 * gross, Parts(d));
  }

  /** x times the parts of a discount. */
  function Scaled(x: int, d: DiscountType): int {
    if d == SoloParent then 56 * x else 28 * x
  }

  lemma HalfCentavo(gross: int, d: DiscountType)
    ensures 2 * Abs(Scaled(DiscountOn(gross, d), d) - 5 * gross) <= Scaled(1, d)
  {
    var amount := DiscountOn(gross, d);
    DiscountIsNear(gross, d);
    if d == SoloParent {
      assert IsNearestCentavo(amount, 5 * gross, 56);
    } else {
      assert IsNearestCentavo(amount, 5 * gross, 28);
    }
  }

  /** It grows with the gross. */
  lemma DiscountIsMonotone(gross: int, more: int, d: DiscountType)
    requires gross <= more
    ensures DiscountOn(gross, d) <= DiscountOn(more, d)
  {
    HalfCentavo(gross, d);
    HalfCentavo(more, d);
    if gross < more {
      FarEnough(DiscountOn(gross, d), DiscountOn(more, d), gross, more, d);
    }
  }

  lemma FarEnough(a: int, b: int, gross: int, more: int, d: DiscountType)
    requires gross < more
    requires 2 * Abs(Scaled(a, d) - 5 * gross) <= Scaled(1, d) && 2 * Abs(Scaled(b, d) - 5 * more) <= Scaled(1, d)
    ensures a <= b
  {
  }

  function GrossOf(lines: seq<Line>): int {
    if lines == [] then 0
    else GrossOf(lines[..|lines| - 1]) + lines[|lines| - 1].unitPrice * lines[|lines| - 1].quantity
  }

  function LineDiscounts(lines: seq<Line>, d: DiscountType): int {
    if lines == [] then 0
    else
      LineDiscounts(lines[..|lines| - 1], d)
      + DiscountOn(lines[|lines| - 1].unitPrice * lines[|lines| - 1].quantity, d)
  }

  lemma ErrorsAdd(sum: int, gross: int, n: nat, amount: int, more: int, d: DiscountType)
    requires 2 * Abs(Scaled(sum, d) - 5 * gross) <= Scaled(n, d)
             && 2 * Abs(Scaled(amount, d) - 5 * more) <= Scaled(1, d)
    ensures 2 * Abs(Scaled(sum + amount, d) - 5 * (gross + more)) <= Scaled(n + 1, d)
    ensures gross == more ==> 2 * Abs(sum - amount) <= n + 1
  {
  }

  lemma {:induction false} LinesAreNearExact(lines: seq<Line>, d: DiscountType)
    ensures 2 * Abs(Scaled(LineDiscounts(lines, d), d) - 5 * GrossOf(lines)) <= Scaled(|lines|, d)
  {
    if lines != [] {
      var front, line := lines[..|lines| - 1], lines[|lines| - 1];
      var gross := line.unitPrice * line.quantity;
      LinesAreNearExact(front, d);
      HalfCentavo(gross, d);
      ErrorsAdd(LineDiscounts(front, d), GrossOf(front), |front|, DiscountOn(gross, d), gross, d);
    }
  }

  /** Discounting line by line differs from discounting the sum by at most half a centavo
      for each line and half a centavo more, for sales and returns alike. */
  lemma LinesAgreeWithTotal(lines: seq<Line>, d: DiscountType)
    ensures 2 * Abs(LineDiscounts(lines, d) - DiscountOn(GrossOf(lines), d)) <= |lines| + 1
  {
    LinesAreNearExact(lines, d);
    HalfCentavo(GrossOf(lines), d);
    ErrorsAdd(LineDiscounts(lines, d), GrossOf(lines), |lines|, DiscountOn(GrossOf(lines), d), GrossOf(lines), d);
  }
}
