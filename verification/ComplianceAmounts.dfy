/**
 FEMA and GST records: rupee amounts rounded half-even to the paisa (`Decimal.quantize`).
 Amounts are whole paise; amounts not yet rounded are exact fractions of a paisa.
 */
module ComplianceAmounts {
  import opened Prelude
  import opened AuditLog

  // ---------------------------------------------------------------------------------------------
  // Rounding
  // ---------------------------------------------------------------------------------------------

  /** num/den rounded to the nearest integer, a tie going to the even one. */
  function RoundHalfEven(num: int, den: int): int
    requires den > 0
  {
    var q, r := num / den, num % den;
    if 2 * r < den then q
    else if 2 * r > den then q + 1
    else if q % 2 == 0 then q
    else q + 1
  }

  lemma RoundWithinHalf(num: int, den: int)
    requires den > 0
    ensures -den <= 2 * (den * RoundHalfEven(num, den) - num) <= den
  {
    var q, r := num / den, num % den;
    assert num == den * q + r;
    assert den * (q + 1) == den * q + den;
  }

  /** The same over the parts of the division, which makes it linear: num == dq + r, dq == den * q, dz == den * z. */
  lemma NearestByParts(den: int, dq: int, r: int, q: int, z: int, dz: int)
    requires 0 <= r < den
    requires z <= q - 1 ==> dz <= dq - den
    requires z == q ==> dz == dq
    requires z == q + 1 ==> dz == dq + den
    requires z >= q + 2 ==> dz >= dq + 2 * den
    ensures (if 2 * r < den then q else if 2 * r > den then q + 1 else if q % 2 == 0 then q else q + 1) == z
       <==> && -den <= 2 * (dz - (dq + r)) <= den
            && (2 * (dz - (dq + r)) == den || 2 * (dz - (dq + r)) == -den ==> z % 2 == 0)
  {
  }

  /** An integer within half a unit of num/den, and the even one of a tied pair. */
  ghost predicate NearestEven(num: int, den: int, z: int) {
    && -den <= 2 * (den * z - num) <= den
    && (2 * (den * z - num) == den || 2 * (den * z - num) == -den ==> z % 2 == 0)
  }

  /** The rounded value is the only such integer. */
  lemma RoundNearest(num: int, den: int, z: int)
    requires den > 0
    ensures RoundHalfEven(num, den) == z <==> NearestEven(num, den, z)
  {
    var q, r := num / den, num % den;
    var dq, dz := den * q, den * z;
    assert num == dq + r;
    assert den * (q + 1) == dq + den;
    if z <= q - 1 {
      Scale(den, z, q - 1);
      assert den * (q - 1) == dq - den;
    } else if z >= q + 2 {
      Scale(den, q + 2, z);
      assert den * (q + 2) == dq + 2 * den;
    }
    NearestByParts(den, dq, r, q, z, dz);
  }

  lemma Scale(k: int, a: int, b: int)
    requires k >= 0 && a <= b
    ensures k * a <= k * b
  {
  }

  lemma NextMultiple(k: int, a: int, b: int)
    requires k > 0 && a < b
    ensures k * b >= k * a + k
  {
    Scale(k, a + 1, b);
  }

  lemma RoundMonotone(a: int, b: int, den: int)
    requires den > 0 && a <= b
    ensures RoundHalfEven(a, den) <= RoundHalfEven(b, den)
  {
    var x, y := RoundHalfEven(a, den), RoundHalfEven(b, den);
    RoundWithinHalf(a, den);
    RoundWithinHalf(b, den);
    if x > y {
      NextMultiple(den, y, x);
    }
  }

  // ---------------------------------------------------------------------------------------------
  // Records
  // ---------------------------------------------------------------------------------------------

  /** Rupees per ALGO. */
  datatype Rate = Rate(num: int, den: int)

  type PositiveRate = r: Rate | r.den > 0 witness Rate(0, 1)

  /** A fraction of paise. */
  datatype Paise = Paise(num: int, den: int)

  type ExactPaise = p: Paise | p.den > 0 witness Paise(0, 1)

  type Gstin = s: string | |s| == 15 witness "27AAAAA0000A1Z5"

  datatype FormType = Form15CA | Form15CB

  datatype FemaRecord = FemaRecord(
    escrowId: Uuid, formType: FormType, buyerPan: string, sellerPan: string,
    amountInr: int, amountMicroAlgo: int, fxRate: PositiveRate, merkleRoot: string)

  datatype TaxType = Igst | CgstSgst

  datatype GstRecord = GstRecord(
    escrowId: Uuid, hsnCode: string, buyerGstin: Gstin, sellerGstin: Gstin,
    taxType: TaxType, taxableAmount: int, igstAmount: int, cgstAmount: int, sgstAmount: int)
  {
    function TotalTax(): int {
      igstAmount + cgstAmount + sgstAmount
    }
  }

  datatype AmountError = NegativeAmount

  const MICRO := 1_000_000
  const STUB_RATE: PositiveRate := Rate(15, 1)

  /** amount_microalgo / 1000000 * rate, in paise. */
  function ExactInr(microAlgo: int, rate: PositiveRate): ExactPaise {
    Paise(microAlgo * rate.num * 100, MICRO * rate.den)
  }

  function RoundPaise(p: ExactPaise): int {
    RoundHalfEven(p.num, p.den)
  }

  /** The form depends on the exact amount: 15CB from 500,000 rupees on. */
  function FormFor(exact: ExactPaise): FormType {
    if exact.num >= 50_000_000 * exact.den then Form15CB else Form15CA
  }

  function GenerateFema(escrowId: Uuid, buyerPan: string, sellerPan: string, microAlgo: int, rate: PositiveRate,
                        merkleRoot: string): Result<FemaRecord, AmountError>
  {
    var exact := ExactInr(microAlgo, rate);
    if RoundPaise(exact) < 0 then Err(NegativeAmount)
    else Ok(FemaRecord(escrowId, FormFor(exact), buyerPan, sellerPan, RoundPaise(exact), microAlgo, rate, merkleRoot))
  }

  /** `percent` of an exact amount, rounded. */
  function Tax(taxable: ExactPaise, percent: nat): int {
    RoundHalfEven(taxable.num * percent, taxable.den * 100)
  }

  function StateCode(g: Gstin): string {
    g[..2]
  }

  function GenerateGst(escrowId: Uuid, buyerGstin: Gstin, sellerGstin: Gstin, hsnCode: string,
                       taxable: ExactPaise): Result<GstRecord, AmountError>
  {
    if RoundPaise(taxable) < 0 then Err(NegativeAmount)
    else if StateCode(buyerGstin) != StateCode(sellerGstin) then
      if Tax(taxable, 18) < 0 then Err(NegativeAmount)
      else Ok(GstRecord(escrowId, hsnCode, buyerGstin, sellerGstin, Igst,
                        RoundPaise(taxable), Tax(taxable, 18), 0, 0))
    else
      if Tax(taxable, 9) < 0 then Err(NegativeAmount)
      else Ok(GstRecord(escrowId, hsnCode, buyerGstin, sellerGstin, CgstSgst,
                        RoundPaise(taxable), 0, Tax(taxable, 9), Tax(taxable, 9)))
  }

  /** What the service is asked to record, with the enterprise snapshots it finds. */
  datatype Snapshot = Snapshot(pan: string, gstin: Gstin)

  datatype Request = Request(
    escrowId: Uuid, microAlgo: int, merkleRoot: string, rate: Option<PositiveRate>, hsnCode: string,
    buyer: Option<Snapshot>, seller: Option<Snapshot>)

  /** A missing or zero rate is replaced by the stub rate. */
  function RateOf(req: Request): PositiveRate {
    match req.rate
    case Some(r) => if r.num == 0 then STUB_RATE else r
    case None => STUB_RATE
  }

  function FemaFor(req: Request): Result<FemaRecord, AmountError> {
    GenerateFema(req.escrowId,
                 if req.buyer.Some? then req.buyer.value.pan else "AAAAA0000A",
                 if req.seller.Some? then req.seller.value.pan else "BBBBB0000B",
                 req.microAlgo, RateOf(req), req.merkleRoot)
  }

  /** The service rounds the taxable amount before it generates the GST record. */
  function GstFor(req: Request): Result<GstRecord, AmountError> {
    var taxable := RoundPaise(ExactInr(req.microAlgo, RateOf(req)));
    GenerateGst(req.escrowId,
                if req.buyer.Some? then req.buyer.value.gstin else "27AAAAA0000A1Z5",
                if req.seller.Some? then req.seller.value.gstin else "29BBBBB0000B1Z5",
                req.hsnCode, Paise(taxable, 1))
  }

  // ---------------------------------------------------------------------------------------------
  // Properties
  // ---------------------------------------------------------------------------------------------

  lemma WholePaise(n: int)
    ensures RoundPaise(Paise(n, 1)) == n
  {
    RoundNearest(n, 1, n);
  }

  lemma TaxSign(taxable: ExactPaise, percent: nat)
    requires RoundPaise(taxable) >= 0 && taxable.den == 1
    ensures Tax(taxable, percent) >= 0
  {
    WholePaise(taxable.num);
    Scale(percent, 0, taxable.num);
    RoundNearest(0, taxable.den * 100, 0);
    RoundMonotone(0, taxable.num * percent, taxable.den * 100);
  }

  /** What the request is worth, exactly: this many paise over `AskedDen`; 15 rupees per ALGO without a usable rate. */
  ghost function AskedNum(req: Request): int {
    req.microAlgo * (if req.rate.Some? && req.rate.value.num != 0 then req.rate.value.num else 15) * 100
  }

  ghost function AskedDen(req: Request): (d: int)
    ensures d > 0
  {
    1_000_000 * (if req.rate.Some? && req.rate.value.num != 0 then req.rate.value.den else 1)
  }

  /** The amount on the FEMA record, the form it calls for, and what is copied. */
  ghost predicate FemaOf(req: Request, f: FemaRecord) {
    && f.escrowId == req.escrowId && f.amountMicroAlgo == req.microAlgo && f.merkleRoot == req.merkleRoot
    && f.buyerPan == (if req.buyer.Some? then req.buyer.value.pan else "AAAAA0000A")
    && f.sellerPan == (if req.seller.Some? then req.seller.value.pan else "BBBBB0000B")
    && f.fxRate == (if req.rate.Some? && req.rate.value.num != 0 then req.rate.value else Rate(15, 1))
    && NearestEven(AskedNum(req), AskedDen(req), f.amountInr)
    && (f.formType == Form15CB <==> AskedNum(req) >= 50_000_000 * AskedDen(req))
  }

  /** The same amount on the GST record, taxed at 18% between states and twice 9% within one. */
  ghost predicate GstOf(req: Request, g: GstRecord) {
    && g.escrowId == req.escrowId && g.hsnCode == req.hsnCode
    && g.buyerGstin == (if req.buyer.Some? then req.buyer.value.gstin else "27AAAAA0000A1Z5")
    && g.sellerGstin == (if req.seller.Some? then req.seller.value.gstin else "29BBBBB0000B1Z5")
    && NearestEven(AskedNum(req), AskedDen(req), g.taxableAmount)
    && (g.taxType == Igst <==> g.buyerGstin[..2] != g.sellerGstin[..2])
    && (g.taxType == Igst ==>
          NearestEven(18 * g.taxableAmount, 100, g.igstAmount) && g.cgstAmount == 0 && g.sgstAmount == 0)
    && (g.taxType == CgstSgst ==>
          g.igstAmount == 0 && NearestEven(9 * g.taxableAmount, 100, g.cgstAmount) && g.sgstAmount == g.cgstAmount)
  }

  ghost predicate RecordsOf(req: Request, f: FemaRecord, g: GstRecord) {
    FemaOf(req, f) && GstOf(req, g) && f.amountInr == g.taxableAmount
  }

  /** An amount that does not round below zero. */
  ghost predicate Recordable(req: Request) {
    2 * AskedNum(req) >= -AskedDen(req)
  }

  lemma ExactIsAsked(req: Request)
    ensures ExactInr(req.microAlgo, RateOf(req)) == Paise(AskedNum(req), AskedDen(req))
  {
  }

  lemma RoundsBelowZeroIff(num: int, den: int)
    requires den > 0
    ensures RoundHalfEven(num, den) < 0 <==> 2 * num < -den
  {
    var z := RoundHalfEven(num, den);
    RoundWithinHalf(num, den);
    RoundNearest(num, den, 0);
    if z < 0 {
      Scale(den, z, -1);
    } else {
      Scale(den, 0, z);
    }
  }

  lemma FemaRecorded(req: Request)
    ensures FemaFor(req).Ok? <==> Recordable(req)
    ensures FemaFor(req).Ok? ==> FemaOf(req, FemaFor(req).value)
  {
    ExactIsAsked(req);
    RoundsBelowZeroIff(AskedNum(req), AskedDen(req));
    RoundNearest(AskedNum(req), AskedDen(req), RoundHalfEven(AskedNum(req), AskedDen(req)));
  }

  /** A GST record on a whole amount: it is that amount, and the tax is rounded from it. */
  lemma GstOnWholeAmount(escrowId: Uuid, buyer: Gstin, seller: Gstin, hsnCode: string, amount: int)
    ensures var r := GenerateGst(escrowId, buyer, seller, hsnCode, Paise(amount, 1));
      && (r.Ok? <==> amount >= 0)
      && (r.Ok? ==> r.value.taxableAmount == amount)
  {
    WholePaise(amount);
    if amount >= 0 {
      TaxSign(Paise(amount, 1), 18);
      TaxSign(Paise(amount, 1), 9);
    }
  }

  lemma GstRecorded(req: Request)
    ensures GstFor(req).Ok? <==> Recordable(req)
    ensures GstFor(req).Ok? ==> GstOf(req, GstFor(req).value)
  {
    var t := RoundHalfEven(AskedNum(req), AskedDen(req));
    ExactIsAsked(req);
    RoundsBelowZeroIff(AskedNum(req), AskedDen(req));
    RoundNearest(AskedNum(req), AskedDen(req), t);
    GstOnWholeAmount(req.escrowId,
                     if req.buyer.Some? then req.buyer.value.gstin else "27AAAAA0000A1Z5",
                     if req.seller.Some? then req.seller.value.gstin else "29BBBBB0000B1Z5",
                     req.hsnCode, t);
    RoundNearest(t * 18, 100, RoundHalfEven(t * 18, 100));
    RoundNearest(t * 9, 100, RoundHalfEven(t * 9, 100));
  }

  /**
   Both records succeed together, exactly when the amount does not round below zero, and carry one
   amount: microALGO times the rate, to the nearest paisa, the even one on a tie. The tax is rounded from
   it, and each record carries its own side's details.
   */
  lemma SameAmountOnBothRecords(req: Request)
    ensures FemaFor(req).Ok? <==> Recordable(req)
    ensures GstFor(req).Ok? <==> Recordable(req)
    ensures Recordable(req) ==> RecordsOf(req, FemaFor(req).value, GstFor(req).value)
  {
    FemaRecorded(req);
    GstRecorded(req);
    if Recordable(req) {
      RoundNearest(AskedNum(req), AskedDen(req), FemaFor(req).value.amountInr);
      RoundNearest(AskedNum(req), AskedDen(req), GstFor(req).value.taxableAmount);
    }
  }

  /** On one taxable amount the intrastate total differs from the interstate tax by at most a paisa. */
  lemma SplitTaxClose(taxable: ExactPaise)
    ensures -1 <= 2 * Tax(taxable, 9) - Tax(taxable, 18) <= 1
  {
    var den := taxable.den * 100;
    var half, full := Tax(taxable, 9), Tax(taxable, 18);
    RoundWithinHalf(taxable.num * 9, den);
    RoundWithinHalf(taxable.num * 18, den);
    var gap := 2 * half - full;
    assert -3 * den <= 2 * (den * gap) <= 3 * den by {
      assert den * gap == 2 * (den * half) - den * full;
    }
    if gap >= 2 {
      Scale(den, 2, gap);
    } else if gap <= -2 {
      Scale(den, gap, -2);
    }
  }

  function SumTaxable(rs: seq<GstRecord>): int {
    if rs == [] then 0 else rs[0].taxableAmount + SumTaxable(rs[1..])
  }

  function SumIgst(rs: seq<GstRecord>): int {
    if rs == [] then 0 else rs[0].igstAmount + SumIgst(rs[1..])
  }

  /** Interstate records as the service generates them, from amounts already in whole paise. */
  ghost predicate InterstateRecords(rs: seq<GstRecord>) {
    forall i :: 0 <= i < |rs| ==> rs[i].igstAmount == Tax(Paise(rs[i].taxableAmount, 1), 18)
  }

  lemma GeneratedInterstate(req: Request)
    requires GstFor(req).Ok? && GstFor(req).value.taxType == Igst
    ensures GstFor(req).value.igstAmount == Tax(Paise(GstFor(req).value.taxableAmount, 1), 18)
  {
    WholePaise(RoundPaise(ExactInr(req.microAlgo, RateOf(req))));
  }

  /** Rounding each of n records moves their total tax by at most n/2 paise from 18% of the total. */
  lemma {:induction false} InterstateSumClose(rs: seq<GstRecord>)
    requires InterstateRecords(rs)
    ensures -50 * |rs| <= 100 * SumIgst(rs) - 18 * SumTaxable(rs) <= 50 * |rs|
  {
    if rs != [] {
      InterstateSumClose(rs[1..]);
      var t := rs[0].taxableAmount;
      RoundWithinHalf(t * 18, 100);
    }
  }

  /** The GST records that these requests generate. */
  function Generated(reqs: seq<Request>): (rs: seq<GstRecord>)
    requires forall i :: 0 <= i < |reqs| ==> GstFor(reqs[i]).Ok?
    ensures |rs| == |reqs| && forall i :: 0 <= i < |reqs| ==> rs[i] == GstFor(reqs[i]).value
  {
    seq(|reqs|, i requires 0 <= i < |reqs| => GstFor(reqs[i]).value)
  }

  /** Over any interstate requests the summed IGST is within n/2 paise of 18% of the summed taxable amounts. */
  lemma SummedIgstClose(reqs: seq<Request>)
    requires forall i :: 0 <= i < |reqs| ==> GstFor(reqs[i]).Ok? && GstFor(reqs[i]).value.taxType == Igst
    ensures -50 * |reqs| <= 100 * SumIgst(Generated(reqs)) - 18 * SumTaxable(Generated(reqs)) <= 50 * |reqs|
  {
    forall i | 0 <= i < |reqs|
      ensures Generated(reqs)[i].igstAmount == Tax(Paise(Generated(reqs)[i].taxableAmount, 1), 18)
    {
      GeneratedInterstate(reqs[i]);
    }
    InterstateSumClose(Generated(reqs));
  }

  /** Under either regime the total tax is within one paisa of 18% of the taxable amount. */
  lemma TotalTaxIsEighteenPercent(req: Request)
    requires GstFor(req).Ok?
    ensures var g := GstFor(req).value;
      -100 <= 100 * g.TotalTax() - 18 * g.taxableAmount <= 100
  {
    var t := RoundPaise(ExactInr(req.microAlgo, RateOf(req)));
    WholePaise(t);
    RoundWithinHalf(t * 18, 100);
    RoundWithinHalf(t * 9, 100);
  }

  /** More microALGO never makes any recorded amount smaller. */
  lemma AmountsMonotone(req: Request, more: int)
    requires req.microAlgo <= more && RateOf(req).num >= 0
    requires GstFor(req).Ok?
    ensures var req' := req.(microAlgo := more);
      && FemaFor(req').Ok? && GstFor(req').Ok?
      && FemaFor(req).value.amountInr <= FemaFor(req').value.amountInr
      && GstFor(req).value.taxableAmount <= GstFor(req').value.taxableAmount
      && GstFor(req).value.igstAmount <= GstFor(req').value.igstAmount
      && GstFor(req).value.cgstAmount <= GstFor(req').value.cgstAmount
      && GstFor(req).value.sgstAmount <= GstFor(req').value.sgstAmount
      && GstFor(req).value.TotalTax() <= GstFor(req').value.TotalTax()
      && (FemaFor(req).value.formType == Form15CB ==> FemaFor(req').value.formType == Form15CB)
  {
    var req' := req.(microAlgo := more);
    var rate := RateOf(req);
    var x, y := ExactInr(req.microAlgo, rate), ExactInr(more, rate);
    Scale(rate.num, req.microAlgo, more);
    assert x.num <= y.num && x.den == y.den;
    RoundMonotone(x.num, y.num, x.den);
    SameAmountOnBothRecords(req);
    SameAmountOnBothRecords(req');
    var a, b := RoundPaise(x), RoundPaise(y);
    WholePaise(a);
    WholePaise(b);
    RoundMonotone(a * 18, b * 18, 100);
    RoundMonotone(a * 9, b * 9, 100);
  }

  /**
   The form follows the exact amount and the record stores the rounded one. They disagree exactly
   on amounts within half a paisa below 500,000 rupees, and then the form is the lower one.
   */
  lemma FormDisagreesIff(req: Request)
    requires FemaFor(req).Ok?
    ensures var f := FemaFor(req).value;
      (f.formType == Form15CB <==> f.amountInr >= 50_000_000)
      <==> !(99_999_999 * AskedDen(req) <= 2 * AskedNum(req) < 100_000_000 * AskedDen(req))
    ensures FemaFor(req).value.formType == Form15CB ==> FemaFor(req).value.amountInr >= 50_000_000
  {
    var exact := ExactInr(req.microAlgo, RateOf(req));
    var z := RoundPaise(exact);
    ExactIsAsked(req);
    RoundWithinHalf(exact.num, exact.den);
    RoundNearest(exact.num, exact.den, 50_000_000);
    if z >= 50_000_001 {
      Scale(exact.den, 50_000_001, z);
    } else if z <= 49_999_999 {
      Scale(exact.den, z, 49_999_999);
    }
  }
}
