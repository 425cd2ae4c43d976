/**
 * The weighted fare split: each participant pays the total in proportion to
 * their weight, rounded independently at a chosen digit, and the rounding
 * difference is settled by a synthetic organiser entry ("幹事").
 *
 * All amounts are exact: a base amount total*w/W is kept as the fraction
 * (total*w)/W, never as a floating-point number.
 */
module Calculation {
  import opened Wrappers

  /** How each base amount is rounded. */
  datatype RoundingMethod = RoundUp | RoundDown | RoundHalfUp

  /** The digit at which amounts are rounded: 0.1, 1, 10 or 100 yen. */
  datatype RoundingUnit = Tenth | One | Ten | Hundred

  datatype Participant = Participant(name: string, weight: nat)

  /** One output row; the organiser row has weight 0. */
  datatype ShareEntry = ShareEntry(name: string, weight: nat, shareAmount: int)

  /** The only error the split raises: the weights add up to zero. */
  datatype CalcError = TotalWeightZero

  const OrganizerName: string := "幹事"

  // ---------------------------------------------------------------------------
  // Rounding at a digit
  // ---------------------------------------------------------------------------

  /** The rounding unit as an exact fraction of a yen: UnitNum(u) / UnitDen(u). */
  function UnitNum(u: RoundingUnit): nat
  {
    match u
    case Tenth => 1
    case One => 1
    case Ten => 10
    case Hundred => 100
  }

  function UnitDen(u: RoundingUnit): nat
  {
    match u
    case Tenth => 10
    case _ => 1
  }

  /** The step in yen that rounding at digit `u` produces: ten times the unit. */
  function DigitToStep(u: RoundingUnit): (step: nat)
    ensures step >= 1
    ensures step * UnitDen(u) == 10 * UnitNum(u)
  {
    match u
    case Tenth => 1
    case One => 10
    case Ten => 100
    case Hundred => 1000
  }

  lemma DivBounds(a: int, d: int)
    requires d > 0
    ensures d * (a / d) <= a < d * (a / d) + d
  {
  }

  lemma MulLeft(k: int, a: int, b: int)
    requires k >= 0 && a <= b
    ensures k * a <= k * b
  {
  }

  /** Integer division by a positive divisor is monotone. */
  lemma DivMonotone(a: int, b: int, d: int)
    requires a <= b && d > 0
    ensures a / d <= b / d
  {
    DivBounds(a, d);
    DivBounds(b, d);
    if a / d > b / d {
      MulLeft(d, b / d + 1, a / d);
      assert false;
    }
  }

  /**
   * Math.ceil(amount / step) * step for the amount num/den: the smallest
   * multiple of the step that is not below the amount.
   */
  function RoundUpAt(num: int, den: int, u: RoundingUnit): (r: int)
    requires den > 0
    ensures r % DigitToStep(u) == 0
    ensures num <= r * den < num + DigitToStep(u) * den
  {
    var step := DigitToStep(u);
    var d := den * step;
    var q := (-num) / d;
    DivBounds(-num, d);
    assert (-q) * step * den == -(d * q);
    -q * step
  }

  /**
   * Math.floor(amount / step) * step for the amount num/den: the largest
   * multiple of the step that is not above the amount.
   */
  function RoundDownAt(num: int, den: int, u: RoundingUnit): (r: int)
    requires den > 0
    ensures r % DigitToStep(u) == 0
    ensures r * den <= num < r * den + DigitToStep(u) * den
  {
    var step := DigitToStep(u);
    var d := den * step;
    var q := num / d;
    DivBounds(num, d);
    assert q * step * den == d * q;
    q * step
  }

  /**
   * Math.round(amount / step) * step for the amount num/den. Math.round(x) is
   * floor(x + 1/2), so the result is the multiple of the step nearest to the
   * amount, a tie going to the larger one: -step/2 < r - amount <= step/2.
   */
  function RoundHalfUpAt(num: int, den: int, u: RoundingUnit): (r: int)
    requires den > 0
    ensures r % DigitToStep(u) == 0
    ensures -(DigitToStep(u) * den) < 2 * (r * den - num) <= DigitToStep(u) * den
  {
    var step := DigitToStep(u);
    var d := den * step;
    var q := (2 * num + d) / (2 * d);
    DivBounds(2 * num + d, 2 * d);
    assert q * step * den == d * q;
    q * step
  }

  /** The rounding a method selects, applied to the amount num/den. */
  function RoundAt(m: RoundingMethod, num: int, den: int, u: RoundingUnit): (r: int)
    requires den > 0
    ensures r % DigitToStep(u) == 0
    ensures -(DigitToStep(u) * den) < r * den - num < DigitToStep(u) * den
  {
    match m
    case RoundUp => RoundUpAt(num, den, u)
    case RoundDown => RoundDownAt(num, den, u)
    case RoundHalfUp => RoundHalfUpAt(num, den, u)
  }

  /** Every rounding method is monotone in the amount. */
  lemma RoundAtMonotone(m: RoundingMethod, a: int, b: int, den: int, u: RoundingUnit)
    requires den > 0 && a <= b
    ensures RoundAt(m, a, den, u) <= RoundAt(m, b, den, u)
  {
    var step := DigitToStep(u);
    var d := den * step;
    match m
    case RoundUp =>
      DivMonotone(-b, -a, d);
      MulLeft(step, (-b) / d, (-a) / d);
    case RoundDown =>
      DivMonotone(a, b, d);
      MulLeft(step, a / d, b / d);
    case RoundHalfUp =>
      DivMonotone(2 * a + d, 2 * b + d, 2 * d);
      MulLeft(step, (2 * a + d) / (2 * d), (2 * b + d) / (2 * d));
  }

  // ---------------------------------------------------------------------------
  // Sums
  // ---------------------------------------------------------------------------

  /** Σ weight, as participants.reduce computes it. */
  function WeightSum(ps: seq<Participant>): nat
  {
    if ps == [] then 0 else WeightSum(ps[..|ps| - 1]) + ps[|ps| - 1].weight
  }

  /** Σ shareAmount over a list of entries. */
  function Total(es: seq<ShareEntry>): int
  {
    if es == [] then 0 else Total(es[..|es| - 1]) + es[|es| - 1].shareAmount
  }

  /** The weights add up to zero exactly when every weight is zero. */
  lemma {:induction false} WeightSumZero(ps: seq<Participant>)
    ensures WeightSum(ps) == 0 <==> forall i :: 0 <= i < |ps| ==> ps[i].weight == 0
  {
    if ps != [] {
      var init := ps[..|ps| - 1];
      WeightSumZero(init);
      assert forall i :: 0 <= i < |init| ==> init[i] == ps[i];
    }
  }

  // ---------------------------------------------------------------------------
  // The split
  // ---------------------------------------------------------------------------

  /** The rounded share of a participant of weight w: round(total * w / W). */
  function ShareOf(total: nat, w: nat, totalWeight: nat, m: RoundingMethod, u: RoundingUnit): (r: int)
    requires totalWeight > 0
    ensures r % DigitToStep(u) == 0
    ensures -(DigitToStep(u) * totalWeight) < r * totalWeight - total * w < DigitToStep(u) * totalWeight
  {
    RoundAt(m, total * w, totalWeight, u)
  }

  /** The base entries after the rounding pass: input order, each rounded on its own. */
  function Rounded(total: nat, ps: seq<Participant>, totalWeight: nat, m: RoundingMethod, u: RoundingUnit): (r: seq<ShareEntry>)
    requires totalWeight > 0
    ensures |r| == |ps|
    ensures forall i :: 0 <= i < |ps| ==> r[i].name == ps[i].name && r[i].weight == ps[i].weight
    ensures forall i :: 0 <= i < |ps| ==> r[i].shareAmount % DigitToStep(u) == 0
    ensures forall i :: 0 <= i < |ps| ==>
      -(DigitToStep(u) * totalWeight) < r[i].shareAmount * totalWeight - total * ps[i].weight < DigitToStep(u) * totalWeight
  {
    seq(|ps|, i requires 0 <= i < |ps| =>
      ShareEntry(ps[i].name, ps[i].weight, ShareOf(total, ps[i].weight, totalWeight, m, u)))
  }

  /** The rounded entries, followed by the organiser when the rounding leaves a difference. */
  function Settled(rounded: seq<ShareEntry>, total: nat): (r: seq<ShareEntry>)
    ensures |r| == |rounded| || |r| == |rounded| + 1
    ensures Total(r) == total
    ensures r[..|rounded|] == rounded
    ensures |r| == |rounded| + 1 <==> Total(rounded) != total
    ensures |r| == |rounded| + 1 ==> r[|rounded|] == ShareEntry(OrganizerName, 0, total - Total(rounded))
  {
    var difference := total - Total(rounded);
    if difference != 0 then
      var r := rounded + [ShareEntry(OrganizerName, 0, difference)];
      assert r[..|rounded|] == rounded;
      r
    else
      rounded
  }

  /** The first entry carrying `name`, as Array.prototype.find returns it. */
  function FindByName(es: seq<ShareEntry>, name: string): (r: Option<ShareEntry>)
    ensures r.None? <==> forall i :: 0 <= i < |es| ==> es[i].name != name
    ensures r.Some? ==> exists i :: 0 <= i < |es| && es[i] == r.value && es[i].name == name
                          && forall j :: 0 <= j < i ==> es[j].name != name
  {
    if es == [] then None
    else if es[0].name == name then
      Some(es[0])
    else
      var r := FindByName(es[1..], name);
      assert forall i :: 0 < i < |es| ==> es[i] == es[1..][i - 1];
      if r.Some? then
        var i :| 0 <= i < |es| - 1 && es[1..][i] == r.value && es[1..][i].name == name
                  && forall j :: 0 <= j < i ==> es[1..][j].name != name;
        assert es[i + 1] == r.value;
        r
      else
        r
  }

  /** The output row of each participant: its own name and weight, and the share `find` returns for its name. */
  function Reassociate(ps: seq<Participant>, base: seq<ShareEntry>): (r: seq<ShareEntry>)
    ensures |r| == |ps|
    ensures forall i :: 0 <= i < |ps| ==> r[i].name == ps[i].name && r[i].weight == ps[i].weight
  {
    seq(|ps|, i requires 0 <= i < |ps| =>
      ShareEntry(ps[i].name, ps[i].weight, FindByName(base, ps[i].name).GetOr(ShareEntry("", 0, 0)).shareAmount))
  }

  /**
   * calculateShareAmounts as written: the rows are re-associated with the
   * rounded amounts by name (first match), and the organiser row is whatever
   * entry `find` returns for the name "幹事".
   */
  function ShareAmounts(total: nat, ps: seq<Participant>, roundingMethod: Option<RoundingMethod>, roundingUnit: Option<RoundingUnit>): (r: Result<seq<ShareEntry>, CalcError>)
    ensures |ps| == 0 ==> r == Success([])
    ensures r.Failure? <==> |ps| > 0 && forall i :: 0 <= i < |ps| ==> ps[i].weight == 0
  {
    WeightSumZero(ps);
    if |ps| == 0 then Success([])
    else
      var totalWeight := WeightSum(ps);
      if totalWeight == 0 then Failure(TotalWeightZero)
      else
        var base := Settled(Rounded(total, ps, totalWeight, roundingMethod.GetOr(RoundHalfUp), roundingUnit.GetOr(Tenth)), total);
        var result := Reassociate(ps, base);
        match FindByName(base, OrganizerName)
        case Some(organizer) => Success(result + [ShareEntry(OrganizerName, 0, organizer.shareAmount)])
        case None => Success(result)
  }

  /**
   * The split with each row taking the amount rounded for its own position:
   * the rounded entries in input order, then the organiser when the rounding
   * leaves a difference. Every row sums to the total.
   */
  function ShareAmountsByIndex(total: nat, ps: seq<Participant>, roundingMethod: Option<RoundingMethod>, roundingUnit: Option<RoundingUnit>): (r: Result<seq<ShareEntry>, CalcError>)
    ensures r.Failure? <==> |ps| > 0 && forall i :: 0 <= i < |ps| ==> ps[i].weight == 0
    ensures r.Success? ==> Total(r.value) == total || |ps| == 0
  {
    WeightSumZero(ps);
    if |ps| == 0 then Success([])
    else
      var totalWeight := WeightSum(ps);
      if totalWeight == 0 then Failure(TotalWeightZero)
      else
        Success(Settled(Rounded(total, ps, totalWeight, roundingMethod.GetOr(RoundHalfUp), roundingUnit.GetOr(Tenth)), total))
  }

  // ---------------------------------------------------------------------------
  // Properties of the split
  // ---------------------------------------------------------------------------

  /** Names pairwise distinct and none of them the organiser's. */
  predicate NamesUnambiguous(ps: seq<Participant>)
  {
    (forall i, j :: 0 <= i < j < |ps| ==> ps[i].name != ps[j].name) &&
    (forall i :: 0 <= i < |ps| ==> ps[i].name != OrganizerName)
  }

  /** With unambiguous names, looking a row up by name finds the row at the same position. */
  lemma {:induction false} FindOwnRow(ps: seq<Participant>, base: seq<ShareEntry>, k: nat)
    requires NamesUnambiguous(ps) && k < |ps| <= |base|
    requires forall i :: 0 <= i < |ps| ==> base[i].name == ps[i].name
    ensures FindByName(base, ps[k].name) == Some(base[k])
  {
    var r := FindByName(base, ps[k].name);
    assert r.Some?;
    var i :| 0 <= i < |base| && base[i] == r.value && base[i].name == ps[k].name
              && forall j :: 0 <= j < i ==> base[j].name != ps[k].name;
    assert i == k;
  }

  /**
   * With pairwise distinct names none of which is "幹事", the split as written
   * equals the split by position.
   */
  lemma AsWrittenMatchesByIndex(total: nat, ps: seq<Participant>, roundingMethod: Option<RoundingMethod>, roundingUnit: Option<RoundingUnit>)
    requires NamesUnambiguous(ps)
    ensures ShareAmounts(total, ps, roundingMethod, roundingUnit) == ShareAmountsByIndex(total, ps, roundingMethod, roundingUnit)
  {
    if |ps| > 0 && WeightSum(ps) > 0 {
      var rounded := Rounded(total, ps, WeightSum(ps), roundingMethod.GetOr(RoundHalfUp), roundingUnit.GetOr(Tenth));
      var base := Settled(rounded, total);
      ReassociateOwnRows(ps, rounded, base);
      if |base| == |ps| + 1 {
        OrganizerLast(ps, base);
        assert base == rounded + [base[|ps|]];
      } else {
        OrganizerAbsent(ps, base);
      }
    }
  }

  /** With unambiguous names, every row finds the entry at its own position. */
  lemma ReassociateOwnRows(ps: seq<Participant>, rounded: seq<ShareEntry>, base: seq<ShareEntry>)
    requires NamesUnambiguous(ps) && |rounded| == |ps| <= |base| && base[..|ps|] == rounded
    requires forall i :: 0 <= i < |ps| ==> rounded[i].name == ps[i].name && rounded[i].weight == ps[i].weight
    ensures Reassociate(ps, base) == rounded
  {
    var result := Reassociate(ps, base);
    forall k | 0 <= k < |ps|
      ensures result[k] == rounded[k]
    {
      assert base[k] == rounded[k];
      FindOwnRow(ps, base, k);
    }
  }

  /** With no participant named "幹事", the only organiser entry is the appended one. */
  lemma OrganizerLast(ps: seq<Participant>, base: seq<ShareEntry>)
    requires NamesUnambiguous(ps) && |base| == |ps| + 1 && base[|ps|].name == OrganizerName
    requires forall i :: 0 <= i < |ps| ==> base[i].name == ps[i].name
    ensures FindByName(base, OrganizerName) == Some(base[|ps|])
  {
    var r := FindByName(base, OrganizerName);
    var i :| 0 <= i < |base| && base[i] == r.value && base[i].name == OrganizerName
              && forall j :: 0 <= j < i ==> base[j].name != OrganizerName;
    assert i == |ps|;
  }

  /** With no participant named "幹事" and nothing appended, there is no organiser entry. */
  lemma OrganizerAbsent(ps: seq<Participant>, base: seq<ShareEntry>)
    requires NamesUnambiguous(ps) && |base| == |ps|
    requires forall i :: 0 <= i < |ps| ==> base[i].name == ps[i].name
    ensures FindByName(base, OrganizerName).None?
  {
    assert forall i :: 0 <= i < |base| ==> base[i].name != OrganizerName;
  }

  /**
   * Conservation: with pairwise distinct names none of which is "幹事", the
   * rows, organiser included, add up to the total exactly.
   */
  lemma Conservation(total: nat, ps: seq<Participant>, roundingMethod: Option<RoundingMethod>, roundingUnit: Option<RoundingUnit>)
    requires NamesUnambiguous(ps)
    requires ShareAmounts(total, ps, roundingMethod, roundingUnit).Success?
    ensures |ps| > 0 ==> Total(ShareAmounts(total, ps, roundingMethod, roundingUnit).value) == total
  {
    AsWrittenMatchesByIndex(total, ps, roundingMethod, roundingUnit);
  }

  /**
   * The output layout, whatever the names: row i has participant i's name and
   * weight, and at most one further row follows, the organiser's, named
   * "幹事" with weight 0.
   */
  lemma Layout(total: nat, ps: seq<Participant>, roundingMethod: Option<RoundingMethod>, roundingUnit: Option<RoundingUnit>)
    requires ShareAmounts(total, ps, roundingMethod, roundingUnit).Success?
    ensures var r := ShareAmounts(total, ps, roundingMethod, roundingUnit).value;
      (|r| == |ps| || |r| == |ps| + 1) &&
      (forall i :: 0 <= i < |ps| ==> r[i].name == ps[i].name && r[i].weight == ps[i].weight) &&
      (|r| == |ps| + 1 ==> r[|ps|].name == OrganizerName && r[|ps|].weight == 0)
  {
    WeightSumZero(ps);
    if |ps| > 0 {
      var base := Settled(Rounded(total, ps, WeightSum(ps), roundingMethod.GetOr(RoundHalfUp), roundingUnit.GetOr(Tenth)), total);
      var result := Reassociate(ps, base);
      match FindByName(base, OrganizerName)
      case Some(organizer) =>
        assert ShareAmounts(total, ps, roundingMethod, roundingUnit).value == result + [ShareEntry(OrganizerName, 0, organizer.shareAmount)];
      case None =>
        assert ShareAmounts(total, ps, roundingMethod, roundingUnit).value == result;
    }
  }

  /**
   * The layout with unambiguous names: row i holds participant i's rounded
   * share, and the organiser row, carrying total - Σ rounded, is present
   * exactly when that difference is not zero.
   */
  lemma LayoutUnambiguous(total: nat, ps: seq<Participant>, roundingMethod: Option<RoundingMethod>, roundingUnit: Option<RoundingUnit>)
    requires NamesUnambiguous(ps) && WeightSum(ps) > 0
    ensures var r := ShareAmounts(total, ps, roundingMethod, roundingUnit);
      var rounded := Rounded(total, ps, WeightSum(ps), roundingMethod.GetOr(RoundHalfUp), roundingUnit.GetOr(Tenth));
      var difference := total - Total(rounded);
      r.Success? &&
      (forall i :: 0 <= i < |ps| ==> r.value[i] == ShareEntry(ps[i].name, ps[i].weight,
                                      ShareOf(total, ps[i].weight, WeightSum(ps), roundingMethod.GetOr(RoundHalfUp), roundingUnit.GetOr(Tenth)))) &&
      (|r.value| == |ps| + 1 <==> difference != 0) &&
      (|r.value| == |ps| + 1 ==> r.value[|ps|] == ShareEntry(OrganizerName, 0, difference))
  {
    AsWrittenMatchesByIndex(total, ps, roundingMethod, roundingUnit);
    WeightSumZero(ps);
  }

  /**
   * Under the same method and unit, a heavier participant never pays less.
   */
  lemma WeightMonotone(total: nat, w1: nat, w2: nat, totalWeight: nat, m: RoundingMethod, u: RoundingUnit)
    requires totalWeight > 0 && w1 <= w2
    ensures ShareOf(total, w1, totalWeight, m, u) <= ShareOf(total, w2, totalWeight, m, u)
  {
    MulLeft(total, w1, w2);
    RoundAtMonotone(m, total * w1, total * w2, totalWeight, u);
  }

  /** Weight monotonicity within one split with unambiguous names. */
  lemma ShareMonotoneInWeight(total: nat, ps: seq<Participant>, roundingMethod: Option<RoundingMethod>, roundingUnit: Option<RoundingUnit>, i: nat, j: nat)
    requires NamesUnambiguous(ps) && WeightSum(ps) > 0
    requires i < |ps| && j < |ps| && ps[i].weight <= ps[j].weight
    ensures ShareAmounts(total, ps, roundingMethod, roundingUnit).Success?
    ensures ShareAmounts(total, ps, roundingMethod, roundingUnit).value[i].shareAmount <= ShareAmounts(total, ps, roundingMethod, roundingUnit).value[j].shareAmount
  {
    LayoutUnambiguous(total, ps, roundingMethod, roundingUnit);
    WeightMonotone(total, ps[i].weight, ps[j].weight, WeightSum(ps), roundingMethod.GetOr(RoundHalfUp), roundingUnit.GetOr(Tenth));
  }

  /** A missing method or unit means rounding half up at 0.1 yen (steps of 1 yen). */
  lemma DefaultRounding(total: nat, ps: seq<Participant>)
    ensures ShareAmounts(total, ps, None, None) == ShareAmounts(total, ps, Some(RoundHalfUp), Some(Tenth))
  {
  }

  /** The three participants of the worked example below. */
  function ExampleParticipants(): seq<Participant>
  {
    [Participant("A", 1), Participant("B", 2), Participant("C", 3)]
  }

  /** The worked example below, split by position. */
  lemma RoundUpExampleByIndex()
    ensures ShareAmountsByIndex(1000, ExampleParticipants(), Some(RoundUp), Some(One))
            == Success([ShareEntry("A", 1, 170), ShareEntry("B", 2, 340), ShareEntry("C", 3, 500), ShareEntry(OrganizerName, 0, -10)])
  {
    var ps := ExampleParticipants();
    WeightSumOfTwo(ps[0], ps[1]);
    assert ps[..2] == [ps[0], ps[1]];
    assert WeightSum(ps) == 6;
    assert RoundUpAt(1000, 6, One) == 170;
    assert RoundUpAt(2000, 6, One) == 340;
    assert RoundUpAt(3000, 6, One) == 500;
    var rounded := Rounded(1000, ps, 6, RoundUp, One);
    var expected := [ShareEntry("A", 1, 170), ShareEntry("B", 2, 340), ShareEntry("C", 3, 500)];
    assert rounded == expected;
    TotalOfTwo(expected[0], expected[1]);
    assert expected[..2] == [expected[0], expected[1]];
    assert Total(expected) == 1010;
    assert Settled(expected, 1000) == expected + [ShareEntry(OrganizerName, 0, -10)];
    assert Some(RoundUp).GetOr(RoundHalfUp) == RoundUp && Some(One).GetOr(Tenth) == One;
    assert ShareAmountsByIndex(1000, ps, Some(RoundUp), Some(One)) == Success(Settled(rounded, 1000));
    assert expected + [ShareEntry(OrganizerName, 0, -10)]
        == [ShareEntry("A", 1, 170), ShareEntry("B", 2, 340), ShareEntry("C", 3, 500), ShareEntry(OrganizerName, 0, -10)];
  }

  /**
   * 1000 yen over weights 1, 2, 3, rounded up at the 1-yen digit: 170, 340 and
   * 500 collect 1010, and the organiser row carries -10.
   */
  lemma RoundUpExample()
    ensures ShareAmounts(1000, ExampleParticipants(), Some(RoundUp), Some(One))
            == Success([ShareEntry("A", 1, 170), ShareEntry("B", 2, 340), ShareEntry("C", 3, 500), ShareEntry(OrganizerName, 0, -10)])
  {
    assert NamesUnambiguous(ExampleParticipants());
    AsWrittenMatchesByIndex(1000, ExampleParticipants(), Some(RoundUp), Some(One));
    RoundUpExampleByIndex();
  }

  // ---------------------------------------------------------------------------
  // The organiser's amount
  // ---------------------------------------------------------------------------

  function Sum(s: seq<int>): int
  {
    if s == [] then 0 else Sum(s[..|s| - 1]) + s[|s| - 1]
  }

  /** W times the rounding error of each row: share * W - total * w. */
  function ScaledErrors(rounded: seq<ShareEntry>, total: nat, totalWeight: nat): (r: seq<int>)
    ensures |r| == |rounded|
  {
    seq(|rounded|, i requires 0 <= i < |rounded| => rounded[i].shareAmount * totalWeight - total * rounded[i].weight)
  }

  function Weights(es: seq<ShareEntry>): int
  {
    if es == [] then 0 else Weights(es[..|es| - 1]) + es[|es| - 1].weight
  }

  /** The scaled errors add up to W * Σ shares - total * Σ weights. */
  lemma {:induction false} ScaledErrorSum(rounded: seq<ShareEntry>, total: nat, totalWeight: nat)
    ensures Sum(ScaledErrors(rounded, total, totalWeight)) == totalWeight * Total(rounded) - total * Weights(rounded)
  {
    if rounded != [] {
      var init := rounded[..|rounded| - 1];
      var last := rounded[|rounded| - 1];
      ScaledErrorSum(init, total, totalWeight);
      assert ScaledErrors(rounded, total, totalWeight)[..|rounded| - 1] == ScaledErrors(init, total, totalWeight);
      calc {
        totalWeight * Total(rounded) - total * Weights(rounded);
        totalWeight * (Total(init) + last.shareAmount) - total * (Weights(init) + last.weight);
        { assert totalWeight * (Total(init) + last.shareAmount) == totalWeight * Total(init) + totalWeight * last.shareAmount;
          assert total * (Weights(init) + last.weight) == total * Weights(init) + total * last.weight; }
        (totalWeight * Total(init) - total * Weights(init)) + (last.shareAmount * totalWeight - total * last.weight);
      }
    }
  }

  /** Bounds on each term of a sum bound the sum. */
  lemma {:induction false} SumBounds(s: seq<int>, lo: int, hi: int)
    requires forall i :: 0 <= i < |s| ==> lo <= s[i] <= hi
    ensures |s| * lo <= Sum(s) <= |s| * hi
  {
    if s != [] {
      var init := s[..|s| - 1];
      assert forall i :: 0 <= i < |init| ==> init[i] == s[i];
      SumBounds(init, lo, hi);
      assert |s| * lo == |init| * lo + lo;
      assert |s| * hi == |init| * hi + hi;
    }
  }

  lemma {:induction false} WeightsOfRounded(total: nat, ps: seq<Participant>, totalWeight: nat, m: RoundingMethod, u: RoundingUnit)
    requires totalWeight > 0
    ensures Weights(Rounded(total, ps, totalWeight, m, u)) == WeightSum(ps)
  {
    if ps != [] {
      var init := ps[..|ps| - 1];
      WeightsOfRounded(total, init, totalWeight, m, u);
      assert Rounded(total, ps, totalWeight, m, u)[..|ps| - 1] == Rounded(total, init, totalWeight, m, u);
    }
  }

  /** Dividing both sides of an inequality by a positive factor. */
  lemma CancelFactor(k: int, a: int, b: int)
    requires k > 0
    ensures k * a <= k * b <==> a <= b
    ensures k * a < k * b <==> a < b
  {
    if a <= b {
      MulLeft(k, a, b);
      if a < b {
        MulLeft(k, a + 1, b);
      }
    } else {
      MulLeft(k, b + 1, a);
    }
  }

  /** W times the organiser's amount is minus the sum of the scaled errors. */
  lemma {:induction false} DifferenceFromErrors(total: nat, ps: seq<Participant>, m: RoundingMethod, u: RoundingUnit)
    requires WeightSum(ps) > 0
    ensures var rounded := Rounded(total, ps, WeightSum(ps), m, u);
      Sum(ScaledErrors(rounded, total, WeightSum(ps))) == -(WeightSum(ps) * (total - Total(rounded)))
  {
    var totalWeight := WeightSum(ps);
    var rounded := Rounded(total, ps, totalWeight, m, u);
    ScaledErrorSum(rounded, total, totalWeight);
    WeightsOfRounded(total, ps, totalWeight, m, u);
    Distribute(totalWeight, total, Total(rounded));
  }

  lemma Distribute(w: int, a: int, b: int)
    ensures w * b - a * w == -(w * (a - b))
  {
  }

  /** From W * Σ-error bounds to bounds on the organiser's amount, rounding down. */
  lemma DownArithmetic(w: int, n: int, step: int, difference: int)
    requires w > 0 && n > 0 && step > 0
    requires n * (1 - step * w) <= -(w * difference) <= 0
    ensures 0 <= difference < n * step
  {
    CancelFactor(w, 0, difference);
    assert n * (1 - step * w) == n - w * (n * step);
    CancelFactor(w, difference, n * step);
  }

  /** From W * Σ-error bounds to bounds on the organiser's amount, rounding up. */
  lemma UpArithmetic(w: int, n: int, step: int, difference: int)
    requires w > 0 && n > 0 && step > 0
    requires 0 <= -(w * difference) <= n * (step * w - 1)
    ensures -(n * step) < difference <= 0
  {
    CancelFactor(w, difference, 0);
    assert n * (step * w - 1) == w * (n * step) - n;
    CancelFactor(w, -(n * step), difference);
  }

  /** From W * Σ-error bounds to bounds on the organiser's amount, rounding half up. */
  lemma HalfUpArithmetic(w: int, n: int, step: int, difference: int)
    requires w > 0 && n > 0 && step > 0
    requires n * -(step * w) <= 2 * -(w * difference) <= n * (step * w)
    ensures -(n * step) <= 2 * difference <= n * step
  {
    assert n * (step * w) == w * (n * step);
    assert 2 * -(w * difference) == -(w * (2 * difference));
    CancelFactor(w, 2 * difference, n * step);
    CancelFactor(w, -(n * step), 2 * difference);
  }

  /**
   * Rounding down, the organiser's amount total - Σ rounded is never negative
   * and stays below one step per participant.
   */
  lemma {:induction false} OrganizerRoundingDown(total: nat, ps: seq<Participant>, u: RoundingUnit)
    requires WeightSum(ps) > 0
    ensures var difference := total - Total(Rounded(total, ps, WeightSum(ps), RoundDown, u));
      0 <= difference < |ps| * DigitToStep(u)
  {
    var totalWeight: int, step: int := WeightSum(ps), DigitToStep(u);
    var rounded := Rounded(total, ps, totalWeight, RoundDown, u);
    DifferenceFromErrors(total, ps, RoundDown, u);
    SumBounds(ScaledErrors(rounded, total, totalWeight), 1 - step * totalWeight, 0);
    DownArithmetic(totalWeight, |ps|, step, total - Total(rounded));
  }

  /**
   * Rounding up, the organiser's amount total - Σ rounded is never positive
   * and stays above minus one step per participant.
   */
  lemma {:induction false} OrganizerRoundingUp(total: nat, ps: seq<Participant>, u: RoundingUnit)
    requires WeightSum(ps) > 0
    ensures var difference := total - Total(Rounded(total, ps, WeightSum(ps), RoundUp, u));
      -(|ps| * DigitToStep(u)) < difference <= 0
  {
    var totalWeight: int, step: int := WeightSum(ps), DigitToStep(u);
    var rounded := Rounded(total, ps, totalWeight, RoundUp, u);
    DifferenceFromErrors(total, ps, RoundUp, u);
    SumBounds(ScaledErrors(rounded, total, totalWeight), 0, step * totalWeight - 1);
    UpArithmetic(totalWeight, |ps|, step, total - Total(rounded));
  }

  /**
   * Rounding half up, the organiser's amount total - Σ rounded is at most
   * half a step per participant either way.
   */
  lemma {:induction false} OrganizerRoundingHalfUp(total: nat, ps: seq<Participant>, u: RoundingUnit)
    requires WeightSum(ps) > 0
    ensures var difference := total - Total(Rounded(total, ps, WeightSum(ps), RoundHalfUp, u));
      -(|ps| * DigitToStep(u)) <= 2 * difference <= |ps| * DigitToStep(u)
  {
    var totalWeight: int, step: int := WeightSum(ps), DigitToStep(u);
    var rounded := Rounded(total, ps, totalWeight, RoundHalfUp, u);
    var errors := ScaledErrors(rounded, total, totalWeight);
    DifferenceFromErrors(total, ps, RoundHalfUp, u);
    DoubledSum(errors);
    SumBounds(seq(|errors|, i requires 0 <= i < |errors| => 2 * errors[i]), -(step * totalWeight), step * totalWeight);
    HalfUpArithmetic(totalWeight, |ps|, step, total - Total(rounded));
  }

  lemma {:induction false} DoubledSum(s: seq<int>)
    ensures Sum(seq(|s|, i requires 0 <= i < |s| => 2 * s[i])) == 2 * Sum(s)
  {
    if s != [] {
      var init := s[..|s| - 1];
      DoubledSum(init);
      assert seq(|s|, i requires 0 <= i < |s| => 2 * s[i])[..|s| - 1] == seq(|init|, i requires 0 <= i < |init| => 2 * init[i]);
    }
  }

  // ---------------------------------------------------------------------------
  // The duplicate-name and "幹事" discrepancies
  // ---------------------------------------------------------------------------

  lemma TotalOfTwo(a: ShareEntry, b: ShareEntry)
    ensures Total([a, b]) == a.shareAmount + b.shareAmount
  {
    assert [a][..0] == [];
    assert Total([a]) == a.shareAmount;
    assert [a, b][..1] == [a];
  }

  lemma WeightSumOfTwo(a: Participant, b: Participant)
    ensures WeightSum([a, b]) == a.weight + b.weight
  {
    assert [a][..0] == [];
    assert WeightSum([a]) == a.weight;
    assert [a, b][..1] == [a];
  }

  /** Two participants both named "A": the second is charged the first one's share and 500 yen go missing. */
  lemma DuplicateNamesLoseAmount()
    ensures ShareAmounts(1000, [Participant("A", 1), Participant("A", 3)], None, None)
            == Success([ShareEntry("A", 1, 250), ShareEntry("A", 3, 250)])
    ensures Total([ShareEntry("A", 1, 250), ShareEntry("A", 3, 250)]) == 500
    ensures ShareAmountsByIndex(1000, [Participant("A", 1), Participant("A", 3)], None, None)
            == Success([ShareEntry("A", 1, 250), ShareEntry("A", 3, 750)])
  {
    var ps := [Participant("A", 1), Participant("A", 3)];
    WeightSumOfTwo(ps[0], ps[1]);
    var rounded := Rounded(1000, ps, 4, RoundHalfUp, Tenth);
    assert rounded == [ShareEntry("A", 1, 250), ShareEntry("A", 3, 750)];
    TotalOfTwo(rounded[0], rounded[1]);
    assert Settled(rounded, 1000) == rounded;
    assert FindByName(rounded, "A") == Some(rounded[0]);
    assert FindByName(rounded, OrganizerName) == None;
    assert Reassociate(ps, rounded) == [ShareEntry("A", 1, 250), ShareEntry("A", 3, 250)];
    TotalOfTwo(ShareEntry("A", 1, 250), ShareEntry("A", 3, 250));
  }

  /** A participant named "幹事" is also reported as the organiser, even when nothing is left to settle. */
  lemma OrganizerNameShadowed()
    ensures ShareAmounts(1000, [Participant(OrganizerName, 1), Participant("B", 3)], None, None)
            == Success([ShareEntry(OrganizerName, 1, 250), ShareEntry("B", 3, 750), ShareEntry(OrganizerName, 0, 250)])
    ensures Total([ShareEntry(OrganizerName, 1, 250), ShareEntry("B", 3, 750), ShareEntry(OrganizerName, 0, 250)]) == 1250
  {
    var ps := [Participant(OrganizerName, 1), Participant("B", 3)];
    WeightSumOfTwo(ps[0], ps[1]);
    var rounded := Rounded(1000, ps, 4, RoundHalfUp, Tenth);
    assert rounded == [ShareEntry(OrganizerName, 1, 250), ShareEntry("B", 3, 750)];
    TotalOfTwo(rounded[0], rounded[1]);
    assert Settled(rounded, 1000) == rounded;
    assert FindByName(rounded, OrganizerName) == Some(rounded[0]);
    assert FindByName(rounded, "B") == Some(rounded[1]);
    assert Reassociate(ps, rounded) == rounded;
    var es := [ShareEntry(OrganizerName, 1, 250), ShareEntry("B", 3, 750), ShareEntry(OrganizerName, 0, 250)];
    assert rounded + [ShareEntry(OrganizerName, 0, 250)] == es;
    assert es[..2] == [es[0], es[1]];
    TotalOfTwo(es[0], es[1]);
    assert Total(es) == Total(es[..2]) + es[2].shareAmount;
  }

  // ---------------------------------------------------------------------------
  // calculateShareAmounts, step by step
  // ---------------------------------------------------------------------------

  /** participants.reduce((sum, p) => sum + p.weight, 0). */
  method SumWeights(ps: seq<Participant>) returns (totalWeight: nat)
    ensures totalWeight == WeightSum(ps)
  {
    totalWeight := 0;
    for i := 0 to |ps|
      invariant totalWeight == WeightSum(ps[..i])
    {
      assert ps[..i + 1][..i] == ps[..i];
      totalWeight := totalWeight + ps[i].weight;
    }
    assert ps[..|ps|] == ps;
  }

  /** baseAmounts.reduce((sum, p) => sum + p.shareAmount, 0). */
  method SumShares(es: seq<ShareEntry>) returns (sum: int)
    ensures sum == Total(es)
  {
    sum := 0;
    for i := 0 to |es|
      invariant sum == Total(es[..i])
    {
      assert es[..i + 1][..i] == es[..i];
      sum := sum + es[i].shareAmount;
    }
    assert es[..|es|] == es;
  }

  /** Array.prototype.find over the entries by name. */
  method FindEntry(es: seq<ShareEntry>, name: string) returns (found: Option<ShareEntry>)
    ensures found == FindByName(es, name)
  {
    var i := 0;
    while i < |es|
      invariant 0 <= i <= |es|
      invariant FindByName(es, name) == FindByName(es[i..], name)
    {
      if es[i].name == name {
        return Some(es[i]);
      }
      assert es[i..][1..] == es[i + 1..];
      i := i + 1;
    }
    return None;
  }

  /**
   * The base amounts and the rounding pass: each entry starts at the floor of
   * its base amount, then the forEach overwrites its shareAmount with the
   * amount rounded at the chosen digit.
   */
  method RoundBaseAmounts(totalAmount: nat, participants: seq<Participant>, totalWeight: nat,
                          m: RoundingMethod, u: RoundingUnit)
    returns (baseAmounts: seq<ShareEntry>)
    requires totalWeight > 0
    ensures baseAmounts == Rounded(totalAmount, participants, totalWeight, m, u)
  {
    baseAmounts := [];
    for i := 0 to |participants|
      invariant |baseAmounts| == i
      invariant forall k :: 0 <= k < i ==>
        baseAmounts[k] == ShareEntry(participants[k].name, participants[k].weight, (totalAmount * participants[k].weight) / totalWeight)
    {
      var p := participants[i];
      baseAmounts := baseAmounts + [ShareEntry(p.name, p.weight, (totalAmount * p.weight) / totalWeight)];
    }

    for i := 0 to |baseAmounts|
      invariant |baseAmounts| == |participants|
      invariant forall k :: 0 <= k < i ==>
        baseAmounts[k] == ShareEntry(participants[k].name, participants[k].weight, ShareOf(totalAmount, participants[k].weight, totalWeight, m, u))
      invariant forall k :: i <= k < |baseAmounts| ==>
        baseAmounts[k].name == participants[k].name && baseAmounts[k].weight == participants[k].weight
    {
      var p := baseAmounts[i];
      var amount := totalAmount * p.weight;
      var share;
      match m {
        case RoundUp => share := RoundUpAt(amount, totalWeight, u);
        case RoundDown => share := RoundDownAt(amount, totalWeight, u);
        case RoundHalfUp => share := RoundHalfUpAt(amount, totalWeight, u);
      }
      baseAmounts := baseAmounts[i := p.(shareAmount := share)];
    }
  }

  /** participants.map: each participant's name and weight with the share `find` returns for its name. */
  method MapByName(participants: seq<Participant>, baseAmounts: seq<ShareEntry>) returns (result: seq<ShareEntry>)
    ensures result == Reassociate(participants, baseAmounts)
  {
    result := [];
    for i := 0 to |participants|
      invariant |result| == i
      invariant forall k :: 0 <= k < i ==> result[k] == Reassociate(participants, baseAmounts)[k]
    {
      var p := participants[i];
      var calculated := FindEntry(baseAmounts, p.name);
      var shareAmount := if calculated.Some? then calculated.value.shareAmount else 0;
      result := result + [ShareEntry(p.name, p.weight, shareAmount)];
    }
  }

  /**
   * The rounded base amounts, with the organiser appended when their total
   * misses the amount to split. Every legal unit is positive, so the rounding
   * pass always runs.
   */
  method SettleBaseAmounts(totalAmount: nat, participants: seq<Participant>, totalWeight: nat,
                           m: RoundingMethod, u: RoundingUnit)
    returns (baseAmounts: seq<ShareEntry>)
    requires totalWeight > 0
    ensures baseAmounts == Settled(Rounded(totalAmount, participants, totalWeight, m, u), totalAmount)
  {
    baseAmounts := RoundBaseAmounts(totalAmount, participants, totalWeight, m, u);
    var roundedTotal := SumShares(baseAmounts);
    var difference := totalAmount - roundedTotal;
    if difference != 0 {
      baseAmounts := baseAmounts + [ShareEntry(OrganizerName, 0, difference)];
    }
  }

  /**
   * calculateShareAmounts: sum the weights, round each base amount, append
   * the organiser when the rounded total misses, then rebuild the rows in
   * input order by name and append the organiser `find` returns.
   */
  method CalculateShareAmounts(totalAmount: nat, participants: seq<Participant>,
                               roundingMethod: Option<RoundingMethod>, roundingUnit: Option<RoundingUnit>)
    returns (r: Result<seq<ShareEntry>, CalcError>)
    ensures r == ShareAmounts(totalAmount, participants, roundingMethod, roundingUnit)
  {
    if |participants| == 0 {
      return Success([]);
    }
    var totalWeight := SumWeights(participants);
    if totalWeight == 0 {
      return Failure(TotalWeightZero);
    }

    var mode := roundingMethod.GetOr(RoundHalfUp);
    var unit := roundingUnit.GetOr(Tenth);
    var baseAmounts := SettleBaseAmounts(totalAmount, participants, totalWeight, mode, unit);

    var result := MapByName(participants, baseAmounts);
    var organizer := FindEntry(baseAmounts, OrganizerName);
    if organizer.Some? {
      result := result + [ShareEntry(OrganizerName, 0, organizer.value.shareAmount)];
    }
    return Success(result);
  }
}
