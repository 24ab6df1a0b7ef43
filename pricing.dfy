/**
 * The price engine: a per-booking breakdown from the duration, the per-person
 * rate, the party size and the three add-on flags.  Inputs are clamped, never
 * rejected.
 */
module Pricing {
  import opened Ecma

  datatype Duration = Full | Half

  datatype Addons = Addons(guide: bool, meals: bool, pickup: bool)

  datatype PricingInput = PricingInput(duration: Duration, basePerPerson: real, partySize: int, addons: Addons)

  datatype PriceLine = PriceLine(labelTh: string, labelEn: string, amount: int)

  datatype PriceBreakdown = PriceBreakdown(base: int, addons: int, total: int, lines: seq<PriceLine>)

  /** `BASE_PRICE`: the fallback per-person rate of each duration. */
  function BasePrice(d: Duration): nat {
    match d
    case Full => 2500
    case Half => 1500
  }

  /** `ADDON_PRICES`. */
  const GuidePrice: nat := 600
  const MealsPrice: nat := 300
  const PickupPrice: nat := 800

  const GuideLabel := "Professional guide"
  const MealsLabel := "Lunch meals"
  const PickupLabel := "Hotel pickup (per group)"

  function DurationName(d: Duration): string {
    if d == Full then "Full day" else "Half day"
  }

  /** `Math.max(1, partySize || 1)`: zero and negative sizes count as one
      person. */
  function EffectivePartySize(partySize: int): (r: int)
    ensures r >= 1
    ensures partySize >= 1 ==> r == partySize
  {
    if partySize < 1 then 1 else partySize
  }

  /** `Math.max(0, Math.round(basePerPerson || 0))`: the nearest whole rate,
      never negative. */
  function PerPersonRate(basePerPerson: real): (r: nat)
    ensures basePerPerson >= -0.5 ==> basePerPerson - 0.5 < r as real <= basePerPerson + 0.5
    ensures basePerPerson < -0.5 ==> r == 0
  {
    var rounded := Round(basePerPerson);
    if rounded < 0 then 0 else rounded
  }

  function RateLabel(d: Duration, partySize: int): string
    requires partySize >= 1
  {
    DurationName(d) + " location rate x " + NatToString(partySize) + " pax"
  }

  function LinesTotal(lines: seq<PriceLine>): int {
    if lines == [] then 0 else lines[0].amount + LinesTotal(lines[1..])
  }

  lemma LinesTotalOfFour(lines: seq<PriceLine>)
    requires |lines| == 4
    ensures LinesTotal(lines) == lines[0].amount + lines[1].amount + lines[2].amount + lines[3].amount
  {
    var t1, t2, t3 := lines[1..], lines[2..], lines[3..];
    assert t1[1..] == t2 && t2[1..] == t3 && t3[1..] == [];
    assert LinesTotal(t3) == lines[3].amount;
    assert LinesTotal(t2) == lines[2].amount + LinesTotal(t3);
    assert LinesTotal(t1) == lines[1].amount + LinesTotal(t2);
  }

  /** `calculatePrice`. */
  function CalculatePrice(input: PricingInput): (r: PriceBreakdown)
    ensures r.total == r.base + r.addons
    ensures r.base == PerPersonRate(input.basePerPerson) * EffectivePartySize(input.partySize)
    ensures r.base >= 0 && r.addons >= 0
    ensures |r.lines| == 4 && LinesTotal(r.lines) == r.total
    ensures r.lines[0].amount == r.base
    ensures forall i :: 0 <= i < |r.lines| ==> r.lines[i].amount >= 0 && r.lines[i].labelTh == r.lines[i].labelEn
  {
    var partySize := EffectivePartySize(input.partySize);
    var perPerson := PerPersonRate(input.basePerPerson);
    var base := perPerson * partySize;
    var guide := if input.addons.guide then GuidePrice * partySize else 0;
    var meals := if input.addons.meals then MealsPrice * partySize else 0;
    var pickup := if input.addons.pickup then PickupPrice else 0;
    var addonsTotal := guide + meals + pickup;
    var rateLabel := RateLabel(input.duration, partySize);
    var lines := [
      PriceLine(rateLabel, rateLabel, base),
      PriceLine(GuideLabel, GuideLabel, guide),
      PriceLine(MealsLabel, MealsLabel, meals),
      PriceLine(PickupLabel, PickupLabel, pickup)
    ];
    LinesTotalOfFour(lines);
    PriceBreakdown(base, addonsTotal, base + addonsTotal, lines)
  }

  /** The four lines come in the order rate, guide, meals, pickup; guide and
      meals scale with the party, pickup is one flat charge per group, and an
      unselected add-on keeps its line with amount 0. */
  lemma LineOrderAndAmounts(input: PricingInput)
    ensures var r := CalculatePrice(input);
      var p := EffectivePartySize(input.partySize);
      && r.lines[0].labelEn == RateLabel(input.duration, p)
      && r.lines[1] == PriceLine(GuideLabel, GuideLabel, if input.addons.guide then GuidePrice * p else 0)
      && r.lines[2] == PriceLine(MealsLabel, MealsLabel, if input.addons.meals then MealsPrice * p else 0)
      && r.lines[3] == PriceLine(PickupLabel, PickupLabel, if input.addons.pickup then PickupPrice else 0)
  {
  }

  /** The pickup line does not depend on the party size. */
  lemma PickupIsFlat(input: PricingInput, otherSize: int)
    ensures CalculatePrice(input).lines[3] == CalculatePrice(input.(partySize := otherSize)).lines[3]
  {
  }

  /** A party size of zero or less prices exactly like a party of one. */
  lemma NonPositivePartyPricedAsOne(input: PricingInput)
    requires input.partySize < 1
    ensures CalculatePrice(input) == CalculatePrice(input.(partySize := 1))
  {
  }

  predicate AddonsAtLeast(more: Addons, fewer: Addons) {
    (fewer.guide ==> more.guide) && (fewer.meals ==> more.meals) && (fewer.pickup ==> more.pickup)
  }

  /** Selecting more add-ons never lowers the total. */
  lemma MoreAddonsNeverCheaper(input: PricingInput, more: Addons)
    requires AddonsAtLeast(more, input.addons)
    ensures CalculatePrice(input).total <= CalculatePrice(input.(addons := more)).total
  {
  }

  /** Half day at 1500 per person for three with every add-on: 4500 + 3500. */
  lemma HalfDayAllAddons()
    ensures var r := CalculatePrice(PricingInput(Half, 1500.0, 3, Addons(true, true, true)));
      r.base == 4500 && r.addons == 3500 && r.total == 8000
      && r.lines[1].amount == 1800 && r.lines[2].amount == 900 && r.lines[3].amount == 800
      && r.lines[0].labelEn == "Half day location rate x 3 pax"
  {
    assert PerPersonRate(1500.0) == 1500;
    assert NatToString(3) == "3";
    assert RateLabel(Half, 3) == "Half day location rate x 3 pax";
    LineOrderAndAmounts(PricingInput(Half, 1500.0, 3, Addons(true, true, true)));
  }

  /** Full day at 2500 per person for two without add-ons: 5000. */
  lemma FullDayNoAddons()
    ensures var r := CalculatePrice(PricingInput(Full, 2500.0, 2, Addons(false, false, false)));
      r.base == 5000 && r.addons == 0 && r.total == 5000
  {
  }
}
