/** The per-card normalisation: raw fields of one job offer in, the four
    monthly cost components, the gross and net monthly income and the
    effective hourly wage out. All arithmetic is exact (`real`). */
module Normalizer {
  import opened Coercion

  /** Working hours assumed per day and working days per month. */
  const HoursPerDay: real := 8.0
  const DaysPerMonth: real := 22.0
  /** Calendar days a detailed dorm or food cost is projected onto. */
  const ProjectionDays: real := 30.0

  /** The active option of the food unit toggle: '日' (per day) or '回' (per visit). */
  datatype FoodUnit = PerDay | PerVisit

  /** The dorm fields of a card: the details panel and its two inputs, and the
      monthly field outside the panel. */
  datatype DormInput = DormInput(
    panelVisible: bool,
    daily: Option<real>,
    days: Option<int>,
    monthly: Option<real>)

  /** The food fields of a card: the details panel with its amount, unit value
      and unit toggle, and the monthly field outside the panel. */
  datatype FoodInput = FoodInput(
    panelVisible: bool,
    amount: Option<real>,
    unitValue: Option<real>,
    unit: FoodUnit,
    monthly: Option<real>)

  /** Everything `calculate` reads from one card. */
  datatype JobInput = JobInput(
    hourlyWage: Option<real>,
    utilitiesFee: Option<real>,
    transportProvided: Option<real>,
    transportPaid: Option<real>,
    dorm: DormInput,
    food: FoodInput)

  /** The commuting figures: what the worker pays out of pocket, and the
      non-positive shortfall shown on the card. */
  datatype Transport = Transport(deduction: real, display: real)

  /** Everything `calculate` derives for one card, before rounding. */
  datatype Figures = Figures(
    monthlyIncome: real,
    dormFee: real,
    utilitiesFee: real,
    foodCost: real,
    transport: Transport,
    totalDeductions: real,
    netIncome: real,
    effectiveWage: real)

  /** The three numbers written onto the card, each through `Math.round`. */
  datatype Shown = Shown(monthlyIncome: int, effectiveWage: int, transport: int)

  // ---------------------------------------------------------------------------
  // Transport

  /** The deduction is the least non-negative amount covering `paid - provided`;
      the displayed figure is its negation. */
  function TransportOf(provided: real, paid: real): (t: Transport)
    ensures t.deduction >= 0.0 && t.deduction >= paid - provided
    ensures t.deduction == 0.0 || t.deduction == paid - provided
    ensures t.display <= 0.0 && t.display <= provided - paid
    ensures t.display == 0.0 || t.display == provided - paid
    ensures t.deduction == -t.display
  {
    var deficit := provided - paid;
    Transport(if paid - provided > 0.0 then paid - provided else 0.0,
              if deficit < 0.0 then deficit else 0.0)
  }

  /** Something is deducted exactly when more is paid than provided. */
  lemma TransportDeductedIffShortfall(provided: real, paid: real)
    ensures TransportOf(provided, paid).deduction > 0.0 <==> paid > provided
    ensures TransportOf(provided, paid).display < 0.0 <==> paid > provided
  {
  }

  // ---------------------------------------------------------------------------
  // Dorm fee

  /** The daily rate as coerced (`|| 0`). */
  function DormDaily(d: DormInput): real {
    OrDefault(d.daily, 0.0)
  }

  /** The day count as coerced (`|| 1`): never zero, negatives pass through. */
  function DormDays(d: DormInput): (n: int)
    ensures n != 0
    ensures d.days.Some? && d.days.value != 0 ==> n == d.days.value
  {
    IntOrDefault(d.days, 1)
  }

  /** The two-condition mode test: panel visible AND a positive daily rate. */
  predicate DormDetailed(d: DormInput)
    ensures DormDetailed(d) <==> d.panelVisible && d.daily.Some? && d.daily.value > 0.0
  {
    d.panelVisible && DormDaily(d) > 0.0
  }

  /** The monthly dorm fee. In detailed mode it is the rate spread over the day
      count and projected onto 30 days; otherwise the monthly field. */
  function DormFee(d: DormInput): (fee: real)
    ensures DormDetailed(d) ==> fee * (DormDays(d) as real) == DormDaily(d) * ProjectionDays
    ensures !DormDetailed(d) ==> fee == OrDefault(d.monthly, 0.0)
  {
    if DormDetailed(d) then DormDaily(d) / (DormDays(d) as real) * ProjectionDays
    else OrDefault(d.monthly, 0.0)
  }

  /** A missing or zero day count behaves as a single day. */
  lemma DormDaysDefaultIsOne(d: DormInput)
    requires d.days.None? || d.days.value == 0
    ensures DormDetailed(d) ==> DormFee(d) == DormDaily(d) * ProjectionDays
  {
  }

  /** Worked example: 1000 over 10 days is 3000 a month. */
  lemma DormFeeExample(monthly: Option<real>)
    ensures DormFee(DormInput(true, Some(1000.0), Some(10), monthly)) == 3000.0
  {
  }

  // ---------------------------------------------------------------------------
  // Food cost

  /** The detailed amount as coerced (`|| 0`). */
  function FoodAmount(f: FoodInput): real {
    OrDefault(f.amount, 0.0)
  }

  /** The unit value as coerced (`|| 1`): never zero, negatives pass through. */
  function FoodUnitValue(f: FoodInput): (v: real)
    ensures v != 0.0
    ensures f.unitValue.Some? && f.unitValue.value != 0.0 ==> v == f.unitValue.value
  {
    OrDefault(f.unitValue, 1.0)
  }

  /** The two-condition mode test: panel visible AND a positive amount. */
  predicate FoodDetailed(f: FoodInput)
    ensures FoodDetailed(f) <==> f.panelVisible && f.amount.Some? && f.amount.value > 0.0
  {
    f.panelVisible && FoodAmount(f) > 0.0
  }

  /** The monthly food cost. Per day: the amount is spent every `unitValue`
      days, projected onto 30 days. Per visit: the amount times the number of
      visits. Otherwise the monthly field. */
  function FoodCost(f: FoodInput): (cost: real)
    ensures FoodDetailed(f) && f.unit == PerDay ==>
      cost * FoodUnitValue(f) == FoodAmount(f) * ProjectionDays
    ensures FoodDetailed(f) && f.unit == PerVisit ==>
      cost == FoodAmount(f) * FoodUnitValue(f)
    ensures !FoodDetailed(f) ==> cost == OrDefault(f.monthly, 0.0)
  {
    if FoodDetailed(f) then
      match f.unit
      case PerDay => FoodAmount(f) / FoodUnitValue(f) * ProjectionDays
      case PerVisit => FoodAmount(f) * FoodUnitValue(f)
    else OrDefault(f.monthly, 0.0)
  }

  /** A missing or zero unit value behaves as 1. */
  lemma FoodUnitDefaultIsOne(f: FoodInput)
    requires f.unitValue.None? || f.unitValue.value == 0.0
    requires FoodDetailed(f)
    ensures f.unit == PerDay ==> FoodCost(f) == FoodAmount(f) * ProjectionDays
    ensures f.unit == PerVisit ==> FoodCost(f) == FoodAmount(f)
  {
  }

  /** Worked examples: 300 every 3 days is 3000; 500 per visit, 20 visits, is 10000. */
  lemma FoodCostExamples(monthly: Option<real>)
    ensures FoodCost(FoodInput(true, Some(300.0), Some(3.0), PerDay, monthly)) == 3000.0
    ensures FoodCost(FoodInput(true, Some(500.0), Some(20.0), PerVisit, monthly)) == 10000.0
  {
  }

  // ---------------------------------------------------------------------------
  // Aggregate

  /** Hours worked in an assumed month. */
  const MonthlyHours: real := HoursPerDay * DaysPerMonth

  /** Gross monthly income from an hourly wage. */
  function MonthlyIncome(wage: real): (income: real)
    ensures income == wage * MonthlyHours
  {
    wage * HoursPerDay * DaysPerMonth
  }

  /** Gross income is linear in the wage. */
  lemma MonthlyIncomeLinear(w1: real, w2: real, c: real)
    ensures MonthlyIncome(w1 + w2) == MonthlyIncome(w1) + MonthlyIncome(w2)
    ensures MonthlyIncome(c * w1) == c * MonthlyIncome(w1)
  {
  }

  /** The effective hourly wage, floored at 0: net income spread over the
      assumed hours when positive, otherwise 0. */
  function EffectiveWage(net: real): (w: real)
    ensures w >= 0.0
    ensures w == 0.0 <==> net <= 0.0
    ensures net > 0.0 ==> w * MonthlyHours == net
  {
    if net > 0.0 then net / HoursPerDay / DaysPerMonth else 0.0
  }

  /** `calculate` without the DOM: every coercion, both mode tests and the
      final arithmetic. */
  function Calculate(j: JobInput): (r: Figures)
    ensures r.monthlyIncome == OrDefault(j.hourlyWage, 0.0) * MonthlyHours
    ensures r.dormFee == DormFee(j.dorm) && r.foodCost == FoodCost(j.food)
    ensures r.utilitiesFee == OrDefault(j.utilitiesFee, 0.0)
    ensures r.transport == TransportOf(OrDefault(j.transportProvided, 0.0),
                                       OrDefault(j.transportPaid, 0.0))
    ensures r.totalDeductions
            == r.dormFee + r.utilitiesFee + r.foodCost + r.transport.deduction
    ensures r.netIncome == r.monthlyIncome - r.totalDeductions
    ensures r.effectiveWage >= 0.0
    ensures r.effectiveWage == 0.0 <==> r.netIncome <= 0.0
    ensures r.netIncome > 0.0 ==> r.effectiveWage * MonthlyHours == r.netIncome
  {
    var wage := OrDefault(j.hourlyWage, 0.0);
    var utilities := OrDefault(j.utilitiesFee, 0.0);
    var transport := TransportOf(OrDefault(j.transportProvided, 0.0),
                                 OrDefault(j.transportPaid, 0.0));
    var dorm := DormFee(j.dorm);
    var food := FoodCost(j.food);
    var income := MonthlyIncome(wage);
    var total := dorm + utilities + food + transport.deduction;
    var net := income - total;
    Figures(income, dorm, utilities, food, transport, total, net, EffectiveWage(net))
  }

  /** The figures written onto the card. */
  function Render(r: Figures): (s: Shown)
    ensures s.monthlyIncome as real - 0.5 <= r.monthlyIncome < s.monthlyIncome as real + 0.5
    ensures s.effectiveWage as real - 0.5 <= r.effectiveWage < s.effectiveWage as real + 0.5
    ensures s.transport as real - 0.5 <= r.transport.display < s.transport as real + 0.5
  {
    Shown(Round(r.monthlyIncome), Round(r.effectiveWage), Round(r.transport.display))
  }

  /** A card never shows a negative effective wage or a positive commuting figure. */
  lemma ShownSigns(j: JobInput)
    ensures Render(Calculate(j)).effectiveWage >= 0
    ensures Render(Calculate(j)).transport <= 0
  {
  }

  /** A higher net income never shows a lower effective wage. */
  lemma ShownWageMonotone(a: Figures, b: Figures)
    requires a.effectiveWage == EffectiveWage(a.netIncome)
    requires b.effectiveWage == EffectiveWage(b.netIncome)
    requires a.netIncome <= b.netIncome
    ensures Render(a).effectiveWage <= Render(b).effectiveWage
  {
    RoundMonotone(a.effectiveWage, b.effectiveWage);
  }

  /** End to end: wage 1200, utilities 5000, dorm 20000 and food 30000 a month,
      no commuting. The effective wage is exactly 887.5, which `Math.round`
      shows as 888. */
  lemma EndToEndExample(dormPanel: bool, foodPanel: bool, unit: FoodUnit)
    ensures var j := JobInput(Some(1200.0), Some(5000.0), Some(0.0), Some(0.0),
                              DormInput(dormPanel, None, None, Some(20000.0)),
                              FoodInput(foodPanel, None, None, unit, Some(30000.0)));
            var r := Calculate(j);
            && r.monthlyIncome == 211200.0
            && r.totalDeductions == 55000.0
            && r.netIncome == 156200.0
            && r.effectiveWage == 887.5
            && Render(r) == Shown(211200, 888, 0)
  {
  }
}
