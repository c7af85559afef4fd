/** The comparison session: a bounded sequence of job cards, the add button,
    and the events the page reacts to (add, sort, field input, the two
    details-panel toggles, the food unit toggle). */
module Session {
  import opened Coercion
  import N = Normalizer
  import Ranking

  /** At most this many cards are on the page. */
  const MaxJobs: nat := 3

  /** One job card: its fields, and the figures last written onto it (`None`
      while it still shows the template's placeholder text). */
  datatype Card = Card(input: N.JobInput, shown: Option<N.Shown>)

  datatype State = State(cards: seq<Card>, addEnabled: bool)

  /** The numeric fields of a card that hold a `parseFloat` value. */
  datatype NumberField =
    | HourlyWage | UtilitiesFee | TransportProvided | TransportPaid
    | DormMonthly | DormDaily | FoodMonthly | FoodAmount | FoodUnitValue

  /** One input event: a new value in a numeric field, a new choice in the
      dorm day-count selector, or typing in the job-title field, which
      `calculate` does not read but which is wired to it like every input. */
  datatype Edit =
    | SetNumber(field: NumberField, value: Option<real>)
    | SetDormDays(days: Option<int>)
    | TypeJobTitle

  datatype Event =
    | ClickAdd
    | ClickSort
    | Input(card: nat, edit: Edit)
    | ToggleDorm(card: nat)
    | ToggleFood(card: nat)
    | PickUnit(card: nat, unit: N.FoodUnit)

  // ---------------------------------------------------------------------------
  // Fields

  function ReadNumber(j: N.JobInput, f: NumberField): Option<real> {
    match f
    case HourlyWage => j.hourlyWage
    case UtilitiesFee => j.utilitiesFee
    case TransportProvided => j.transportProvided
    case TransportPaid => j.transportPaid
    case DormMonthly => j.dorm.monthly
    case DormDaily => j.dorm.daily
    case FoodMonthly => j.food.monthly
    case FoodAmount => j.food.amount
    case FoodUnitValue => j.food.unitValue
  }

  /** The fields an input event changes: exactly the edited one. */
  function ApplyEdit(j: N.JobInput, e: Edit): (r: N.JobInput)
    ensures e.SetNumber? ==> ReadNumber(r, e.field) == e.value
    ensures e.SetNumber? ==> forall g :: g != e.field ==> ReadNumber(r, g) == ReadNumber(j, g)
    ensures e.SetNumber? ==> r.dorm.days == j.dorm.days
    ensures e.SetDormDays? ==> r.dorm.days == e.days
    ensures e.SetDormDays? ==> forall g :: ReadNumber(r, g) == ReadNumber(j, g)
    ensures e.TypeJobTitle? ==> r == j
    ensures r.dorm.panelVisible == j.dorm.panelVisible
    ensures r.food.panelVisible == j.food.panelVisible
    ensures r.food.unit == j.food.unit
  {
    match e
    case TypeJobTitle => j
    case SetDormDays(d) => j.(dorm := j.dorm.(days := d))
    case SetNumber(f, v) =>
      match f
      case HourlyWage => j.(hourlyWage := v)
      case UtilitiesFee => j.(utilitiesFee := v)
      case TransportProvided => j.(transportProvided := v)
      case TransportPaid => j.(transportPaid := v)
      case DormMonthly => j.(dorm := j.dorm.(monthly := v))
      case DormDaily => j.(dorm := j.dorm.(daily := v))
      case FoodMonthly => j.(food := j.food.(monthly := v))
      case FoodAmount => j.(food := j.food.(amount := v))
      case FoodUnitValue => j.(food := j.food.(unitValue := v))
  }

  /** The edit targets a field inside a details panel that is hidden. */
  predicate InHiddenPanel(j: N.JobInput, e: Edit) {
    match e
    case TypeJobTitle => false
    case SetDormDays(_) => !j.dorm.panelVisible
    case SetNumber(f, _) =>
      ((f == DormDaily) && !j.dorm.panelVisible)
      || ((f == FoodAmount || f == FoodUnitValue) && !j.food.panelVisible)
  }

  // ---------------------------------------------------------------------------
  // Cards

  /** No numeric field filled in (the state of a freshly cloned template,
      whatever its panels and unit). */
  predicate Untouched(j: N.JobInput) {
    forall f :: ReadNumber(j, f).None?
  }

  const BlankInput: N.JobInput :=
    N.JobInput(None, None, None, None,
               N.DormInput(false, None, None, None),
               N.FoodInput(false, None, None, N.PerDay, None))

  const NewCard: Card := Card(BlankInput, None)

  /** An untouched card computes to all zeros. */
  lemma UntouchedIsZero(j: N.JobInput)
    requires Untouched(j)
    ensures N.Render(N.Calculate(j)) == N.Shown(0, 0, 0)
  {
    assert ReadNumber(j, HourlyWage).None? && ReadNumber(j, UtilitiesFee).None?;
    assert ReadNumber(j, TransportProvided).None? && ReadNumber(j, TransportPaid).None?;
    assert ReadNumber(j, DormDaily).None? && ReadNumber(j, DormMonthly).None?;
    assert ReadNumber(j, FoodAmount).None? && ReadNumber(j, FoodMonthly).None?;
  }

  /** A hidden details panel holds no detailed amount: its inputs are blanked
      when it closes, and a hidden input receives no typing. */
  predicate PanelsClean(j: N.JobInput) {
    && (!j.dorm.panelVisible ==> j.dorm.daily.None?)
    && (!j.food.panelVisible ==> j.food.amount.None?)
  }

  /** What a card is like at every point of a session: its panels are clean,
      and it shows either what its fields compute to or, while nothing has
      been typed, the template's placeholder. */
  ghost predicate CardValid(c: Card) {
    && PanelsClean(c.input)
    && (c.shown.Some? ==> c.shown.value == N.Render(N.Calculate(c.input)))
    && (c.shown.None? ==> Untouched(c.input))
  }

  /** `calculate(card)`: the card is redrawn from its fields, so it is
      consistent again and ranks by the rounded effective wage they give. */
  function Recalculate(c: Card): (r: Card)
    ensures r.input == c.input
    ensures PanelsClean(c.input) ==> CardValid(r)
    ensures CardKey(r) == Round(N.Calculate(c.input).effectiveWage)
  {
    c.(shown := Some(N.Render(N.Calculate(c.input))))
  }

  /** An input event on a field of a card recalculates the card. */
  function EditCard(c: Card, e: Edit): (r: Card)
    ensures r.input == ApplyEdit(c.input, e)
    ensures r.shown == Some(N.Render(N.Calculate(r.input)))
    ensures CardValid(c) && !InHiddenPanel(c.input, e) ==> CardValid(r)
  {
    Recalculate(c.(input := ApplyEdit(c.input, e)))
  }

  /** The dorm details toggle: hiding the panel blanks its two inputs and
      recalculates; showing it changes nothing else. */
  function ToggleDormCard(c: Card): (r: Card)
    ensures r.input.dorm.panelVisible == !c.input.dorm.panelVisible
    ensures r.input.dorm.monthly == c.input.dorm.monthly
    ensures r.input.food == c.input.food && r.input.hourlyWage == c.input.hourlyWage
    ensures r.input.utilitiesFee == c.input.utilitiesFee
    ensures r.input.transportProvided == c.input.transportProvided
    ensures r.input.transportPaid == c.input.transportPaid
    // closing: the fee falls back to the monthly field and the card is redrawn
    ensures c.input.dorm.panelVisible ==>
      && r.input.dorm.daily.None? && r.input.dorm.days.None?
      && N.DormFee(r.input.dorm) == OrDefault(c.input.dorm.monthly, 0.0)
      && r.shown == Some(N.Render(N.Calculate(r.input)))
    // opening: nothing is recalculated
    ensures !c.input.dorm.panelVisible ==>
      r.shown == c.shown && r.input.dorm.daily == c.input.dorm.daily
      && r.input.dorm.days == c.input.dorm.days
    ensures CardValid(c) ==> CardValid(r)
  {
    var d := c.input.dorm;
    if d.panelVisible then
      Recalculate(c.(input := c.input.(dorm := d.(panelVisible := false, daily := None, days := None))))
    else
      var withPanel := c.input.(dorm := d.(panelVisible := true));
      assert forall g :: ReadNumber(withPanel, g) == ReadNumber(c.input, g);
      c.(input := withPanel)
  }

  /** The food details toggle: hiding the panel blanks its amount and unit value
      (the unit toggle is not an input and keeps its choice) and recalculates;
      showing it changes nothing else. */
  function ToggleFoodCard(c: Card): (r: Card)
    ensures r.input.food.panelVisible == !c.input.food.panelVisible
    ensures r.input.food.monthly == c.input.food.monthly
    ensures r.input.food.unit == c.input.food.unit
    ensures r.input.dorm == c.input.dorm && r.input.hourlyWage == c.input.hourlyWage
    ensures r.input.utilitiesFee == c.input.utilitiesFee
    ensures r.input.transportProvided == c.input.transportProvided
    ensures r.input.transportPaid == c.input.transportPaid
    ensures c.input.food.panelVisible ==>
      && r.input.food.amount.None? && r.input.food.unitValue.None?
      && N.FoodCost(r.input.food) == OrDefault(c.input.food.monthly, 0.0)
      && r.shown == Some(N.Render(N.Calculate(r.input)))
    ensures !c.input.food.panelVisible ==>
      r.shown == c.shown && r.input.food.amount == c.input.food.amount
      && r.input.food.unitValue == c.input.food.unitValue
    ensures CardValid(c) ==> CardValid(r)
  {
    var f := c.input.food;
    if f.panelVisible then
      Recalculate(c.(input := c.input.(food := f.(panelVisible := false, amount := None, unitValue := None))))
    else
      var withPanel := c.input.(food := f.(panelVisible := true));
      assert forall g :: ReadNumber(withPanel, g) == ReadNumber(c.input, g);
      c.(input := withPanel)
  }

  /** Clicking a unit option makes it the active one and recalculates. */
  function PickUnitCard(c: Card, u: N.FoodUnit): (r: Card)
    ensures r.input == c.input.(food := c.input.food.(unit := u))
    ensures r.shown == Some(N.Render(N.Calculate(r.input)))
    ensures CardValid(c) ==> CardValid(r)
  {
    Recalculate(c.(input := c.input.(food := c.input.food.(unit := u))))
  }

  /** Closing the dorm panel and opening it again leaves the fee at the monthly
      figure, and the card still shows what its fields compute to; only a
      positive daily rate typed afterwards switches back to the detailed fee. */
  lemma CloseThenReopenDorm(c: Card)
    requires c.input.dorm.panelVisible
    ensures var r := ToggleDormCard(ToggleDormCard(c));
            && r.input.dorm.panelVisible
            && N.DormFee(r.input.dorm) == OrDefault(c.input.dorm.monthly, 0.0)
            && r.shown == Some(N.Render(N.Calculate(r.input)))
  {
  }

  /** The same for the food panel. */
  lemma CloseThenReopenFood(c: Card)
    requires c.input.food.panelVisible
    ensures var r := ToggleFoodCard(ToggleFoodCard(c));
            && r.input.food.panelVisible
            && N.FoodCost(r.input.food) == OrDefault(c.input.food.monthly, 0.0)
            && r.shown == Some(N.Render(N.Calculate(r.input)))
  {
  }

  // ---------------------------------------------------------------------------
  // Ranking key

  /** `parseFloat(card's effective-wage text) || 0`: the rounded figure the card
      shows, or 0 while it shows the placeholder. */
  function CardKey(c: Card): (k: int)
    ensures c.shown.Some? ==> k == c.shown.value.effectiveWage
    ensures c.shown.None? ==> k == 0
  {
    match c.shown
    case Some(s) => s.effectiveWage
    case None => 0
  }

  /** On a valid card the key is the rounded effective wage of its current
      fields, so the ranking is by that and not by stale text. */
  lemma CardKeyIsCurrentWage(c: Card)
    requires CardValid(c)
    ensures CardKey(c) == Round(N.Calculate(c.input).effectiveWage)
    ensures CardKey(c) >= 0
  {
    if c.shown.None? {
      UntouchedIsZero(c.input);
    }
  }

  // ---------------------------------------------------------------------------
  // Session

  ghost predicate Valid(s: State) {
    && |s.cards| <= MaxJobs
    && (|s.cards| >= MaxJobs ==> !s.addEnabled)
    && forall c :: c in s.cards ==> CardValid(c)
  }

  /** The page after loading: one card, the add button enabled. */
  const Initial: State := State([NewCard], true)

  lemma InitialValid()
    ensures Valid(Initial)
  {
  }

  /** The add button's click handler: a card is added only below the cap, and
      reaching the cap disables the button. */
  function AddJob(s: State): (r: State)
    ensures |s.cards| < MaxJobs ==> r.cards == s.cards + [NewCard]
    ensures |s.cards| >= MaxJobs ==> r.cards == s.cards
    ensures |s.cards| <= MaxJobs ==> |r.cards| <= MaxJobs
    ensures |r.cards| >= MaxJobs ==> !r.addEnabled
    ensures |r.cards| < MaxJobs ==> r.addEnabled == s.addEnabled
  {
    var cards := if |s.cards| < MaxJobs then s.cards + [NewCard] else s.cards;
    State(cards, if |cards| >= MaxJobs then false else s.addEnabled)
  }

  /** The sort button: the cards reordered by the stable descending sort on
      their displayed effective wage. */
  function SortCards(s: State): (r: State)
    ensures Ranking.IsStableDescending(s.cards, r.cards, CardKey)
    ensures r.addEnabled == s.addEnabled
    ensures Valid(s) ==> Valid(r)
  {
    Ranking.SortDescIsStableDescending(s.cards, CardKey);
    var r := s.(cards := Ranking.SortDesc(s.cards, CardKey));
    assert forall x :: x in r.cards ==> x in s.cards by {
      forall x | x in r.cards ensures x in s.cards {
        assert x in multiset(r.cards);
      }
    }
    r
  }

  /** Worked example: A and B at 1000 and C at 1200, in that order, rank as C, A, B. */
  lemma SortExample(a: Card, b: Card, c: Card)
    requires CardKey(a) == 1000 && CardKey(b) == 1000 && CardKey(c) == 1200
    ensures SortCards(State([a, b, c], false)).cards == [c, a, b]
  {
    // C ranks above B, which is inserted behind it
    assert Ranking.Insert(b, [], CardKey) == [b];
    assert [c][1..] == [];
    assert Ranking.Insert(b, [c], CardKey) == [c, b];
    // A ties with B and goes in front of it, behind C
    assert Ranking.Insert(a, [b], CardKey) == [a, b];
    assert [c, b][1..] == [b];
    assert Ranking.Insert(a, [c, b], CardKey) == [c, a, b];
    assert Ranking.SortDesc([c], CardKey) == [c];
    assert [b, c][1..] == [c];
    assert Ranking.SortDesc([b, c], CardKey) == [c, b];
    assert [a, b, c][1..] == [b, c];
  }

  function UpdateCard(s: State, i: nat, c: Card): (r: State)
    requires i < |s.cards|
    ensures |r.cards| == |s.cards| && r.cards[i] == c && r.addEnabled == s.addEnabled
    ensures forall k :: 0 <= k < |s.cards| && k != i ==> r.cards[k] == s.cards[k]
    ensures Valid(s) && CardValid(c) ==> Valid(r)
  {
    var r := s.(cards := s.cards[i := c]);
    assert forall x :: x in r.cards ==> x == c || x in s.cards by {
      forall x | x in r.cards ensures x == c || x in s.cards {
        var k :| 0 <= k < |r.cards| && r.cards[k] == x;
        if k != i {
          assert s.cards[k] == x;
        }
      }
    }
    r
  }

  /** One event as the page handles it. A disabled button receives no click,
      an event for a card that is not on the page is not dispatched, and a
      field inside a hidden panel receives no input. */
  function Step(s: State, e: Event): (r: State)
    ensures Valid(s) ==> Valid(r)
    ensures |r.cards| >= |s.cards|
    ensures e.ClickSort? ==> multiset(r.cards) == multiset(s.cards)
  {
    match e
    case ClickAdd => if s.addEnabled then AddJob(s) else s
    case ClickSort => SortCards(s)
    case Input(i, ed) =>
      if i < |s.cards| && !InHiddenPanel(s.cards[i].input, ed)
      then UpdateCard(s, i, EditCard(s.cards[i], ed)) else s
    case ToggleDorm(i) =>
      if i < |s.cards| then UpdateCard(s, i, ToggleDormCard(s.cards[i])) else s
    case ToggleFood(i) =>
      if i < |s.cards| then UpdateCard(s, i, ToggleFoodCard(s.cards[i])) else s
    case PickUnit(i, u) =>
      if i < |s.cards| then UpdateCard(s, i, PickUnitCard(s.cards[i], u)) else s
  }

  function Run(s: State, events: seq<Event>): State
    decreases |events|
  {
    if |events| == 0 then s else Run(Step(s, events[0]), events[1..])
  }

  lemma {:induction false} RunValid(s: State, events: seq<Event>)
    requires Valid(s)
    ensures Valid(Run(s, events))
    decreases |events|
  {
    if |events| > 0 {
      RunValid(Step(s, events[0]), events[1..]);
    }
  }

  /** Whatever the user does after loading the page: at most three cards, the
      add button disabled at three, and every card ranked by the rounded
      effective wage of its current fields. */
  lemma Reachable(events: seq<Event>)
    ensures var s := Run(Initial, events);
            && |s.cards| <= MaxJobs
            && (|s.cards| >= MaxJobs ==> !s.addEnabled)
            && forall c :: c in s.cards ==> CardKey(c) == Round(N.Calculate(c.input).effectiveWage)
  {
    InitialValid();
    RunValid(Initial, events);
    var s := Run(Initial, events);
    forall c | c in s.cards
      ensures CardKey(c) == Round(N.Calculate(c.input).effectiveWage)
    {
      CardKeyIsCurrentWage(c);
    }
  }
}
