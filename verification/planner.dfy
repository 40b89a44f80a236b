/** The weekly meal planner page: a plan of seven days by three meals, the
    edits on it (drop, clear a slot, clear a day, clear everything), the
    statistics panel, and the shopping list.

    A stored plan is a map from day to a map from meal to a recipe or `null`;
    a day or meal key may be missing, which reads as an empty slot. Keys other
    than the seven days and three meals are not part of this model. */
module Planner {
  import opened Common
  import opened Text
  import opened Records

  datatype Day = Monday | Tuesday | Wednesday | Thursday | Friday | Saturday | Sunday
  datatype Meal = Breakfast | Lunch | Dinner

  /** The display and iteration order of days and meals. */
  const AllDays: seq<Day> := [Monday, Tuesday, Wednesday, Thursday, Friday, Saturday, Sunday]
  const AllMeals: seq<Meal> := [Breakfast, Lunch, Dinner]

  type DayPlan = map<Meal, Option<StoredRecipe>>
  type Plan = map<Day, DayPlan>

  /** `planner[day]?.[meal]`: a missing key is an empty slot. */
  function SlotOf(plan: Plan, d: Day, m: Meal): Option<StoredRecipe> {
    if d in plan && m in plan[d] then plan[d][m] else None
  }

  function Filled(plan: Plan, d: Day, m: Meal): bool {
    SlotOf(plan, d, m).Some?
  }

  /** A day with all three meals set to `null`. */
  const EmptyDay: DayPlan := map[Breakfast := None, Lunch := None, Dinner := None]

  /** The plan of seven empty days. */
  const Initial: Plan := map d: Day | d in AllDays :: EmptyDay

  /** The plan the page starts from, and the one `clearAll` and an empty
      saved plan give back: every day present with its three slots empty. */
  lemma InitialShape(plan: Plan)
    ensures forall d: Day :: d in Initial && Initial[d] == EmptyDay
    ensures EmptyDay.Keys == {Breakfast, Lunch, Dinner} && forall m: Meal :: m in EmptyDay && EmptyDay[m].None?
    ensures ClearAll(plan, true) == Initial && Load(map[]) == Initial
  {
    AllDaysDistinct();
    forall m: Meal ensures m in EmptyDay {
      match m
      case Breakfast =>
      case Lunch =>
      case Dinner =>
    }
  }

  /** Sets one slot; the other meals of the day and the other days keep their
      values (`{...prev, [day]: {...prev[day], [meal]: v}}`). */
  function SetSlot(plan: Plan, d: Day, m: Meal, v: Option<StoredRecipe>): (r: Plan)
    ensures SlotOf(r, d, m) == v
    ensures forall d', m' :: (d', m') != (d, m) ==> SlotOf(r, d', m') == SlotOf(plan, d', m')
    ensures r.Keys == plan.Keys + {d}
  {
    var day := if d in plan then plan[d] else map[];
    plan[d := day[m := v]]
  }

  /** `loadPlanner`: an empty stored plan becomes the initial one. */
  function Load(saved: Plan): (r: Plan)
    ensures saved == map[] ==> forall d, m :: !Filled(r, d, m)
    ensures saved != map[] ==> r == saved
  {
    if saved == map[] then Initial else saved
  }

  /** `handleDrop`: the dragged recipe, or the one parsed from the drag data,
      goes into the slot. `dropped` is None when parsing the drag data throws,
      which leaves the plan as it is; a parsed `null` empties the slot. */
  function Drop(plan: Plan, d: Day, m: Meal, dropped: Option<Option<StoredRecipe>>): (r: Plan)
    ensures dropped.None? ==> r == plan
    ensures dropped.Some? ==> SlotOf(r, d, m) == dropped.value
    ensures forall d', m' :: (d', m') != (d, m) ==> SlotOf(r, d', m') == SlotOf(plan, d', m')
  {
    match dropped
    case None => plan
    case Some(v) => SetSlot(plan, d, m, v)
  }

  /** `clearSlot`. */
  function ClearSlot(plan: Plan, d: Day, m: Meal): (r: Plan)
    ensures !Filled(r, d, m)
    ensures forall d', m' :: (d', m') != (d, m) ==> SlotOf(r, d', m') == SlotOf(plan, d', m')
  {
    SetSlot(plan, d, m, None)
  }

  /** `clearDay`, after the user's answer to the confirmation. */
  function ClearDay(plan: Plan, d: Day, confirmed: bool): (r: Plan)
    ensures !confirmed ==> r == plan
    ensures confirmed ==> forall m :: !Filled(r, d, m)
    ensures forall d', m :: d' != d ==> SlotOf(r, d', m) == SlotOf(plan, d', m)
  {
    if confirmed then plan[d := EmptyDay] else plan
  }

  /** `clearAll`, after the user's answer to the confirmation. */
  function ClearAll(plan: Plan, confirmed: bool): (r: Plan)
    ensures !confirmed ==> r == plan
    ensures confirmed ==> forall d, m :: !Filled(r, d, m)
  {
    if confirmed then Initial else plan
  }

  // ------------------------------------------------------------ statistics

  function Indicator(b: bool): nat {
    if b then 1 else 0
  }

  /** `mealTypes.filter(meal => planner[day]?.[meal]).length`. */
  function DayCount(plan: Plan, d: Day): nat {
    Indicator(Filled(plan, d, Breakfast)) + Indicator(Filled(plan, d, Lunch)) + Indicator(Filled(plan, d, Dinner))
  }

  /** `mealTypes.every(meal => planner[day]?.[meal])`. */
  predicate IsFullDay(plan: Plan, d: Day) {
    forall m: Meal :: Filled(plan, d, m)
  }

  /** The per-day counts summed over a list of days. */
  function CountOver(plan: Plan, days: seq<Day>): nat
    decreases |days|
  {
    if |days| == 0 then 0 else DayCount(plan, days[0]) + CountOver(plan, days[1..])
  }

  /** The full days among a list of days. */
  function FullOver(plan: Plan, days: seq<Day>): nat
    decreases |days|
  {
    if |days| == 0 then 0 else Indicator(IsFullDay(plan, days[0])) + FullOver(plan, days[1..])
  }

  /** The "Planned Meals" figure. */
  function PlannedCount(plan: Plan): nat {
    CountOver(plan, AllDays)
  }

  /** The "Full Days" figure. */
  function FullDays(plan: Plan): nat {
    FullOver(plan, AllDays)
  }

  /** The recipes of a day's filled slots, in meal order. */
  function DayRecipes(plan: Plan, d: Day): (r: seq<StoredRecipe>)
    ensures |r| == DayCount(plan, d)
  {
    (if Filled(plan, d, Breakfast) then [SlotOf(plan, d, Breakfast).value] else [])
    + (if Filled(plan, d, Lunch) then [SlotOf(plan, d, Lunch).value] else [])
    + (if Filled(plan, d, Dinner) then [SlotOf(plan, d, Dinner).value] else [])
  }

  function CollectOver(plan: Plan, days: seq<Day>): seq<StoredRecipe>
    decreases |days|
  {
    if |days| == 0 then [] else DayRecipes(plan, days[0]) + CollectOver(plan, days[1..])
  }

  /** The `allMeals` list of `generateShoppingList`: every planned recipe, day
      by day, meal by meal. */
  function Collect(plan: Plan): seq<StoredRecipe> {
    CollectOver(plan, AllDays)
  }

  lemma {:induction false} CountOverBounds(plan: Plan, days: seq<Day>)
    ensures CountOver(plan, days) <= 3 * |days|
    ensures 3 * FullOver(plan, days) <= CountOver(plan, days)
    ensures CountOver(plan, days) == |CollectOver(plan, days)|
    decreases |days|
  {
    if |days| > 0 {
      CountOverBounds(plan, days[1..]);
      assert IsFullDay(plan, days[0]) ==> DayCount(plan, days[0]) == 3;
    }
  }

  /** At most 21 meals are planned, a full day accounts for three of them, and
      the shopping list's meal count is the planned count. */
  lemma PlannedBounds(plan: Plan)
    ensures PlannedCount(plan) <= 21
    ensures FullDays(plan) <= 7
    ensures 3 * FullDays(plan) <= PlannedCount(plan)
    ensures PlannedCount(plan) == |Collect(plan)|
  {
    CountOverBounds(plan, AllDays);
  }

  lemma {:induction false} CountOverZero(plan: Plan, days: seq<Day>)
    requires forall d, m :: !Filled(plan, d, m)
    ensures CountOver(plan, days) == 0
    decreases |days|
  {
    if |days| > 0 {
      CountOverZero(plan, days[1..]);
    }
  }

  /** A confirmed "clear all" leaves no meal planned. */
  lemma ClearAllEmpties(plan: Plan)
    ensures PlannedCount(ClearAll(plan, true)) == 0
    ensures FullDays(ClearAll(plan, true)) == 0
  {
    CountOverZero(ClearAll(plan, true), AllDays);
    CountOverBounds(ClearAll(plan, true), AllDays);
  }

  /** Day counts change only on day d, by delta, and d occurs once in the list. */
  lemma {:induction false} CountOverShift(plan: Plan, plan': Plan, days: seq<Day>, d: Day, delta: int)
    requires forall d' :: d' != d ==> DayCount(plan', d') == DayCount(plan, d')
    requires DayCount(plan', d) == DayCount(plan, d) + delta
    requires forall i, j :: 0 <= i < j < |days| ==> days[i] != days[j]
    ensures CountOver(plan', days) == CountOver(plan, days) + (if d in days then delta else 0)
    decreases |days|
  {
    if |days| > 0 {
      CountOverShift(plan, plan', days[1..], d, delta);
      if days[0] == d {
        assert d !in days[1..];
      }
    }
  }

  lemma AllDaysDistinct()
    ensures forall i, j :: 0 <= i < j < |AllDays| ==> AllDays[i] != AllDays[j]
    ensures forall d :: d in AllDays
  {
    forall d
      ensures d in AllDays
    {
      match d
      case Monday => assert AllDays[0] == d;
      case Tuesday => assert AllDays[1] == d;
      case Wednesday => assert AllDays[2] == d;
      case Thursday => assert AllDays[3] == d;
      case Friday => assert AllDays[4] == d;
      case Saturday => assert AllDays[5] == d;
      case Sunday => assert AllDays[6] == d;
    }
  }

  /** A day whose slots are all unchanged counts the same. */
  lemma SameDayCount(plan: Plan, plan': Plan, d: Day)
    requires forall m :: SlotOf(plan', d, m) == SlotOf(plan, d, m)
    ensures DayCount(plan', d) == DayCount(plan, d)
  {
  }

  /** Changing one slot of a day changes its count by that slot's indicator. */
  lemma ChangedDayCount(plan: Plan, plan': Plan, d: Day, m: Meal)
    requires forall m' :: m' != m ==> SlotOf(plan', d, m') == SlotOf(plan, d, m')
    ensures DayCount(plan', d) + Indicator(Filled(plan, d, m)) == DayCount(plan, d) + Indicator(Filled(plan', d, m))
  {
    match m
    case Breakfast =>
      assert SlotOf(plan', d, Lunch) == SlotOf(plan, d, Lunch) && SlotOf(plan', d, Dinner) == SlotOf(plan, d, Dinner);
    case Lunch =>
      assert SlotOf(plan', d, Breakfast) == SlotOf(plan, d, Breakfast) && SlotOf(plan', d, Dinner) == SlotOf(plan, d, Dinner);
    case Dinner =>
      assert SlotOf(plan', d, Breakfast) == SlotOf(plan, d, Breakfast) && SlotOf(plan', d, Lunch) == SlotOf(plan, d, Lunch);
  }

  /** A plan that differs from another in at most the slot (d, m) plans as
      many meals, give or take that slot. */
  lemma SlotChangeCount(plan: Plan, plan': Plan, d: Day, m: Meal)
    requires forall d', m' :: (d', m') != (d, m) ==> SlotOf(plan', d', m') == SlotOf(plan, d', m')
    ensures PlannedCount(plan') + Indicator(Filled(plan, d, m)) == PlannedCount(plan) + Indicator(Filled(plan', d, m))
  {
    AllDaysDistinct();
    forall d' | d' != d
      ensures DayCount(plan', d') == DayCount(plan, d')
    {
      forall m' ensures SlotOf(plan', d', m') == SlotOf(plan, d', m') {
        assert (d', m') != (d, m);
      }
      SameDayCount(plan, plan', d');
    }
    forall m' | m' != m
      ensures SlotOf(plan', d, m') == SlotOf(plan, d, m')
    {
      assert (d, m') != (d, m);
    }
    ChangedDayCount(plan, plan', d, m);
    var delta := Indicator(Filled(plan', d, m)) - Indicator(Filled(plan, d, m));
    CountOverShift(plan, plan', AllDays, d, delta);
  }

  /** Dropping a recipe on an empty slot plans one more meal; dropping on a
      filled slot replaces it and keeps the count. */
  lemma DropCount(plan: Plan, d: Day, m: Meal, recipe: StoredRecipe)
    ensures !Filled(plan, d, m) ==> PlannedCount(Drop(plan, d, m, Some(Some(recipe)))) == PlannedCount(plan) + 1
    ensures Filled(plan, d, m) ==> PlannedCount(Drop(plan, d, m, Some(Some(recipe)))) == PlannedCount(plan)
  {
    var plan' := Drop(plan, d, m, Some(Some(recipe)));
    SlotChangeCount(plan, plan', d, m);
  }

  /** Clearing a filled slot plans one meal fewer. */
  lemma ClearSlotCount(plan: Plan, d: Day, m: Meal)
    requires Filled(plan, d, m)
    ensures PlannedCount(ClearSlot(plan, d, m)) == PlannedCount(plan) - 1
  {
    SlotChangeCount(plan, ClearSlot(plan, d, m), d, m);
  }

  /** Dropping a recipe and clearing the same slot gives back the plan's
      slots when the slot was empty before. */
  lemma DropThenClear(plan: Plan, d: Day, m: Meal, recipe: StoredRecipe)
    requires !Filled(plan, d, m)
    ensures forall d', m' :: SlotOf(ClearSlot(Drop(plan, d, m, Some(Some(recipe))), d, m), d', m') == SlotOf(plan, d', m')
  {
  }

  /** `readyInMinutes || 0` summed over a recipe list. */
  function TotalTime(rs: seq<StoredRecipe>): int
    decreases |rs|
  {
    if |rs| == 0 then 0 else IntOr(rs[0].readyInMinutes, 0) + TotalTime(rs[1..])
  }

  /** The "Avg Time" figure: the total time of the planned meals over their
      count (`|| 1`), rounded to the nearest integer, halves up. */
  function AverageTime(plan: Plan): (r: int)
    ensures PlannedCount(plan) == 0 ==> r == 0
    ensures IsRoundedAverage(r, TotalTime(Collect(plan)), PlannedCount(plan))
  {
    var r := RoundedAverage(TotalTime(Collect(plan)), PlannedCount(plan));
    if PlannedCount(plan) == 0 then TimeOfNothing(plan); r else r
  }

  /** r is `Math.round(total / (count || 1))`: the nearest integer to the
      quotient, halves up. */
  predicate IsRoundedAverage(r: int, total: int, count: nat) {
    var n := if count == 0 then 1 else count;
    2 * n * r <= 2 * total + n < 2 * n * (r + 1)
  }

  function RoundedAverage(total: int, count: nat): (r: int)
    ensures IsRoundedAverage(r, total, count)
  {
    RoundDiv(total, if count == 0 then 1 else count)
  }

  lemma TimeOfNothing(plan: Plan)
    requires PlannedCount(plan) == 0
    ensures TotalTime(Collect(plan)) == 0
  {
    PlannedBounds(plan);
  }

  lemma {:induction false} TotalTimeBounds(rs: seq<StoredRecipe>, t: int)
    requires 0 <= t
    requires forall i :: 0 <= i < |rs| ==> 0 <= IntOr(rs[i].readyInMinutes, 0) <= t
    ensures 0 <= TotalTime(rs) <= t * |rs|
    decreases |rs|
  {
    if |rs| > 0 {
      TotalTimeBounds(rs[1..], t);
      assert t * |rs| == t + t * (|rs| - 1);
    }
  }

  /** When every planned meal takes between 0 and t minutes, so does the
      average. */
  lemma AverageWithinBounds(plan: Plan, t: int)
    requires 0 <= t
    requires forall i :: 0 <= i < |Collect(plan)| ==> 0 <= IntOr(Collect(plan)[i].readyInMinutes, 0) <= t
    ensures 0 <= AverageTime(plan) <= t
  {
    var rs := Collect(plan);
    PlannedBounds(plan);
    TotalTimeBounds(rs, t);
    if PlannedCount(plan) > 0 {
      RoundDivBounds(TotalTime(rs), PlannedCount(plan), t);
    }
  }

  /** A rounded quotient of a total between 0 and t * c lies between 0 and t. */
  lemma RoundDivBounds(total: int, c: int, t: int)
    requires c > 0 && 0 <= total <= t * c
    ensures 0 <= RoundDiv(total, c) <= t
  {
    var r := RoundDiv(total, c);
    if r > t {
      MulLe(2 * c, t + 1, r);
      assert false;
    }
    if r < 0 {
      MulLe(2 * c, r + 1, 0);
      assert false;
    }
  }

  // ------------------------------------------------------------ shopping list

  datatype ShoppingItem = ShoppingItem(name: string, amount: string, category: string)

  /** The fixed list the planner offers whatever meals are planned. */
  const MockShoppingList: seq<ShoppingItem> := [
    ShoppingItem("Chicken Breast", "500g", "Meat"),
    ShoppingItem("Rice", "2 cups", "Grains"),
    ShoppingItem("Tomatoes", "6 pieces", "Vegetables"),
    ShoppingItem("Onions", "3 pieces", "Vegetables"),
    ShoppingItem("Garlic", "1 bulb", "Vegetables"),
    ShoppingItem("Olive Oil", "1 bottle", "Oils"),
    ShoppingItem("Salt", "To taste", "Seasonings"),
    ShoppingItem("Black Pepper", "To taste", "Seasonings"),
    ShoppingItem("Mixed Herbs", "1 pack", "Seasonings"),
    ShoppingItem("Eggs", "12 pieces", "Dairy"),
    ShoppingItem("Milk", "1 liter", "Dairy"),
    ShoppingItem("Bread", "1 loaf", "Bakery")]

  datatype ShoppingOutcome =
    | NoMeals(message: string)
    | Generated(mealCount: nat, items: seq<ShoppingItem>)

  /** `generateShoppingList`: an error notice for an empty plan, otherwise the
      fixed list together with the number of planned meals. */
  function GenerateShoppingList(plan: Plan): (r: ShoppingOutcome)
    ensures r.NoMeals? <==> PlannedCount(plan) == 0
    ensures r.NoMeals? ==> r.message == "Add some meals to generate a shopping list"
    ensures r.Generated? ==> r.mealCount == PlannedCount(plan) && r.items == MockShoppingList
  {
    PlannedBounds(plan);
    var meals := Collect(plan);
    if |meals| == 0 then NoMeals("Add some meals to generate a shopping list")
    else Generated(|meals|, MockShoppingList)
  }

  /** The list does not depend on which meals are planned. */
  lemma ShoppingListIgnoresMeals(plan: Plan, plan': Plan)
    requires PlannedCount(plan) > 0 && PlannedCount(plan') > 0
    ensures GenerateShoppingList(plan).items == GenerateShoppingList(plan').items
  {
  }

  /** One line of the downloaded file. */
  function ItemLine(item: ShoppingItem): string {
    "[ ] " + item.name + " - " + item.amount
  }

  function ItemLines(items: seq<ShoppingItem>): (r: seq<string>)
    ensures |r| == |items|
    ensures forall i :: 0 <= i < |items| ==> r[i] == ItemLine(items[i])
  {
    seq(|items|, i requires 0 <= i < |items| => ItemLine(items[i]))
  }

  /** The text of the downloaded `shopping-list.txt`. */
  function DownloadText(items: seq<ShoppingItem>): string {
    Join(ItemLines(items), "\n")
  }

  /** The downloaded file has one line per item, when no name or amount
      contains a line break. */
  lemma DownloadLines(items: seq<ShoppingItem>)
    requires items != []
    requires forall i :: 0 <= i < |items| ==> '\n' !in items[i].name && '\n' !in items[i].amount
    ensures Split(DownloadText(items), '\n') == ItemLines(items)
  {
    var lines := ItemLines(items);
    forall i | 0 <= i < |lines|
      ensures '\n' !in lines[i]
    {
      assert lines[i] == "[ ] " + items[i].name + " - " + items[i].amount;
    }
    SplitJoin(lines, '\n');
  }

  // ------------------------------------------------------------ grouping by category

  /** What evaluating the category grouping of the modal gives: a TypeError,
      or the groups its `.map` callback receives. */
  datatype GroupingOutcome = GroupingThrows | Grouped(groups: seq<Group>)

  datatype Group = Group(category: string, items: seq<ShoppingItem>)

  /** A JavaScript value the reduction can carry: a plain object, or an array.
      Both hold category-keyed properties in insertion order; only an array
      has elements, and only an array has a `map` method. */
  datatype JsValue = PlainObject(props: seq<Group>) | JsArray(elements: seq<Group>, props: seq<Group>)

  /** One step of the reducer: read `acc[item.category]`, store a new array
      there when it is missing, push the item, and return the same
      accumulator. The value's kind never changes. */
  function ReduceStep(acc: JsValue, x: ShoppingItem): (r: JsValue)
    ensures r.PlainObject? <==> acc.PlainObject?
    ensures r.JsArray? ==> r.elements == acc.elements
  {
    match acc
    case PlainObject(ps) => PlainObject(AddToGroups(ps, x))
    case JsArray(es, ps) => JsArray(es, AddToGroups(ps, x))
  }

  /** `items.reduce(step, init)`, left to right. */
  function Reduce(items: seq<ShoppingItem>, init: JsValue): JsValue
    decreases |items|
  {
    if |items| == 0 then init else ReduceStep(Reduce(items[..|items| - 1], init), items[|items| - 1])
  }

  /** `v.map(callback)`: a plain object has no `map`, so the call is a
      TypeError; an array hands its elements, not its keyed properties, to
      the callback. */
  function CallMap(v: JsValue): (r: GroupingOutcome)
    ensures r.GroupingThrows? <==> v.PlainObject?
    ensures v.JsArray? ==> r == Grouped(v.elements)
  {
    match v
    case PlainObject(_) => GroupingThrows
    case JsArray(es, _) => Grouped(es)
  }

  /** Reducing from `{}` yields a plain object whose properties are the
      category groups. */
  lemma {:induction false} ReduceFromEmptyObject(items: seq<ShoppingItem>)
    ensures Reduce(items, PlainObject([])) == PlainObject(GroupByCategory(items))
    decreases |items|
  {
    if |items| > 0 {
      ReduceFromEmptyObject(items[..|items| - 1]);
    }
  }

  /** The grouping expression as written, `list.reduce(..., {}).map(...)`:
      the reduction returns a plain object, so every list ends in a
      TypeError. */
  function GroupingAsWritten(items: seq<ShoppingItem>): (r: GroupingOutcome)
    ensures r.GroupingThrows?
  {
    ReduceFromEmptyObject(items);
    CallMap(Reduce(items, PlainObject([])))
  }

  /** The evidently intended expression, `Object.entries(list.reduce(...,
      {})).map(...)`: the callback receives the object's properties as
      groups. */
  function GroupingCorrected(items: seq<ShoppingItem>): (r: GroupingOutcome)
    ensures r == Grouped(GroupByCategory(items))
  {
    ReduceFromEmptyObject(items);
    match Reduce(items, PlainObject([]))
    case PlainObject(ps) => Grouped(ps)
    case JsArray(es, ps) => Grouped(ps)
  }

  /** Once a list is generated, the modal (shown for a non-empty list)
      cannot render its body: the grouping throws, where the corrected
      grouping hands over every generated item, one group per category. */
  lemma ShoppingModalThrows(plan: Plan)
    requires PlannedCount(plan) > 0
    ensures |GenerateShoppingList(plan).items| > 0
    ensures GroupingAsWritten(GenerateShoppingList(plan).items).GroupingThrows?
    ensures var items := GenerateShoppingList(plan).items;
      var g := GroupingCorrected(items).groups;
      g != [] && WellGrouped(g) && multiset(Flatten(g)) == multiset(items)
  {
    var items := GenerateShoppingList(plan).items;
    GroupByCategoryCorrect(items);
  }

  /** The intended grouping, `Object.entries(...)` of the same reduction:
      categories in first-appearance order, items in list order.
      `Object.entries` lists keys that look like array indices first, in
      ascending order; the shopping list's categories are words, so
      insertion order is the whole story. */
  function GroupByCategory(items: seq<ShoppingItem>): (r: seq<Group>)
    decreases |items|
  {
    if |items| == 0 then [] else AddToGroups(GroupByCategory(items[..|items| - 1]), items[|items| - 1])
  }

  /** One step of the reduction: append to the item's category, or open a new
      category at the end. */
  function AddToGroups(gs: seq<Group>, x: ShoppingItem): (r: seq<Group>)
    decreases |gs|
  {
    if |gs| == 0 then [Group(x.category, [x])]
    else if gs[0].category == x.category then [gs[0].(items := gs[0].items + [x])] + gs[1..]
    else [gs[0]] + AddToGroups(gs[1..], x)
  }

  function Flatten(gs: seq<Group>): seq<ShoppingItem>
    decreases |gs|
  {
    if |gs| == 0 then [] else gs[0].items + Flatten(gs[1..])
  }

  /** The category names of the groups, in order. */
  function Categories(gs: seq<Group>): (r: seq<string>)
    ensures |r| == |gs|
    decreases |gs|
  {
    if |gs| == 0 then [] else [gs[0].category] + Categories(gs[1..])
  }

  predicate NoDuplicates(s: seq<string>) {
    forall i, j :: 0 <= i < j < |s| ==> s[i] != s[j]
  }

  /** Each category appears once, each group holds only its category's items,
      and no group is empty. */
  predicate WellGrouped(gs: seq<Group>) {
    && NoDuplicates(Categories(gs))
    && (forall i :: 0 <= i < |gs| ==> gs[i].items != [])
    && (forall i, k :: 0 <= i < |gs| && 0 <= k < |gs[i].items| ==> gs[i].items[k].category == gs[i].category)
  }

  lemma NoDuplicatesCons(c: string, s: seq<string>)
    ensures NoDuplicates([c] + s) <==> c !in s && NoDuplicates(s)
  {
    if c !in s && NoDuplicates(s) {
      forall i, j | 0 <= i < j < |[c] + s|
        ensures ([c] + s)[i] != ([c] + s)[j]
      {
        if i > 0 {
          assert ([c] + s)[i] == s[i - 1] && ([c] + s)[j] == s[j - 1];
        } else {
          assert ([c] + s)[j] == s[j - 1];
        }
      }
    }
    if NoDuplicates([c] + s) {
      forall i, j | 0 <= i < j < |s|
        ensures s[i] != s[j]
      {
        assert s[i] == ([c] + s)[i + 1] && s[j] == ([c] + s)[j + 1];
      }
      forall k | 0 <= k < |s|
        ensures s[k] != c
      {
        assert s[k] == ([c] + s)[k + 1] && c == ([c] + s)[0];
      }
    }
  }

  /** A new category goes at the end; a known one changes nothing in the
      category list. */
  lemma {:induction false} AddToGroupsCategories(gs: seq<Group>, x: ShoppingItem)
    ensures Categories(AddToGroups(gs, x))
      == if x.category in Categories(gs) then Categories(gs) else Categories(gs) + [x.category]
    decreases |gs|
  {
    if |gs| > 0 {
      var r := AddToGroups(gs, x);
      assert Categories(gs) == [gs[0].category] + Categories(gs[1..]);
      if gs[0].category == x.category {
        assert r[1..] == gs[1..];
      } else {
        AddToGroupsCategories(gs[1..], x);
        assert r[1..] == AddToGroups(gs[1..], x);
      }
    }
  }

  /** Adding an item adds exactly that item to the flattened groups. */
  lemma {:induction false} AddToGroupsFlatten(gs: seq<Group>, x: ShoppingItem)
    ensures multiset(Flatten(AddToGroups(gs, x))) == multiset(Flatten(gs)) + multiset{x}
    decreases |gs|
  {
    var r := AddToGroups(gs, x);
    if |gs| == 0 {
      assert Flatten(r) == [x] + Flatten([]);
    } else if gs[0].category == x.category {
      assert r[1..] == gs[1..];
      assert Flatten(r) == (gs[0].items + [x]) + Flatten(gs[1..]);
    } else {
      AddToGroupsFlatten(gs[1..], x);
      assert r[1..] == AddToGroups(gs[1..], x);
    }
  }

  lemma {:induction false} AddToGroupsWell(gs: seq<Group>, x: ShoppingItem)
    requires WellGrouped(gs)
    ensures WellGrouped(AddToGroups(gs, x))
    decreases |gs|
  {
    var r := AddToGroups(gs, x);
    AddToGroupsCategories(gs, x);
    if |gs| == 0 {
    } else if gs[0].category == x.category {
      assert r[1..] == gs[1..];
      forall i, k | 0 <= i < |r| && 0 <= k < |r[i].items|
        ensures r[i].items[k].category == r[i].category
      {
        if i > 0 {
          assert r[i] == gs[i];
        }
      }
    } else {
      assert Categories(gs) == [gs[0].category] + Categories(gs[1..]);
      NoDuplicatesCons(gs[0].category, Categories(gs[1..]));
      assert WellGrouped(gs[1..]) by {
        forall i, k | 0 <= i < |gs[1..]| && 0 <= k < |gs[1..][i].items|
          ensures gs[1..][i].items[k].category == gs[1..][i].category
        {
          assert gs[1..][i] == gs[i + 1];
        }
      }
      AddToGroupsWell(gs[1..], x);
      var tail := AddToGroups(gs[1..], x);
      assert r == [gs[0]] + tail;
      AddToGroupsCategories(gs[1..], x);
      assert Categories(r) == [gs[0].category] + Categories(tail);
      NoDuplicatesCons(gs[0].category, Categories(tail));
      forall i, k | 0 <= i < |r| && 0 <= k < |r[i].items|
        ensures r[i].items[k].category == r[i].category
      {
        if i > 0 {
          assert r[i] == tail[i - 1];
        }
      }
    }
  }

  /** The corrected grouping keeps every item exactly once, under its own
      category, each category once, and lists exactly the categories of the
      items. */
  lemma GroupByCategoryCorrect(items: seq<ShoppingItem>)
    ensures WellGrouped(GroupByCategory(items))
    ensures multiset(Flatten(GroupByCategory(items))) == multiset(items)
    ensures forall c :: c in Categories(GroupByCategory(items)) <==> c in CategoriesOf(items)
    ensures Categories(GroupByCategory(items)) == FirstSeen(items)
    ensures var g := GroupByCategory(items);
      forall i :: 0 <= i < |g| ==> g[i].items == OfCategory(items, g[i].category)
  {
    GroupByCategoryOrder(items);
    GroupByCategoryWell(items);
    GroupByCategoryKeepsItems(items);
    GroupByCategoryCategories(items);
  }

  lemma {:induction false} GroupByCategoryWell(items: seq<ShoppingItem>)
    ensures WellGrouped(GroupByCategory(items))
    decreases |items|
  {
    if |items| > 0 {
      var init := items[..|items| - 1];
      GroupByCategoryWell(init);
      AddToGroupsWell(GroupByCategory(init), items[|items| - 1]);
    }
  }

  lemma {:induction false} GroupByCategoryKeepsItems(items: seq<ShoppingItem>)
    ensures multiset(Flatten(GroupByCategory(items))) == multiset(items)
    decreases |items|
  {
    if |items| > 0 {
      var init := items[..|items| - 1];
      var x := items[|items| - 1];
      GroupByCategoryKeepsItems(init);
      AddToGroupsFlatten(GroupByCategory(init), x);
      assert items == init + [x];
    }
  }

  lemma {:induction false} GroupByCategoryCategories(items: seq<ShoppingItem>)
    ensures forall c :: c in Categories(GroupByCategory(items)) <==> c in CategoriesOf(items)
    decreases |items|
  {
    if |items| > 0 {
      var init := items[..|items| - 1];
      var x := items[|items| - 1];
      GroupByCategoryCategories(init);
      AddToGroupsCategories(GroupByCategory(init), x);
      CategoriesOfSnoc(init, x);
      assert items == init + [x];
    }
  }

  lemma CategoriesOfSnoc(init: seq<ShoppingItem>, x: ShoppingItem)
    ensures CategoriesOf(init + [x]) == CategoriesOf(init) + {x.category}
  {
    var items := init + [x];
    forall c | c in CategoriesOf(items) ensures c in CategoriesOf(init) + {x.category} {
      var i :| 0 <= i < |items| && items[i].category == c;
      if i < |init| {
        assert items[i] == init[i];
      }
    }
    forall c | c in CategoriesOf(init) ensures c in CategoriesOf(items) {
      var i :| 0 <= i < |init| && init[i].category == c;
      assert items[i] == init[i];
    }
    assert items[|init|] == x;
  }

  /** The set of categories the items carry. */
  function CategoriesOf(items: seq<ShoppingItem>): set<string> {
    set i | 0 <= i < |items| :: items[i].category
  }

  /** The distinct categories of the items, in order of first appearance. */
  function FirstSeen(items: seq<ShoppingItem>): (r: seq<string>)
    ensures |r| <= |items|
    decreases |items|
  {
    if |items| == 0 then []
    else
      var seen := FirstSeen(items[..|items| - 1]);
      var c := items[|items| - 1].category;
      if c in seen then seen else seen + [c]
  }

  /** The items of one category, in list order. */
  function OfCategory(items: seq<ShoppingItem>, c: string): (r: seq<ShoppingItem>)
    ensures |r| <= |items|
    ensures forall k :: 0 <= k < |r| ==> r[k].category == c
    decreases |items|
  {
    if |items| == 0 then []
    else
      var x := items[|items| - 1];
      OfCategory(items[..|items| - 1], c) + (if x.category == c then [x] else [])
  }

  /** A category that has not been seen has no items. */
  lemma {:induction false} OfCategoryUnseen(items: seq<ShoppingItem>, c: string)
    requires c !in FirstSeen(items)
    ensures OfCategory(items, c) == []
    decreases |items|
  {
    if |items| > 0 {
      var init := items[..|items| - 1];
      var x := items[|items| - 1];
      if x.category in FirstSeen(init) {
        assert x.category != c;
      }
      OfCategoryUnseen(init, c);
    }
  }

  /** One reduction step, group by group: the item's own group gains it at
      the end, every other group is untouched, and a new category opens a
      last group holding only the item. */
  lemma {:induction false} AddToGroupsPointwise(gs: seq<Group>, x: ShoppingItem)
    requires NoDuplicates(Categories(gs))
    ensures var r := AddToGroups(gs, x);
      && |r| == (if x.category in Categories(gs) then |gs| else |gs| + 1)
      && (forall i :: 0 <= i < |gs| ==>
            r[i] == Group(gs[i].category, gs[i].items + (if gs[i].category == x.category then [x] else [])))
      && (x.category !in Categories(gs) ==> r[|gs|] == Group(x.category, [x]))
    decreases |gs|
  {
    var r := AddToGroups(gs, x);
    if |gs| == 0 {
    } else if gs[0].category == x.category {
      forall i | 0 < i < |gs|
        ensures gs[i].category != x.category
      {
        CategoryAt(gs, i);
        CategoryAt(gs, 0);
        assert Categories(gs)[i] != Categories(gs)[0];
      }
      assert r[1..] == gs[1..];
      assert x.category in Categories(gs) by {
        CategoryAt(gs, 0);
      }
    } else {
      assert Categories(gs) == [gs[0].category] + Categories(gs[1..]);
      NoDuplicatesCons(gs[0].category, Categories(gs[1..]));
      AddToGroupsPointwise(gs[1..], x);
      var tail := AddToGroups(gs[1..], x);
      assert r == [gs[0]] + tail;
      forall i | 0 < i < |gs|
        ensures r[i] == Group(gs[i].category, gs[i].items + (if gs[i].category == x.category then [x] else []))
      {
        assert r[i] == tail[i - 1] && gs[i] == gs[1..][i - 1];
      }
    }
  }

  /** The grouping keeps both orders: its categories are the items'
      categories in first-seen order, and each group lists its category's
      items in list order. */
  lemma {:induction false} GroupByCategoryOrder(items: seq<ShoppingItem>)
    ensures Categories(GroupByCategory(items)) == FirstSeen(items)
    ensures var g := GroupByCategory(items);
      forall i :: 0 <= i < |g| ==> g[i].items == OfCategory(items, g[i].category)
    decreases |items|
  {
    if |items| > 0 {
      var init := items[..|items| - 1];
      GroupByCategoryOrder(init);
      GroupByCategoryWell(init);
      AddToGroupsCategories(GroupByCategory(init), items[|items| - 1]);
      OrderStep(items);
    }
  }

  /** The inductive step of `GroupByCategoryOrder` for the groups' items. */
  lemma OrderStep(items: seq<ShoppingItem>)
    requires |items| > 0
    requires var g0 := GroupByCategory(items[..|items| - 1]);
      && NoDuplicates(Categories(g0))
      && Categories(g0) == FirstSeen(items[..|items| - 1])
      && forall i :: 0 <= i < |g0| ==> g0[i].items == OfCategory(items[..|items| - 1], g0[i].category)
    ensures var g := GroupByCategory(items);
      forall i :: 0 <= i < |g| ==> g[i].items == OfCategory(items, g[i].category)
  {
    var init := items[..|items| - 1];
    var x := items[|items| - 1];
    var g0 := GroupByCategory(init);
    AddToGroupsPointwise(g0, x);
    var g := GroupByCategory(items);
    forall i | 0 <= i < |g|
      ensures g[i].items == OfCategory(items, g[i].category)
    {
      OrderStepAt(init, x, items, g0, g, i);
    }
  }

  lemma OrderStepAt(init: seq<ShoppingItem>, x: ShoppingItem, items: seq<ShoppingItem>, g0: seq<Group>, g: seq<Group>, i: int)
    requires items == init + [x]
    requires Categories(g0) == FirstSeen(init)
    requires forall j :: 0 <= j < |g0| ==> g0[j].items == OfCategory(init, g0[j].category)
    requires |g| == (if x.category in Categories(g0) then |g0| else |g0| + 1)
    requires forall j :: 0 <= j < |g0| ==>
      g[j] == Group(g0[j].category, g0[j].items + (if g0[j].category == x.category then [x] else []))
    requires x.category !in Categories(g0) ==> g[|g0|] == Group(x.category, [x])
    requires 0 <= i < |g|
    ensures g[i].items == OfCategory(items, g[i].category)
  {
    assert items[..|items| - 1] == init;
    if i >= |g0| {
      OfCategoryUnseen(init, x.category);
    }
  }

  lemma CategoryAt(gs: seq<Group>, i: int)
    requires 0 <= i < |gs|
    ensures Categories(gs)[i] == gs[i].category
    decreases i
  {
    if i > 0 {
      CategoryAt(gs[1..], i - 1);
    }
  }
}
