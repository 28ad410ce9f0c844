/** The index database and what each stage of `calculate_index_for_run` does to it
    (`indexing/service.py`, `basket.py`, `aggregate.py`, `periods.py`), as pure functions.

    Tables are keyed by their unique constraints.  Prices are whole paise in the database; a price
    computed in the current session is still the exact median in memory until the session ends,
    because rows are not expired on commit.
 */
module IndexModel {
  import opened Aggregates
  import opened Options
  import opened Domain
  import opened Calendar
  import opened Methodology
  import opened Periods
  import Sorting
  import Medians
  import Rounding

  datatype CanonicalFare = CanonicalFare(
    route: Route,
    window: AdvanceWindow,
    cabin: string,
    currency: string,
    fare: int,                    // representative total fare, in paise
    version: string,
    usedSources: set<int>)        // sources linked to it as USED_DIRECT or USED_MEDIAN

  datatype CollectionRun = CollectionRun(
    date: CalendarDate,
    trigger: RunTrigger,
    dataClass: DataClass,
    status: RunStatus,
    fares: seq<CanonicalFare>)

  /** `components` are the days of the daily prices the base was computed from. */
  datatype BasketItem = BasketItem(
    route: Route,
    window: AdvanceWindow,
    weight: real,
    base: Option<int>,
    components: seq<int>)

  datatype BasePolicy = FIRST_7_ELIGIBLE_DAILY_PRICES | SEEDED_FIXED

  datatype Basket = Basket(
    policy: BasePolicy,
    baseStart: Option<int>,
    baseEnd: Option<int>,
    items: seq<BasketItem>)

  /** One daily route-window price; `item` numbers the basket item. */
  datatype PriceRow = PriceRow(run: nat, dataClass: DataClass, day: int, item: nat, price: Option<int>, flights: nat)

  datatype DayKey = DayKey(dataClass: DataClass, day: int)

  datatype PeriodKey = PeriodKey(dataClass: DataClass, period: PeriodType, start: int)

  /** A stored period with the days linked to it as inputs. */
  datatype PeriodIndex = PeriodIndex(end: int, metrics: PeriodMetrics, inputs: seq<int>)

  datatype Store = Store(
    activeRoutes: set<Route>,
    runs: map<nat, CollectionRun>,
    baskets: map<DataClass, Basket>,
    prices: seq<PriceRow>,
    daily: map<DayKey, DailyIndex>,
    periods: map<PeriodKey, PeriodIndex>)

  datatype Rejection =
    | NoSuchRun | RunNotFinished | MissingRoutes | EmptyBasket | IncompleteAggregation
    | DateTaken | MixedCanonicalVersions | BadWeights

  // ---------------------------------------------------------------------------------------------
  // Basket

  const DEL_BOM := Route("DEL", "BOM")
  const DEL_BLR := Route("DEL", "BLR")
  const BOM_BLR := Route("BOM", "BLR")

  const ROUTE_PAIRS := [DEL_BOM, DEL_BLR, BOM_BLR]
  const WINDOWS := [T1, T7, T15, T30, T45]

  /** 1/15 quantized to twelve decimals. */
  const EQUAL_WEIGHT := 66666666667.0 / 1000000000000.0

  function NewItem(k: nat): BasketItem
    requires k < 15
  {
    BasketItem(ROUTE_PAIRS[k / 5], WINDOWS[k % 5], EQUAL_WEIGHT, None, [])
  }

  function NewBasket(): Basket {
    Basket(FIRST_7_ELIGIBLE_DAILY_PRICES, None, None, seq(15, k requires 0 <= k < 15 => NewItem(k)))
  }

  predicate RoutesActive(db: Store) {
    DEL_BOM in db.activeRoutes && DEL_BLR in db.activeRoutes && BOM_BLR in db.activeRoutes
  }

  function WithBasket(db: Store, dc: DataClass): Store {
    if dc in db.baskets then db else db.(baskets := db.baskets[dc := NewBasket()])
  }

  // ---------------------------------------------------------------------------------------------
  // Daily route-window prices

  predicate Matches(f: CanonicalFare, item: BasketItem) {
    f.route == item.route && f.window == item.window && f.cabin == "ECONOMY" && f.currency == "INR"
  }

  function MatchingFares(fares: seq<CanonicalFare>, item: BasketItem): seq<real> {
    if fares == [] then []
    else
      var last := fares[|fares| - 1];
      MatchingFares(fares[..|fares| - 1], item) + (if Matches(last, item) then [last.fare as real] else [])
  }

  /** The exact median, as the session holds it. */
  function ExactPrice(run: CollectionRun, item: BasketItem): Option<real> {
    var fares := MatchingFares(run.fares, item);
    if fares == [] then None else Some(Medians.Median(fares))
  }

  /** The median as a `Numeric(12, 2)` column keeps it. */
  function Stored(price: Option<real>): Option<int> {
    if price.None? then None else Some(Rounding.HalfAway(price.value))
  }

  function NewPriceRow(id: nat, run: CollectionRun, items: seq<BasketItem>, k: nat): PriceRow
    requires k < |items|
  {
    PriceRow(id, run.dataClass, DayOf(run), k, Stored(ExactPrice(run, items[k])),
             |MatchingFares(run.fares, items[k])|)
  }

  function NewPriceRows(id: nat, run: CollectionRun, items: seq<BasketItem>): (rows: seq<PriceRow>)
    ensures |rows| == |items|
    ensures forall k :: 0 <= k < |items| ==> rows[k] == NewPriceRow(id, run, items, k)
  {
    seq(|items|, k requires 0 <= k < |items| => NewPriceRow(id, run, items, k))
  }

  function DayOf(run: CollectionRun): int {
    Ordinal(run.date)
  }

  function OnDay(prices: seq<PriceRow>, dc: DataClass, day: int): seq<PriceRow> {
    if prices == [] then []
    else
      var last := prices[|prices| - 1];
      OnDay(prices[..|prices| - 1], dc, day) + (if last.dataClass == dc && last.day == day then [last] else [])
  }

  /** Exact prices the session computed itself and still holds. */
  datatype Memory = Forgotten | Fresh(dataClass: DataClass, day: int, exact: seq<Option<real>>)

  function ReadPrice(row: PriceRow, memory: Memory): Option<real> {
    if memory.Fresh? && row.dataClass == memory.dataClass && row.day == memory.day && row.item < |memory.exact|
    then memory.exact[row.item]
    else if row.price.None? then None
    else Some(row.price.value as real)
  }

  function ExactPrices(run: CollectionRun, items: seq<BasketItem>): (r: seq<Option<real>>)
    ensures |r| == |items|
    ensures forall k :: 0 <= k < |items| ==> r[k] == ExactPrice(run, items[k])
  {
    seq(|items|, k requires 0 <= k < |items| => ExactPrice(run, items[k]))
  }

  datatype Priced = Priced(store: Store, memory: Memory)

  /** `aggregate_route_window_prices`; its one commit happens when rows are added. */
  function WithPrices(db: Store, id: nat): Result<Priced, Rejection>
    requires id in db.runs && db.runs[id].dataClass in db.baskets
  {
    var run := db.runs[id];
    var items := db.baskets[run.dataClass].items;
    var existing := OnDay(db.prices, run.dataClass, DayOf(run));
    if items == [] then Err(EmptyBasket)
    else if existing == [] then
      Ok(Priced(db.(prices := db.prices + NewPriceRows(id, run, items)),
                Fresh(run.dataClass, DayOf(run), ExactPrices(run, items))))
    else if |existing| != |items| then Err(IncompleteAggregation)
    else if exists i :: 0 <= i < |existing| && existing[i].run != id then Err(DateTaken)
    else Ok(Priced(db, Forgotten))
  }

  // ---------------------------------------------------------------------------------------------
  // Base period

  const BASE_REQUIRED_DATES := 7

  /** A daily price that may enter item `k`'s base: available, and scheduled when the class is LIVE. */
  predicate Eligible(row: PriceRow, dc: DataClass, k: nat, runs: map<nat, CollectionRun>) {
    && row.item == k && row.dataClass == dc && row.price.Some?
    && (dc == LIVE ==> row.run in runs && runs[row.run].trigger == SCHEDULED)
  }

  function Candidates(prices: seq<PriceRow>, dc: DataClass, k: nat, runs: map<nat, CollectionRun>): seq<PriceRow> {
    if prices == [] then []
    else
      var last := prices[|prices| - 1];
      Candidates(prices[..|prices| - 1], dc, k, runs) + (if Eligible(last, dc, k, runs) then [last] else [])
  }

  predicate ByDay(a: PriceRow, b: PriceRow) {
    a.day <= b.day
  }

  /** The first `required_dates` candidates by date. */
  function Earliest(prices: seq<PriceRow>, dc: DataClass, k: nat, runs: map<nat, CollectionRun>): seq<PriceRow> {
    var ordered := Sorting.Sort(Candidates(prices, dc, k, runs), ByDay);
    if |ordered| < BASE_REQUIRED_DATES then ordered else ordered[..BASE_REQUIRED_DATES]
  }

  function ReadPrices(rows: seq<PriceRow>, memory: Memory): seq<real> {
    if rows == [] then []
    else
      var price := ReadPrice(rows[|rows| - 1], memory);
      ReadPrices(rows[..|rows| - 1], memory) + (if price.Some? then [price.value] else [])
  }

  function Days(rows: seq<PriceRow>): (r: seq<int>)
    ensures |r| == |rows| && forall i :: 0 <= i < |rows| ==> r[i] == rows[i].day
  {
    seq(|rows|, i requires 0 <= i < |rows| => rows[i].day)
  }

  function FrozenItem(item: BasketItem, rows: seq<PriceRow>, memory: Memory): BasketItem {
    var prices := ReadPrices(rows, memory);
    if item.base.Some? || |rows| < BASE_REQUIRED_DATES || |prices| != BASE_REQUIRED_DATES then item
    else item.(base := Some(Rounding.HalfAway(Medians.Median(prices))), components := Days(rows))
  }

  function FrozenItems(db: Store, dc: DataClass, memory: Memory): (r: seq<BasketItem>)
    requires dc in db.baskets
    ensures |r| == |db.baskets[dc].items|
    ensures forall k :: 0 <= k < |r| ==>
              r[k] == FrozenItem(db.baskets[dc].items[k], Earliest(db.prices, dc, k, db.runs), memory)
  {
    var items := db.baskets[dc].items;
    seq(|items|, k requires 0 <= k < |items| => FrozenItem(items[k], Earliest(db.prices, dc, k, db.runs), memory))
  }

  predicate Complete(items: seq<BasketItem>) {
    items != [] && forall k :: 0 <= k < |items| ==> items[k].base.Some?
  }

  function AllComponents(items: seq<BasketItem>): seq<int> {
    if items == [] then [] else AllComponents(items[..|items| - 1]) + items[|items| - 1].components
  }

  function Settled(basket: Basket): Basket {
    if Complete(basket.items) && basket.baseEnd.None? then
      basket.(baseStart := Some(Least(AllComponents(basket.items))),
              baseEnd := Some(Greatest(AllComponents(basket.items))))
    else basket
  }

  /** `freeze_base_period_if_ready`, which always commits. */
  function Frozen(db: Store, dc: DataClass, memory: Memory): Store
    requires dc in db.baskets
  {
    db.(baskets := db.baskets[dc := Settled(db.baskets[dc].(items := FrozenItems(db, dc, memory)))])
  }

  // ---------------------------------------------------------------------------------------------
  // Daily index

  function FindPrice(rows: seq<PriceRow>, item: nat): Option<PriceRow> {
    if rows == [] then None
    else if rows[|rows| - 1].item == item then Some(rows[|rows| - 1])
    else FindPrice(rows[..|rows| - 1], item)
  }

  function InputFor(item: BasketItem, k: nat, rows: seq<PriceRow>, memory: Memory): Input {
    var row := FindPrice(rows, k);
    Input(k, if row.None? then None else ReadPrice(row.value, memory),
          if item.base.None? then None else Some(item.base.value as real), item.weight)
  }

  function InputsFor(items: seq<BasketItem>, rows: seq<PriceRow>, memory: Memory): (r: seq<Input>)
    ensures |r| == |items|
    ensures forall k :: 0 <= k < |items| ==> r[k] == InputFor(items[k], k, rows, memory)
  {
    seq(|items|, k requires 0 <= k < |items| => InputFor(items[k], k, rows, memory))
  }

  function Versions(fares: seq<CanonicalFare>): set<string> {
    if fares == [] then {} else Versions(fares[..|fares| - 1]) + {fares[|fares| - 1].version}
  }

  /** The one version in a set with at most one, or the source's placeholder. */
  function OnlyVersion(fares: seq<CanonicalFare>): string {
    if fares == [] then "no-canonical-fares" else fares[0].version
  }

  /** A component row keeps the current price as its own column rounds it. */
  function StoredComponent(c: Component): Component {
    if c.input.current.None? then c
    else c.(input := c.input.(current := Some(Rounding.HalfAway(c.input.current.value) as real)))
  }

  function StoredComponents(s: seq<Component>): (r: seq<Component>)
    ensures |r| == |s| && forall k :: 0 <= k < |s| ==> r[k] == StoredComponent(s[k])
  {
    seq(|s|, k requires 0 <= k < |s| => StoredComponent(s[k]))
  }

  function ToIndexUnits(value: real): int {
    Rounding.HalfAway(value * Rounding.INDEX_UNITS)
  }

  function ToCoverageUnits(percent: real): int {
    Rounding.HalfAway(percent * Rounding.PERCENT_UNITS)
  }

  function DailyRow(id: nat, run: CollectionRun, result: IndexResult): DailyIndex {
    DailyIndex(id, run.date,
               if result.value.None? then None else Some(ToIndexUnits(result.value.value)),
               ToCoverageUnits(result.coverage), result.status, OnlyVersion(run.fares),
               StoredComponents(result.components))
  }

  const MINIMUM_PERCENT := 80.0

  function DailyFor(db: Store, id: nat, memory: Memory): Result<DailyIndex, Rejection>
    requires id in db.runs && db.runs[id].dataClass in db.baskets
  {
    var run := db.runs[id];
    var items := db.baskets[run.dataClass].items;
    var inputs := InputsFor(items, OnDay(db.prices, run.dataClass, DayOf(run)), memory);
    if inputs == [] || !PositiveWeights(inputs) then Err(BadWeights)
    else if |Versions(run.fares)| > 1 then Err(MixedCanonicalVersions)
    else Ok(DailyRow(id, run, ResultOf(inputs, Complete(items), MINIMUM_PERCENT)))
  }

  // ---------------------------------------------------------------------------------------------
  // Period view

  function RowsBetween(daily: map<DayKey, DailyIndex>, dc: DataClass, lo: int, hi: int): seq<DailyIndex>
    decreases hi - lo
  {
    if hi < lo then []
    else
      RowsBetween(daily, dc, lo, hi - 1)
      + (if DayKey(dc, hi) in daily then [daily[DayKey(dc, hi)]] else [])
  }

  function DaysBetween(daily: map<DayKey, DailyIndex>, dc: DataClass, lo: int, hi: int): seq<int>
    decreases hi - lo
  {
    if hi < lo then []
    else DaysBetween(daily, dc, lo, hi - 1) + (if DayKey(dc, hi) in daily then [hi] else [])
  }

  function FareSources(fares: seq<CanonicalFare>): set<int> {
    if fares == [] then {} else FareSources(fares[..|fares| - 1]) + fares[|fares| - 1].usedSources
  }

  /** The distinct sources used by the canonical fares of the rows' runs. */
  function SourcesOf(rows: seq<DailyIndex>, runs: map<nat, CollectionRun>): set<int> {
    if rows == [] then {}
    else
      var last := rows[|rows| - 1];
      SourcesOf(rows[..|rows| - 1], runs) + (if last.run in runs then FareSources(runs[last.run].fares) else {})
  }

  function KeyFor(dc: DataClass, date: CalendarDate, period: PeriodType): PeriodKey {
    PeriodKey(dc, period, PeriodStart(date, period))
  }

  /** The period row recomputed from scratch from the daily indices within its bounds. */
  function Recomputed(db: Store, dc: DataClass, date: CalendarDate, period: PeriodType): PeriodIndex {
    var lo, hi := PeriodStart(date, period), PeriodEnd(date, period);
    var rows := RowsBetween(db.daily, dc, lo, hi);
    PeriodIndex(hi, Metrics(rows, hi - lo + 1, |SourcesOf(rows, db.runs)|, MINIMUM_COVERAGE),
                DaysBetween(db.daily, dc, lo, hi))
  }

  /** `refresh_period`, which always commits. */
  function Refreshed(db: Store, dc: DataClass, date: CalendarDate, period: PeriodType): Store {
    db.(periods := db.periods[KeyFor(dc, date, period) := Recomputed(db, dc, date, period)])
  }

  /** The two commits of `refresh_periods_for_index`. */
  function Refreshes(db: Store, dc: DataClass, date: CalendarDate): seq<Store> {
    var weekly := Refreshed(db, dc, date, WEEKLY);
    [weekly, Refreshed(weekly, dc, date, MONTHLY)]
  }

  // ---------------------------------------------------------------------------------------------
  // The whole call

  datatype Outcome = Indexed(row: DailyIndex, created: bool) | Rejected(reason: Rejection)

  /** The states a call commits, in order, and what it returns or raises. */
  datatype Call = Call(commits: seq<Store>, outcome: Outcome)

  function End(db: Store, call: Call): Store {
    if call.commits == [] then db else call.commits[|call.commits| - 1]
  }

  function After(first: seq<Store>, call: Call): Call {
    call.(commits := first + call.commits)
  }

  function FromDaily(db: Store, id: nat, row: DailyIndex): Call
    requires id in db.runs
  {
    var run := db.runs[id];
    var next := db.(daily := db.daily[DayKey(run.dataClass, DayOf(run)) := row]);
    Call([next] + Refreshes(next, run.dataClass, run.date), Indexed(row, true))
  }

  /** What a call does once the base has been frozen. */
  function AfterFreeze(frozen: Store, id: nat, memory: Memory): Call
    requires id in frozen.runs && frozen.runs[id].dataClass in frozen.baskets
  {
    var run := frozen.runs[id];
    var key := DayKey(run.dataClass, DayOf(run));
    if key in frozen.daily then
      if frozen.daily[key].run != id then Call([], Rejected(DateTaken))
      else Call(Refreshes(frozen, run.dataClass, run.date), Indexed(frozen.daily[key], false))
    else
      match DailyFor(frozen, id, memory)
      case Err(reason) => Call([], Rejected(reason))
      case Ok(row) => FromDaily(frozen, id, row)
  }

  /** From the base freeze onwards. */
  function FromFreeze(db: Store, id: nat, memory: Memory): Call
    requires id in db.runs && db.runs[id].dataClass in db.baskets
  {
    var frozen := Frozen(db, db.runs[id].dataClass, memory);
    After([frozen], AfterFreeze(frozen, id, memory))
  }

  /** From price aggregation onwards. */
  function FromPrices(db: Store, id: nat): Call
    requires id in db.runs && db.runs[id].dataClass in db.baskets
  {
    match WithPrices(db, id)
    case Err(reason) => Call([], Rejected(reason))
    case Ok(priced) =>
      After(if priced.memory.Fresh? then [priced.store] else [], FromFreeze(priced.store, id, priced.memory))
  }

  predicate Finished(run: CollectionRun) {
    run.status == RunStatus.COMPLETED || run.status == RunStatus.PARTIAL
  }

  /** `calculate_index_for_run` in a new session. */
  function CallFor(db: Store, id: nat): Call {
    if id !in db.runs then Call([], Rejected(NoSuchRun))
    else if !Finished(db.runs[id]) then Call([], Rejected(RunNotFinished))
    else
      var dc := db.runs[id].dataClass;
      if dc in db.baskets then FromPrices(db, id)
      else if !RoutesActive(db) then Call([], Rejected(MissingRoutes))
      else After([WithBasket(db, dc)], FromPrices(WithBasket(db, dc), id))
  }

  // ---------------------------------------------------------------------------------------------
  // Seeding

  datatype SeedError = NotCovered | NotPositive | NaturallyFrozen | WouldChange

  function SeededItem(item: BasketItem, price: real): BasketItem {
    item.(base := Some(Rounding.HalfAway(price)), components := [])
  }

  /** `set_seeded_base_prices` with one price per item; a stored base must be positive, so a price
      that rounds to zero is refused by the table's check constraint. */
  function Seeded(basket: Basket, prices: seq<real>, day: int): Result<Basket, SeedError> {
    if |prices| != |basket.items| then Err(NotCovered)
    else if exists k :: 0 <= k < |prices| && prices[k] <= 0.0 then Err(NotPositive)
    else if basket.policy != SEEDED_FIXED && exists k :: 0 <= k < |basket.items| && basket.items[k].base.Some?
    then Err(NaturallyFrozen)
    else if exists k :: 0 <= k < |basket.items| && basket.items[k].base.Some?
                        && basket.items[k].base.value as real != prices[k]
    then Err(WouldChange)
    else if exists k :: 0 <= k < |prices| && Rounding.HalfAway(prices[k]) <= 0 then Err(NotPositive)
    else Ok(Basket(SEEDED_FIXED, Some(day), Some(day),
                   seq(|basket.items|, k requires 0 <= k < |basket.items| && |prices| == |basket.items| =>
                     SeededItem(basket.items[k], prices[k]))))
  }
}
