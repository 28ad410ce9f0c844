/** The eligibility gate of `normalize_raw_quote` (`pipeline/normalize.py`). */
module Normalize {
  import opened Aggregates
  import opened Options
  import opened Domain
  import opened Observations
  import Rounding

  datatype Availability = AVAILABLE | SOLD_OUT | CANCELLED | NO_RESULT | SOURCE_FAILURE | UNKNOWN

  /** A raw quote with its job, run, route and source, as far as the gate reads them.  Days are ordinals
      and amounts are in paise, exact as the adapter sent them; `identity` is present when carrier,
      flight number and departure time are; `availability` is absent when its text is not a known one. */
  datatype Quote = Quote(
    sameSource: bool,
    sameDataClass: bool,
    runDay: int,
    advanceDays: int,
    window: AdvanceWindow,
    travelDay: int,
    queryDay: int,
    departureDay: Option<int>,
    route: Route,
    origin: Option<string>,
    destination: Option<string>,
    total: Option<real>,
    taxes: Option<real>,
    others: seq<Option<real>>,     // base fare, UDF, convenience fee and other fees
    currency: Option<string>,
    cabin: Option<string>,
    nonstop: Option<bool>,
    availability: Option<Availability>,
    approved: bool,
    identity: Option<int>)

  datatype Normalized = Normalized(
    flags: seq<QualityFlag>, included: bool, status: QualityStatus, score: int, total: Option<real>)

  function Components(q: Quote): seq<Option<real>> {
    [q.taxes] + q.others
  }

  predicate AllKnown(components: seq<Option<real>>) {
    forall i :: 0 <= i < |components| ==> components[i].Some?
  }

  function Total(components: seq<Option<real>>): real {
    if components == [] then 0.0
    else
      Total(components[..|components| - 1])
      + (if components[|components| - 1].Some? then components[|components| - 1].value else 0.0)
  }

  predicate AnyNegative(amounts: seq<Option<real>>) {
    exists i :: 0 <= i < |amounts| && amounts[i].Some? && amounts[i].value < 0.0
  }

  predicate Apart(x: real, y: real) {
    x - y > 1.0 || y - x > 1.0
  }

  /** The stated parts do not add up to the stated total. */
  predicate Mismatched(q: Quote) {
    if q.total.None? then false
    else if AllKnown(Components(q)) then Apart(Total(Components(q)), q.total.value)
    else q.taxes.Some? && q.total.value < q.taxes.value
  }

  predicate WrongDate(q: Quote) {
    q.travelDay != q.runDay + q.advanceDays || q.queryDay != q.travelDay
    || (q.departureDay.Some? && q.departureDay.value != q.travelDay)
  }

  predicate WrongWindow(q: Quote) {
    q.window == OTHER || ClassifyWindow(q.advanceDays) != q.window
  }

  predicate KnownAirports(q: Quote) {
    q.origin.Some? && q.destination.Some?
  }

  function When(flags: seq<QualityFlag>, condition: bool, flag: QualityFlag): (r: seq<QualityFlag>)
    ensures r == [] <==> flags == [] && !condition
  {
    if condition then flags + [flag] else flags
  }

  function DateFlags(q: Quote): seq<QualityFlag> {
    var source := When([], !q.sameSource, SOURCE_MISMATCH);
    var dataClass := When(source, !q.sameDataClass, DATA_CLASS_MISMATCH);
    var date := When(dataClass, WrongDate(q), INVALID_TRAVEL_DATE);
    var window := When(date, WrongWindow(q), INVALID_BOOKING_WINDOW);
    if !KnownAirports(q) then window + [UNKNOWN_AIRPORT]
    else When(window, q.origin.value != q.route.origin || q.destination.value != q.route.destination, ROUTE_MISMATCH)
  }

  function FareFlags(q: Quote, earlier: seq<QualityFlag>): seq<QualityFlag> {
    var fare := When(earlier, q.total.None? || q.total.value <= 0.0, MISSING_FARE);
    var currency := When(fare, q.currency != Some("INR"), UNSUPPORTED_CURRENCY);
    var cabin := When(currency, q.cabin != Some("ECONOMY"), UNSUPPORTED_CABIN);
    var nonstop := When(cabin, q.nonstop != Some(true), CONNECTING_FLIGHT);
    var parsed := When(nonstop, q.availability.None?, PARSER_ERROR);
    var available := When(parsed, q.availability != Some(AVAILABLE), UNAVAILABLE_FARE);
    When(available, !q.approved, UNAPPROVED_SOURCE)
  }

  function AmountFlags(q: Quote, earlier: seq<QualityFlag>): seq<QualityFlag> {
    var negative := When(earlier, AnyNegative(Components(q) + [q.total]), NEGATIVE_FARE);
    var mismatch := When(negative, Mismatched(q), FARE_COMPONENT_MISMATCH);
    When(mismatch, q.identity.None?, INCOMPLETE_FLIGHT_IDENTITY)
  }

  /** The flags, in the order the checks append them. */
  function Flags(q: Quote): seq<QualityFlag> {
    AmountFlags(q, FareFlags(q, DateFlags(q)))
  }

  function Score(flags: nat): int {
    if 100 - 20 * flags < 0 then 0 else 100 - 20 * flags
  }

  /** The amounts of a quote: its parts and its total. */
  ghost predicate HasNegative(q: Quote) {
    || (q.total.Some? && q.total.value < 0.0)
    || exists i :: 0 <= i < |Components(q)| && Components(q)[i].Some? && Components(q)[i].value < 0.0
  }

  /** What each flag is given for. */
  ghost predicate GivenFor(q: Quote, flag: QualityFlag) {
    match flag
    case SOURCE_MISMATCH => !q.sameSource
    case DATA_CLASS_MISMATCH => !q.sameDataClass
    case INVALID_TRAVEL_DATE =>
      !(q.travelDay == q.queryDay == q.runDay + q.advanceDays)
      || (q.departureDay.Some? && q.departureDay.value != q.travelDay)
    case INVALID_BOOKING_WINDOW => q.window == OTHER || q.window != ClassifyWindow(q.advanceDays)
    case UNKNOWN_AIRPORT => q.origin.None? || q.destination.None?
    case ROUTE_MISMATCH =>
      && q.origin.Some? && q.destination.Some?
      && !(q.origin == Some(q.route.origin) && q.destination == Some(q.route.destination))
    case MISSING_FARE => q.total.None? || q.total.value <= 0.0
    case UNSUPPORTED_CURRENCY => q.currency != Some("INR")
    case UNSUPPORTED_CABIN => q.cabin != Some("ECONOMY")
    case CONNECTING_FLIGHT => q.nonstop != Some(true)
    case PARSER_ERROR => q.availability.None?
    case UNAVAILABLE_FARE => q.availability != Some(AVAILABLE)
    case UNAPPROVED_SOURCE => !q.approved
    case NEGATIVE_FARE => HasNegative(q)
    case FARE_COMPONENT_MISMATCH => q.total.Some? && Mismatches(q, q.total.value)
    case INCOMPLETE_FLIGHT_IDENTITY => q.identity.None?
    case _ => false
  }

  /** A quote carries exactly the flags it is given. */
  ghost predicate FlaggedFor(q: Quote, flags: seq<QualityFlag>) {
    forall flag :: flag in flags <==> GivenFor(q, flag)
  }

  ghost function Amounts(components: seq<Option<real>>): (r: seq<real>)
    ensures |r| == |components|
  {
    seq(|components|, i requires 0 <= i < |components| =>
      if components[i].Some? then components[i].value else 0.0)
  }

  lemma {:induction false} TotalIsSum(components: seq<Option<real>>)
    ensures Total(components) == SumReals(Amounts(components))
  {
    if components != [] {
      var n := |components| - 1;
      var last := if components[n].Some? then components[n].value else 0.0;
      TotalIsSum(components[..n]);
      SumAppend(Amounts(components[..n]), last);
      assert Amounts(components) == Amounts(components[..n]) + [last];
    }
  }

  /** All parts known and more than one paisa away from the total, or the taxes alone above it. */
  ghost predicate Mismatches(q: Quote, total: real) {
    if AllKnown(Components(q)) then !(-1.0 <= SumReals(Amounts(Components(q))) - total <= 1.0)
    else q.taxes.Some? && total < q.taxes.value
  }

  lemma WhenIn(flags: seq<QualityFlag>, condition: bool, flag: QualityFlag, f: QualityFlag)
    ensures f in When(flags, condition, flag) <==> f in flags || (condition && f == flag)
  {
  }

  lemma DateFlagsIn(q: Quote, f: QualityFlag)
    ensures f in DateFlags(q) <==>
            || (f == SOURCE_MISMATCH && !q.sameSource) || (f == DATA_CLASS_MISMATCH && !q.sameDataClass)
            || (f == INVALID_TRAVEL_DATE && WrongDate(q)) || (f == INVALID_BOOKING_WINDOW && WrongWindow(q))
            || (f == UNKNOWN_AIRPORT && !KnownAirports(q))
            || (f == ROUTE_MISMATCH && KnownAirports(q)
                && (q.origin.value != q.route.origin || q.destination.value != q.route.destination))
  {
    var source := When([], !q.sameSource, SOURCE_MISMATCH);
    var dataClass := When(source, !q.sameDataClass, DATA_CLASS_MISMATCH);
    var date := When(dataClass, WrongDate(q), INVALID_TRAVEL_DATE);
    var window := When(date, WrongWindow(q), INVALID_BOOKING_WINDOW);
    WhenIn([], !q.sameSource, SOURCE_MISMATCH, f);
    WhenIn(source, !q.sameDataClass, DATA_CLASS_MISMATCH, f);
    WhenIn(dataClass, WrongDate(q), INVALID_TRAVEL_DATE, f);
    WhenIn(date, WrongWindow(q), INVALID_BOOKING_WINDOW, f);
    if KnownAirports(q) {
      WhenIn(window, q.origin.value != q.route.origin || q.destination.value != q.route.destination, ROUTE_MISMATCH, f);
    }
    hide When, WrongDate, WrongWindow;
  }

  lemma FareFlagsIn(q: Quote, earlier: seq<QualityFlag>, f: QualityFlag)
    ensures f in FareFlags(q, earlier) <==>
            || f in earlier || (f == MISSING_FARE && (q.total.None? || q.total.value <= 0.0))
            || (f == UNSUPPORTED_CURRENCY && q.currency != Some("INR"))
            || (f == UNSUPPORTED_CABIN && q.cabin != Some("ECONOMY"))
            || (f == CONNECTING_FLIGHT && q.nonstop != Some(true)) || (f == PARSER_ERROR && q.availability.None?)
            || (f == UNAVAILABLE_FARE && q.availability != Some(AVAILABLE)) || (f == UNAPPROVED_SOURCE && !q.approved)
  {
    var fare := When(earlier, q.total.None? || q.total.value <= 0.0, MISSING_FARE);
    var currency := When(fare, q.currency != Some("INR"), UNSUPPORTED_CURRENCY);
    var cabin := When(currency, q.cabin != Some("ECONOMY"), UNSUPPORTED_CABIN);
    var nonstop := When(cabin, q.nonstop != Some(true), CONNECTING_FLIGHT);
    var parsed := When(nonstop, q.availability.None?, PARSER_ERROR);
    var available := When(parsed, q.availability != Some(AVAILABLE), UNAVAILABLE_FARE);
    WhenIn(earlier, q.total.None? || q.total.value <= 0.0, MISSING_FARE, f);
    WhenIn(fare, q.currency != Some("INR"), UNSUPPORTED_CURRENCY, f);
    WhenIn(currency, q.cabin != Some("ECONOMY"), UNSUPPORTED_CABIN, f);
    WhenIn(cabin, q.nonstop != Some(true), CONNECTING_FLIGHT, f);
    WhenIn(nonstop, q.availability.None?, PARSER_ERROR, f);
    WhenIn(parsed, q.availability != Some(AVAILABLE), UNAVAILABLE_FARE, f);
    WhenIn(available, !q.approved, UNAPPROVED_SOURCE, f);
    hide When;
  }

  lemma AmountFlagsIn(q: Quote, earlier: seq<QualityFlag>, f: QualityFlag)
    ensures f in AmountFlags(q, earlier) <==>
            || f in earlier || (f == NEGATIVE_FARE && AnyNegative(Components(q) + [q.total]))
            || (f == FARE_COMPONENT_MISMATCH && Mismatched(q)) || (f == INCOMPLETE_FLIGHT_IDENTITY && q.identity.None?)
  {
    var negative := When(earlier, AnyNegative(Components(q) + [q.total]), NEGATIVE_FARE);
    var mismatch := When(negative, Mismatched(q), FARE_COMPONENT_MISMATCH);
    WhenIn(earlier, AnyNegative(Components(q) + [q.total]), NEGATIVE_FARE, f);
    WhenIn(negative, Mismatched(q), FARE_COMPONENT_MISMATCH, f);
    WhenIn(mismatch, q.identity.None?, INCOMPLETE_FLIGHT_IDENTITY, f);
    hide When, AnyNegative, Mismatched, Components;
  }

  lemma NegativeIs(q: Quote)
    ensures AnyNegative(Components(q) + [q.total]) <==> HasNegative(q)
  {
    var parts := Components(q);
    var all := parts + [q.total];
    hide Components;
    assert all[|parts|] == q.total && forall i :: 0 <= i < |parts| ==> all[i] == parts[i];
    if AnyNegative(all) {
      var i :| 0 <= i < |all| && all[i].Some? && all[i].value < 0.0;
      assert i < |parts| ==> parts[i].Some? && parts[i].value < 0.0;
    }
    if i :| 0 <= i < |parts| && parts[i].Some? && parts[i].value < 0.0 {
      assert all[i].value < 0.0;
    }
  }

  /** All flags of a quote, from the three groups of checks. */
  lemma FlagIn(q: Quote, f: QualityFlag)
    ensures f in Flags(q) <==>
            || (f == SOURCE_MISMATCH && !q.sameSource) || (f == DATA_CLASS_MISMATCH && !q.sameDataClass)
            || (f == INVALID_TRAVEL_DATE && WrongDate(q)) || (f == INVALID_BOOKING_WINDOW && WrongWindow(q))
            || (f == UNKNOWN_AIRPORT && !KnownAirports(q))
            || (f == ROUTE_MISMATCH && KnownAirports(q)
                && (q.origin.value != q.route.origin || q.destination.value != q.route.destination))
            || (f == MISSING_FARE && (q.total.None? || q.total.value <= 0.0))
            || (f == UNSUPPORTED_CURRENCY && q.currency != Some("INR"))
            || (f == UNSUPPORTED_CABIN && q.cabin != Some("ECONOMY"))
            || (f == CONNECTING_FLIGHT && q.nonstop != Some(true)) || (f == PARSER_ERROR && q.availability.None?)
            || (f == UNAVAILABLE_FARE && q.availability != Some(AVAILABLE)) || (f == UNAPPROVED_SOURCE && !q.approved)
            || (f == NEGATIVE_FARE && HasNegative(q))
            || (f == FARE_COMPONENT_MISMATCH && Mismatched(q)) || (f == INCOMPLETE_FLIGHT_IDENTITY && q.identity.None?)
  {
    hide DateFlags, FareFlags, AmountFlags, WrongDate, WrongWindow, HasNegative, Mismatched, AnyNegative, Components;
    DateFlagsIn(q, f);
    FareFlagsIn(q, DateFlags(q), f);
    AmountFlagsIn(q, FareFlags(q, DateFlags(q)), f);
    NegativeIs(q);
  }

  lemma GivenMeans(q: Quote, f: QualityFlag)
    ensures GivenFor(q, f) <==>
            || (f == SOURCE_MISMATCH && !q.sameSource) || (f == DATA_CLASS_MISMATCH && !q.sameDataClass)
            || (f == INVALID_TRAVEL_DATE && WrongDate(q)) || (f == INVALID_BOOKING_WINDOW && WrongWindow(q))
            || (f == UNKNOWN_AIRPORT && !KnownAirports(q))
            || (f == ROUTE_MISMATCH && KnownAirports(q)
                && (q.origin.value != q.route.origin || q.destination.value != q.route.destination))
            || (f == MISSING_FARE && (q.total.None? || q.total.value <= 0.0))
            || (f == UNSUPPORTED_CURRENCY && q.currency != Some("INR"))
            || (f == UNSUPPORTED_CABIN && q.cabin != Some("ECONOMY"))
            || (f == CONNECTING_FLIGHT && q.nonstop != Some(true)) || (f == PARSER_ERROR && q.availability.None?)
            || (f == UNAVAILABLE_FARE && q.availability != Some(AVAILABLE)) || (f == UNAPPROVED_SOURCE && !q.approved)
            || (f == NEGATIVE_FARE && HasNegative(q))
            || (f == FARE_COMPONENT_MISMATCH && Mismatched(q)) || (f == INCOMPLETE_FLIGHT_IDENTITY && q.identity.None?)
  {
    TotalIsSum(Components(q));
    hide HasNegative, Components, Total, AllKnown, ClassifyWindow, Amounts, SumReals;
  }

  /** The checks give every flag for its own reason, and no other. */
  lemma FlagsAreFor(q: Quote)
    ensures FlaggedFor(q, Flags(q))
  {
    hide Flags, GivenFor, WrongDate, WrongWindow, HasNegative, Mismatched, KnownAirports;
    forall flag: QualityFlag
      ensures flag in Flags(q) <==> GivenFor(q, flag)
    {
      FlagIn(q, flag);
      GivenMeans(q, flag);
    }
  }

  /** `normalize_raw_quote`, as far as the gate decides it. */
  method NormalizeRawQuote(q: Quote) returns (r: Normalized)
    ensures r.flags == Flags(q)
    ensures r.included <==> Flags(q) == []
    ensures r.status == if r.included then ELIGIBLE else EXCLUDED
    ensures r.score == (if |r.flags| >= 5 then 0 else 100 - 20 * |r.flags|)
    ensures FlaggedFor(q, r.flags)
    ensures r.total == if q.total.Some? && q.total.value < 0.0 then None else q.total
  {
    hide WrongDate, Mismatched, AnyNegative, ClassifyWindow, DateFlags, FareFlags;
    MismatchCases(q);
    FlagsAreFor(q);
    hide FlaggedFor;
    var flags := CheckDates(q);
    flags := CheckFare(q, flags);
    if AnyNegative(Components(q) + [q.total]) {
      flags := flags + [NEGATIVE_FARE];
    }
    if q.total.Some? && AllKnown(Components(q)) {
      if Apart(Total(Components(q)), q.total.value) {
        flags := flags + [FARE_COMPONENT_MISMATCH];
      }
    } else if q.total.Some? && q.taxes.Some? && q.total.value < q.taxes.value {
      flags := flags + [FARE_COMPONENT_MISMATCH];
    }
    if q.identity.None? {
      flags := flags + [INCOMPLETE_FLIGHT_IDENTITY];
    }
    assert flags == Flags(q);
    var included := flags == [];
    var total := if q.total.Some? && q.total.value < 0.0 then None else q.total;
    r := Normalized(flags, included, if included then ELIGIBLE else EXCLUDED, Score(|flags|), total);
  }

  lemma MismatchCases(q: Quote)
    ensures q.total.Some? && AllKnown(Components(q)) ==>
              (Mismatched(q) <==> Apart(Total(Components(q)), q.total.value))
    ensures !(q.total.Some? && AllKnown(Components(q))) ==>
              (Mismatched(q) <==> q.total.Some? && q.taxes.Some? && q.total.value < q.taxes.value)
  {
  }

  method CheckDates(q: Quote) returns (flags: seq<QualityFlag>)
    ensures flags == DateFlags(q)
  {
    flags := [];
    if !q.sameSource {
      flags := flags + [SOURCE_MISMATCH];
    }
    if !q.sameDataClass {
      flags := flags + [DATA_CLASS_MISMATCH];
    }
    var expected := q.runDay + q.advanceDays;
    if q.travelDay != expected || q.queryDay != q.travelDay
       || (q.departureDay.Some? && q.departureDay.value != q.travelDay) {
      flags := flags + [INVALID_TRAVEL_DATE];
    }
    if WrongWindow(q) {
      flags := flags + [INVALID_BOOKING_WINDOW];
    }
    if q.origin.None? || q.destination.None? {
      flags := flags + [UNKNOWN_AIRPORT];
    } else if q.origin.value != q.route.origin || q.destination.value != q.route.destination {
      flags := flags + [ROUTE_MISMATCH];
    }
  }

  method CheckFare(q: Quote, earlier: seq<QualityFlag>) returns (flags: seq<QualityFlag>)
    ensures flags == FareFlags(q, earlier)
  {
    flags := earlier;
    if q.total.None? || q.total.value <= 0.0 {
      flags := flags + [MISSING_FARE];
    }
    if q.currency != Some("INR") {
      flags := flags + [UNSUPPORTED_CURRENCY];
    }
    if q.cabin != Some("ECONOMY") {
      flags := flags + [UNSUPPORTED_CABIN];
    }
    if q.nonstop != Some(true) {
      flags := flags + [CONNECTING_FLIGHT];
    }
    var availability := UNKNOWN;
    if q.availability.Some? {
      availability := q.availability.value;
    } else {
      flags := flags + [PARSER_ERROR];
    }
    if availability != AVAILABLE {
      flags := flags + [UNAVAILABLE_FARE];
    }
    if !q.approved {
      flags := flags + [UNAPPROVED_SOURCE];
    }
  }

  // ---------------------------------------------------------------------------------------------
  // What passing the gate means

  /** A quote for the collected itinerary. */
  predicate OnItinerary(q: Quote) {
    && q.sameSource && q.sameDataClass
    && q.travelDay == q.queryDay == q.runDay + q.advanceDays
    && (q.departureDay.None? || q.departureDay.value == q.travelDay)
    && q.advanceDays in WINDOW_DAYS && q.window == ClassifyWindow(q.advanceDays)
    && q.origin == Some(q.route.origin) && q.destination == Some(q.route.destination)
    && q.identity.Some?
  }

  /** An available, approved, non-stop economy fare in rupees. */
  predicate OnOffer(q: Quote) {
    && q.currency == Some("INR") && q.cabin == Some("ECONOMY") && q.nonstop == Some(true)
    && q.availability == Some(AVAILABLE) && q.approved
  }

  /** A positive total with no negative part, its parts within one paisa of it when all are known. */
  predicate SoundAmounts(q: Quote) {
    && q.total.Some? && q.total.value > 0.0
    && (forall i :: 0 <= i < |Components(q)| && Components(q)[i].Some? ==> Components(q)[i].value >= 0.0)
    && (AllKnown(Components(q)) ==> -1.0 <= Total(Components(q)) - q.total.value <= 1.0)
    && (!AllKnown(Components(q)) && q.taxes.Some? ==> q.taxes.value <= q.total.value)
  }

  /** A quote is included exactly when it is on the itinerary, on offer and its amounts are sound. */
  lemma GateIsExact(q: Quote)
    ensures Flags(q) == [] <==> OnItinerary(q) && OnOffer(q) && SoundAmounts(q)
  {
    DateGate(q);
    FareGate(q, DateFlags(q));
    AmountGate(q);
    hide DateFlags, FareFlags, ClassifyWindow, WrongDate, Components, AllKnown, Total, AnyNegative, Mismatched;
  }

  lemma DateGate(q: Quote)
    ensures DateFlags(q) == [] && q.identity.Some? <==> OnItinerary(q)
  {
    assert q.advanceDays in WINDOW_DAYS <==> ClassifyWindow(q.advanceDays) != OTHER by {
      assert WINDOW_DAYS[0] == 1 && WINDOW_DAYS[1] == 7 && WINDOW_DAYS[2] == 15 && WINDOW_DAYS[3] == 30
             && WINDOW_DAYS[4] == 45;
    }
    hide When;
  }

  lemma FareGate(q: Quote, earlier: seq<QualityFlag>)
    ensures FareFlags(q, earlier) == [] <==> earlier == [] && OnOffer(q) && q.total.Some? && q.total.value > 0.0
  {
    hide When;
  }

  lemma AmountGate(q: Quote)
    ensures q.total.Some? && q.total.value > 0.0 ==>
              (!AnyNegative(Components(q) + [q.total]) && !Mismatched(q) <==> SoundAmounts(q))
  {
    if q.total.Some? && q.total.value > 0.0 {
      NoNegative(Components(q), q.total);
    }
    hide Components, Total, AllKnown, AnyNegative;
  }

  lemma NoNegative(components: seq<Option<real>>, total: Option<real>)
    requires total.Some? && total.value > 0.0
    ensures !AnyNegative(components + [total]) <==>
            forall i :: 0 <= i < |components| && components[i].Some? ==> components[i].value >= 0.0
  {
    var all := components + [total];
    if !AnyNegative(all) {
      forall i | 0 <= i < |components| && components[i].Some?
        ensures components[i].value >= 0.0
      {
        assert all[i] == components[i];
      }
    }
  }

  /** The fare a table keeps of an included quote is at least one paisa exactly when the total was at
      least half a paisa; a total of whole paise always is. */
  lemma IncludedFarePositive(q: Quote)
    requires Flags(q) == []
    ensures q.total.Some? && q.total.value > 0.0
    ensures Rounding.HalfAway(q.total.value) >= 1 <==> q.total.value >= 0.5
    ensures q.total.value == q.total.value.Floor as real ==> Rounding.HalfAway(q.total.value) >= 1
  {
    GateIsExact(q);
    hide Flags;
  }

  // ---------------------------------------------------------------------------------------------
  // No flag twice

  /** The order in which the checks come. */
  function Rank(flag: QualityFlag): int {
    match flag
    case SOURCE_MISMATCH => 0
    case DATA_CLASS_MISMATCH => 1
    case INVALID_TRAVEL_DATE => 2
    case INVALID_BOOKING_WINDOW => 3
    case UNKNOWN_AIRPORT => 4
    case ROUTE_MISMATCH => 4
    case MISSING_FARE => 5
    case UNSUPPORTED_CURRENCY => 6
    case UNSUPPORTED_CABIN => 7
    case CONNECTING_FLIGHT => 8
    case PARSER_ERROR => 9
    case UNAVAILABLE_FARE => 10
    case UNAPPROVED_SOURCE => 11
    case NEGATIVE_FARE => 12
    case FARE_COMPONENT_MISMATCH => 13
    case INCOMPLETE_FLIGHT_IDENTITY => 14
    case _ => 15
  }

  ghost predicate RankedBelow(flags: seq<QualityFlag>, n: int) {
    && (forall i :: 0 <= i < |flags| ==> Rank(flags[i]) < n)
    && forall i, j :: 0 <= i < j < |flags| ==> flags[i] != flags[j]
  }

  lemma WhenRanked(flags: seq<QualityFlag>, condition: bool, flag: QualityFlag)
    requires RankedBelow(flags, Rank(flag))
    ensures RankedBelow(When(flags, condition, flag), Rank(flag) + 1)
  {
    hide Rank;
  }

  lemma DateFlagsRanked(q: Quote)
    ensures RankedBelow(DateFlags(q), 5)
  {
    hide RankedBelow, When, WrongDate, WrongWindow;
    EmptyRanked();
    var source := When([], !q.sameSource, SOURCE_MISMATCH);
    WhenRanked([], !q.sameSource, SOURCE_MISMATCH);
    var dataClass := When(source, !q.sameDataClass, DATA_CLASS_MISMATCH);
    WhenRanked(source, !q.sameDataClass, DATA_CLASS_MISMATCH);
    var date := When(dataClass, WrongDate(q), INVALID_TRAVEL_DATE);
    WhenRanked(dataClass, WrongDate(q), INVALID_TRAVEL_DATE);
    var window := When(date, WrongWindow(q), INVALID_BOOKING_WINDOW);
    WhenRanked(date, WrongWindow(q), INVALID_BOOKING_WINDOW);
    if KnownAirports(q) {
      WhenRanked(window, q.origin.value != q.route.origin || q.destination.value != q.route.destination,
                 ROUTE_MISMATCH);
    } else {
      WhenRanked(window, true, UNKNOWN_AIRPORT);
      WhenTrue(window, UNKNOWN_AIRPORT);
    }
  }

  lemma EmptyRanked()
    ensures RankedBelow([], 0)
  {
  }

  lemma WhenTrue(flags: seq<QualityFlag>, flag: QualityFlag)
    ensures When(flags, true, flag) == flags + [flag]
  {
  }

  lemma FareFlagsRanked(q: Quote, earlier: seq<QualityFlag>)
    requires RankedBelow(earlier, 5)
    ensures RankedBelow(FareFlags(q, earlier), 12)
  {
    hide RankedBelow, When;
    var fare := When(earlier, q.total.None? || q.total.value <= 0.0, MISSING_FARE);
    WhenRanked(earlier, q.total.None? || q.total.value <= 0.0, MISSING_FARE);
    var currency := When(fare, q.currency != Some("INR"), UNSUPPORTED_CURRENCY);
    WhenRanked(fare, q.currency != Some("INR"), UNSUPPORTED_CURRENCY);
    var cabin := When(currency, q.cabin != Some("ECONOMY"), UNSUPPORTED_CABIN);
    WhenRanked(currency, q.cabin != Some("ECONOMY"), UNSUPPORTED_CABIN);
    var nonstop := When(cabin, q.nonstop != Some(true), CONNECTING_FLIGHT);
    WhenRanked(cabin, q.nonstop != Some(true), CONNECTING_FLIGHT);
    var parsed := When(nonstop, q.availability.None?, PARSER_ERROR);
    WhenRanked(nonstop, q.availability.None?, PARSER_ERROR);
    var available := When(parsed, q.availability != Some(AVAILABLE), UNAVAILABLE_FARE);
    WhenRanked(parsed, q.availability != Some(AVAILABLE), UNAVAILABLE_FARE);
    WhenRanked(available, !q.approved, UNAPPROVED_SOURCE);
  }

  /** No flag is appended twice, so each one costs its twenty points once. */
  lemma FlagsDistinct(q: Quote)
    ensures forall i, j :: 0 <= i < j < |Flags(q)| ==> Flags(q)[i] != Flags(q)[j]
  {
    DateFlagsRanked(q);
    FareFlagsRanked(q, DateFlags(q));
    AmountFlagsRanked(q, FareFlags(q, DateFlags(q)));
    hide DateFlags, FareFlags, AmountFlags, Rank;
  }

  lemma AmountFlagsRanked(q: Quote, earlier: seq<QualityFlag>)
    requires RankedBelow(earlier, 12)
    ensures RankedBelow(AmountFlags(q, earlier), 15)
  {
    hide RankedBelow, When, AnyNegative, Mismatched;
    var negative := When(earlier, AnyNegative(Components(q) + [q.total]), NEGATIVE_FARE);
    WhenRanked(earlier, AnyNegative(Components(q) + [q.total]), NEGATIVE_FARE);
    var mismatch := When(negative, Mismatched(q), FARE_COMPONENT_MISMATCH);
    WhenRanked(negative, Mismatched(q), FARE_COMPONENT_MISMATCH);
    WhenRanked(mismatch, q.identity.None?, INCOMPLETE_FLIGHT_IDENTITY);
  }
}
