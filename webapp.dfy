/**
 * The state of the web map page (the global `APP` record) and the operations that change it:
 * the one-shot `init`, the city lookup, loading the events of the user's period, cycling
 * through them, and `logout`. The map, the page and the network are left out: an answer of
 * the query service is a parameter, and the only trace the map leaves in the state is the
 * list of markers it shows.
 */
module WebApp {
  import opened Wrappers
  import opened Text
  import opened Events
  import opened Wikidata

  // ---------------------------------------------------------------------------
  // Periods
  // ---------------------------------------------------------------------------

  /** A `{start, end}` pair of years. */
  datatype YearRange = YearRange(start: int, end: int)

  /** The table of `getYearsForPeriod`. */
  const Periods: map<string, YearRange> := map[
    "middle_ages" := YearRange(500, 1500),
    "renaissance" := YearRange(1300, 1600),
    "industrial_revolution" := YearRange(1760, 1840),
    "20th_century" := YearRange(1901, 2000)
  ]

  /** The range used for any other period (the twentieth century). */
  const DefaultYears := YearRange(1900, 2000)

  /** The values the registration and profile forms offer for the period. */
  const PeriodOptions: seq<string> := ["middle_ages", "renaissance", "industrial_revolution", "20th_century"]

  /** `getYearsForPeriod`: the table's range for a known period, the default otherwise. */
  function GetYearsForPeriod(period: Option<string>): (r: YearRange)
    ensures r.start <= r.end
    ensures period.Some? && period.value in Periods ==> r == Periods[period.value]
    ensures !(period.Some? && period.value in Periods) ==> r == DefaultYears
  {
    if period.Some? && period.value in Periods then Periods[period.value] else DefaultYears
  }

  /** Every period the forms offer has its own range, so the default is never used for one of them. */
  lemma FormPeriodsHaveRanges()
    ensures Periods.Keys == set p | p in PeriodOptions
    ensures forall k :: 0 <= k < |PeriodOptions| ==> GetYearsForPeriod(Some(PeriodOptions[k])) != DefaultYears
  {
    forall k | 0 <= k < |PeriodOptions|
      ensures GetYearsForPeriod(Some(PeriodOptions[k])) != DefaultYears
    {
      assert PeriodOptions[k] in Periods;
    }
  }

  // ---------------------------------------------------------------------------
  // Bindings to events
  // ---------------------------------------------------------------------------

  /** One row of the events query: the `value` of each variable, `None` where it is unbound. */
  datatype RawBinding = RawBinding(
    event: Option<string>,
    eventLabel: Option<string>,
    date: Option<string>,
    coord: Option<string>,
    description: Option<string>)

  /** The `[lat, lon]` tokens handed to `parseFloat`; `None` for a token the split did not produce. */
  datatype WebCoords = WebCoords(lat: Option<string>, lon: Option<string>)

  /** An event of the page. `date` is the stored date as the browser writes it for `ru-RU`. */
  datatype WebEvent = WebEvent(title: string, description: string, date: string, coordinates: WebCoords, wikidataUrl: string)

  /** The description of an event whose row has none. */
  const NoDescription := "Описание отсутствует"

  /** `coord.replace('Point(', '').replace(')', '').split(' ')`. */
  function CoordTokens(coord: string): seq<string>
  {
    Split(ReplaceFirst(ReplaceFirst(coord, "Point(", ""), ")", ""), ' ')
  }

  /** The `i`-th token, or `None` (JavaScript's `undefined`) past the end. */
  function Token(parts: seq<string>, i: nat): Option<string>
  {
    if i < |parts| then Some(parts[i]) else None
  }

  /**
   * The `map` callback of `fetchHistoricalEvents`. Reading `.value` of an unbound label, date,
   * coordinate or event throws, which `None` stands for; `toLocale` is the browser's
   * `toLocaleDateString('ru-RU')` of the date.
   */
  function MapBinding(item: RawBinding, toLocale: string -> string): (r: Option<WebEvent>)
    ensures r.Some? <==> item.date.Some? && item.coord.Some? && item.eventLabel.Some? && item.event.Some?
  {
    if item.date.None? || item.coord.None? || item.eventLabel.None? || item.event.None? then None
    else
      var coord := CoordTokens(item.coord.value);
      Some(WebEvent(
        item.eventLabel.value,
        if IsTruthy(item.description) then item.description.value else NoDescription,
        toLocale(item.date.value),
        WebCoords(Token(coord, 1), Token(coord, 0)),
        item.event.value))
  }

  /**
   * `Point(a b)` becomes the coordinates `[b, a]`; the label and the event URI are copied, and
   * a missing or empty description becomes the placeholder.
   */
  lemma MapBindingPoint(item: RawBinding, toLocale: string -> string, a: string, b: string)
    requires item.coord == Some("Point(" + a + " " + b + ")")
    requires ' ' !in a && ' ' !in b && ')' !in a && ')' !in b
    requires item.date.Some? && item.eventLabel.Some? && item.event.Some?
    ensures var r := MapBinding(item, toLocale);
            r.Some? &&
            r.value.coordinates == WebCoords(Some(b), Some(a)) &&
            r.value.title == item.eventLabel.value &&
            r.value.wikidataUrl == item.event.value &&
            r.value.description == (if IsTruthy(item.description) then item.description.value else NoDescription)
  {
    var inner := a + " " + b;
    var text := "Point(" + (inner + ")");
    assert item.coord.value == text;
    assert ReplaceFirst(text, "Point(", "") == inner + ")" by {
      assert text[..6] == "Point(";
      assert text[6..] == inner + ")";
    }
    assert ')' !in inner;
    ReplaceFirstChar(inner, ')', "", "");
    assert inner + [')'] + "" == inner + ")";
    assert inner + "" + "" == inner;
    assert Join([a, b], [' ']) == inner;
    SplitJoin([a, b], ' ');
  }

  /** On a well-formed point the page and the bot read the same two coordinate texts. */
  lemma PointParsersAgree(item: RawBinding, toLocale: string -> string, x: string, y: string, cityCoords: Option<Coords>)
    requires IsFloatText(x) && IsFloatText(y)
    requires item.coord == Some(PointText(x, y))
    requires item.date.Some? && item.eventLabel.Some? && item.event.Some?
    ensures BindingCoordinates(item.coord, cityCoords) == Some(Coords(y, x))
    ensures MapBinding(item, toLocale).value.coordinates == WebCoords(Some(y), Some(x))
  {
    FloatTextIsCoordText(x);
    FloatTextIsCoordText(y);
    BindingCoordinatesCases(x, y, "", PointText(x, y), cityCoords);
    assert PointText(x, y) + "" == PointText(x, y);
    assert ' ' !in x && ')' !in x by {
      assert !IsCoordChar(' ') && !IsCoordChar(')');
    }
    assert ' ' !in y && ')' !in y by {
      assert !IsCoordChar(' ') && !IsCoordChar(')');
    }
    MapBindingPoint(item, toLocale, x, y);
  }

  /** `Array.prototype.map` with a callback that may throw (`None`): the first throw ends it. */
  function MapAll<A, B>(items: seq<A>, f: A -> Option<B>): (r: Option<seq<B>>)
    ensures r.Some? <==> forall k :: 0 <= k < |items| ==> f(items[k]).Some?
    ensures r.Some? ==> |r.value| == |items|
    ensures r.Some? ==> forall k :: 0 <= k < |items| ==> f(items[k]) == Some(r.value[k])
    decreases |items|
  {
    if items == [] then Some([])
    else
      var n := |items| - 1;
      var front := items[..n];
      assert forall k :: 0 <= k < n ==> front[k] == items[k];
      match MapAll(front, f)
      case None => None
      case Some(results) =>
        match f(items[n])
        case None => None
        case Some(e) =>
          assert forall k :: 0 <= k < n ==> (results + [e])[k] == results[k];
          Some(results + [e])
  }

  /** `bindings.map(...)`: every row's event in order, or a throw if any row throws. */
  function MapBindings(items: seq<RawBinding>, toLocale: string -> string): (r: Option<seq<WebEvent>>)
    ensures r.Some? <==> forall k :: 0 <= k < |items| ==> MapBinding(items[k], toLocale).Some?
    ensures r.Some? ==> |r.value| == |items|
    ensures r.Some? ==> forall k :: 0 <= k < |items| ==> MapBinding(items[k], toLocale) == Some(r.value[k])
  {
    MapAll(items, (item: RawBinding) => MapBinding(item, toLocale))
  }

  /** `fetchHistoricalEvents`: `None` when the request fails or a row throws. */
  function FetchHistoricalEvents(years: YearRange, server: YearRange -> Option<seq<RawBinding>>,
                                 toLocale: string -> string): (r: Option<seq<WebEvent>>)
    ensures server(years).None? ==> r.None?
    ensures server(years).Some? ==>
              var items := server(years).value;
              (r.Some? <==> forall k :: 0 <= k < |items| ==> MapBinding(items[k], toLocale).Some?) &&
              (r.Some? ==> |r.value| == |items| && forall k :: 0 <= k < |items| ==> MapBinding(items[k], toLocale) == Some(r.value[k]))
  {
    match server(years)
    case None => None
    case Some(items) => MapBindings(items, toLocale)
  }

  // ---------------------------------------------------------------------------
  // The `APP` record
  // ---------------------------------------------------------------------------

  /** The user record the forms build and `localStorage` keeps. */
  datatype User = User(firstName: string, lastName: string, email: string, password: string,
                       city: string, timePeriod: Option<string>)

  /** What `localStorage` holds under `currentUser`: nothing, a user, or text `JSON.parse` rejects. */
  datatype SavedUser = NothingSaved | Saved(user: User) | Unreadable

  /** A snapshot of `APP`; `mapReady` says whether `APP.map` was created. */
  datatype AppState = AppState(
    mapReady: bool,
    currentUser: Option<User>,
    currentEvents: seq<WebEvent>,
    currentEventIndex: int,
    isInitialized: bool,
    cityWikidataId: Option<string>,
    markers: seq<WebCoords>)

  /** The marker positions of a list of events, one per event. */
  function MarkersOf(events: seq<WebEvent>): (ms: seq<WebCoords>)
    ensures |ms| == |events|
    ensures forall k :: 0 <= k < |events| ==> ms[k] == events[k].coordinates
  {
    seq(|events|, k requires 0 <= k < |events| => events[k].coordinates)
  }

  /**
   * The invariant of the page: the index points into a non-empty event list, and the markers
   * are either none or exactly those of the current events on a map that exists.
   */
  predicate ValidState(s: AppState)
  {
    0 <= s.currentEventIndex &&
    (s.currentEvents != [] ==> s.currentEventIndex < |s.currentEvents|) &&
    (s.markers == [] || (s.mapReady && s.markers == MarkersOf(s.currentEvents)))
  }

  /** `APP` as the page declares it. */
  const InitialState := AppState(false, None, [], 0, false, None, [])

  /** JavaScript's `%`: the remainder takes the sign of the dividend. */
  function JsRemainder(a: int, n: int): (r: int)
    requires n > 0
    ensures -n < r < n
    ensures a >= 0 ==> r == a % n
    ensures a <= 0 ==> r <= 0
    ensures (a - r) % n == 0
  {
    if a >= 0 then
      var q := a / n;
      assert a - a % n == q * n;
      MultipleRemainder(q, n);
      a % n
    else
      var q := (-a) / n;
      assert a + (-a) % n == (-q) * n;
      MultipleRemainder(-q, n);
      -((-a) % n)
  }

  /** A multiple of `n` leaves no remainder. */
  lemma MultipleRemainder(q: int, n: int)
    requires n > 0
    ensures (q * n) % n == 0
  {
    var d, r := (q * n) / n, (q * n) % n;
    var k := q - d;
    assert k * n == q * n - d * n;
    assert k * n == r;
    assert k >= 1 ==> (k - 1) * n >= 0;
    assert k <= -1 ==> (-k - 1) * n >= 0;
  }

  /** `displayEvents`: with a map and events, the markers become those of the events. */
  function Displayed(s: AppState): (r: AppState)
    ensures ValidState(s) ==> ValidState(r)
    ensures r.(markers := s.markers) == s
    ensures s.mapReady && s.currentEvents != [] ==> r.markers == MarkersOf(s.currentEvents)
    ensures !s.mapReady || s.currentEvents == [] ==> r == s
  {
    if s.mapReady && s.currentEvents != [] then s.(markers := MarkersOf(s.currentEvents)) else s
  }

  /** `updateEvent`: nothing on an empty list, otherwise the next event, round the list. */
  function Updated(s: AppState): (r: AppState)
    ensures s.currentEvents == [] ==> r == s
    ensures r.currentEvents == s.currentEvents
    ensures ValidState(s) && s.currentEvents != [] ==>
              r.currentEventIndex == (s.currentEventIndex + 1) % |s.currentEvents|
    ensures ValidState(s) ==> ValidState(r)
  {
    if s.currentEvents == [] then s
    else Displayed(s.(currentEventIndex := JsRemainder(s.currentEventIndex + 1, |s.currentEvents|)))
  }

  /** `k` presses of the refresh button. */
  function UpdatedTimes(s: AppState, k: nat): AppState
  {
    if k == 0 then s else Updated(UpdatedTimes(s, k - 1))
  }

  /** One step of the cycle: adding one before or after the remainder is the same. */
  lemma RemainderNext(a: int, n: int)
    requires a >= 0 && n > 0
    ensures (a % n + 1) % n == (a + 1) % n
  {
    var q, r := a / n, a % n;
    assert a == q * n + r;
    if r + 1 < n {
      RemainderUnique(a + 1, n, q, r + 1);
      RemainderUnique(r + 1, n, 0, r + 1);
    } else {
      assert a + 1 == q * n + n;
      assert q * n + n == (q + 1) * n;
      RemainderUnique(a + 1, n, q + 1, 0);
      RemainderUnique(n, n, 1, 0);
    }
  }

  /** A non-zero multiple of `n` is at least `n` away from zero. */
  lemma MultipleBounds(d: int, n: int)
    requires n > 0
    ensures d >= 1 ==> d * n >= n
    ensures d <= -1 ==> d * n <= -n
  {
    if d >= 1 {
      assert d * n == (d - 1) * n + n;
    } else if d <= -1 {
      assert d * n == -((-d - 1) * n) - n;
    }
  }

  /** The remainder is the only one in range. */
  lemma RemainderUnique(x: int, n: int, q: int, r: int)
    requires n > 0 && 0 <= r < n && x == q * n + r
    ensures x % n == r
  {
    var q0, r0 := x / n, x % n;
    assert x == q0 * n + r0;
    var d := q - q0;
    assert d * n == q * n - q0 * n;
    MultipleBounds(d, n);
  }

  /** After `k` presses the index has moved `k` places round the list, so `n` presses return to the start. */
  lemma {:induction false} UpdatesCycle(s: AppState, k: nat)
    requires ValidState(s) && s.currentEvents != []
    ensures ValidState(UpdatedTimes(s, k))
    ensures UpdatedTimes(s, k).currentEvents == s.currentEvents
    ensures UpdatedTimes(s, k).currentEventIndex == (s.currentEventIndex + k) % |s.currentEvents|
  {
    if k > 0 {
      UpdatesCycle(s, k - 1);
      RemainderNext(s.currentEventIndex + k - 1, |s.currentEvents|);
    } else {
      assert s.currentEventIndex % |s.currentEvents| == s.currentEventIndex;
    }
  }

  /** `logout`: no user, no events, no city id, no markers. */
  function LoggedOut(s: AppState): (r: AppState)
    ensures r.currentUser.None? && r.cityWikidataId.None? && r.currentEvents == [] && r.markers == []
    ensures r.mapReady == s.mapReady && r.isInitialized == s.isInitialized && r.currentEventIndex == s.currentEventIndex
    ensures ValidState(s) ==> ValidState(r)
  {
    s.(currentUser := None, currentEvents := [], cityWikidataId := None, markers := [])
  }

  /**
   * `findCityWikidataId` on the answer's city URIs: `None` when it throws (the request failed),
   * otherwise whether a city was found; a found city's id is the last `/` segment of its URI.
   */
  function CityLookup(s: AppState, response: Option<seq<string>>): (r: (AppState, Option<bool>))
    ensures response.None? ==> r == (s, None)
    ensures response.Some? ==> r.1 == Some(|response.value| > 0)
    ensures r.1 != Some(true) ==> r.0 == s
    ensures r.1 == Some(true) ==> r.0 == s.(cityWikidataId := r.0.cityWikidataId) &&
                                  r.0.cityWikidataId.Some? && '/' !in r.0.cityWikidataId.value
  {
    match response
    case None => (s, None)
    case Some(uris) =>
      if |uris| > 0 then (s.(cityWikidataId := Some(LastField(uris[0], '/'))), Some(true)) else (s, Some(false))
  }

  /** A city found under `.../entity/Q656` is stored as `Q656`. */
  lemma CityLookupTakesId(s: AppState, prefix: string, id: string, rest: seq<string>)
    requires '/' !in id
    ensures CityLookup(s, Some([prefix + "/" + id] + rest)) == (s.(cityWikidataId := Some(id)), Some(true))
  {
    LastFieldAfterSeparator(prefix, id, '/');
    assert prefix + "/" + id == prefix + ['/'] + id;
  }

  /**
   * `loadUserEvents`: nothing without a user and a city id; a non-empty answer replaces the
   * events and restarts at the first; an empty or failed answer leaves the events as they were.
   */
  function Loaded(s: AppState, server: YearRange -> Option<seq<RawBinding>>, toLocale: string -> string): (r: AppState)
    ensures s.currentUser.None? || !IsTruthy(s.cityWikidataId) ==> r == s
    ensures r.currentUser == s.currentUser && r.cityWikidataId == s.cityWikidataId
    ensures r.mapReady == s.mapReady && r.isInitialized == s.isInitialized
    ensures r.currentEvents == s.currentEvents || (r.currentEvents != [] && r.currentEventIndex == 0)
    ensures ValidState(s) ==> ValidState(r)
    ensures s.currentUser.Some? && IsTruthy(s.cityWikidataId) ==>
              var res := FetchHistoricalEvents(GetYearsForPeriod(s.currentUser.value.timePeriod), server, toLocale);
              (res.Some? && |res.value| > 0 ==> r == Displayed(s.(currentEvents := res.value, currentEventIndex := 0))) &&
              (res.None? || res.value == [] ==> r == s)
  {
    if s.currentUser.None? || !IsTruthy(s.cityWikidataId) then s
    else
      match FetchHistoricalEvents(GetYearsForPeriod(s.currentUser.value.timePeriod), server, toLocale)
      case None => s
      case Some(events) =>
        if |events| > 0 then Displayed(s.(currentEvents := events, currentEventIndex := 0)) else s
  }

  /** After `logout` loading does nothing. */
  lemma NothingLoadsAfterLogout(s: AppState, server: YearRange -> Option<seq<RawBinding>>, toLocale: string -> string)
    ensures Loaded(LoggedOut(s), server, toLocale) == LoggedOut(s)
    ensures LoggedOut(LoggedOut(s)) == LoggedOut(s)
  {
  }

  /**
   * `checkAuth` with what its promises settle to: a saved user becomes the current user, the
   * city is looked up, and unless the lookup throws the events are loaded.
   */
  function AuthChecked(s: AppState, saved: SavedUser, cityResponse: Option<seq<string>>,
                       server: YearRange -> Option<seq<RawBinding>>, toLocale: string -> string): (r: AppState)
    ensures ValidState(s) ==> ValidState(r)
    ensures r.mapReady == s.mapReady && r.isInitialized == s.isInitialized
    ensures !saved.Saved? ==> r == s
    ensures saved.Saved? ==> r.currentUser == Some(saved.user)
    ensures saved.Saved? ==>
              var withUser := s.(currentUser := Some(saved.user));
              (cityResponse.None? ==> r == withUser) &&
              (cityResponse.Some? ==> r == Loaded(CityLookup(withUser, cityResponse).0, server, toLocale)) &&
              (cityResponse.Some? && cityResponse.value != [] ==>
                 r.cityWikidataId == Some(LastField(cityResponse.value[0], '/')))
  {
    match saved
    case Saved(user) =>
      var (looked, found) := CityLookup(s.(currentUser := Some(user)), cityResponse);
      if found.Some? then Loaded(looked, server, toLocale) else looked
    case _ => s
  }

  /**
   * `init`: the first call creates the map (which may fail), loads events if a user is already
   * set, checks the saved user, and marks the page initialized; later calls change nothing.
   */
  function Initialized(s: AppState, mapOk: bool, saved: SavedUser, cityResponse: Option<seq<string>>,
                       server: YearRange -> Option<seq<RawBinding>>, toLocale: string -> string): (r: AppState)
    ensures s.isInitialized ==> r == s
    ensures r.isInitialized
    ensures !s.isInitialized ==> r.mapReady == mapOk
    ensures !s.isInitialized && saved.Saved? ==> r.currentUser == Some(saved.user)
    ensures ValidState(s) && s.markers == [] ==> ValidState(r)
  {
    if s.isInitialized then s
    else
      var mapped := s.(mapReady := mapOk);
      var withEvents := if mapOk && mapped.currentUser.Some? then Loaded(mapped, server, toLocale) else mapped;
      AuthChecked(withEvents, saved, cityResponse, server, toLocale).(isInitialized := true)
  }

  /** Calling `init` again, with any answers, leaves the page as the first call left it. */
  lemma InitRunsOnce(s: AppState, mapOk: bool, saved: SavedUser, cityResponse: Option<seq<string>>,
                     server: YearRange -> Option<seq<RawBinding>>, toLocale: string -> string,
                     mapOk2: bool, saved2: SavedUser, cityResponse2: Option<seq<string>>,
                     server2: YearRange -> Option<seq<RawBinding>>, toLocale2: string -> string)
    ensures var first := Initialized(s, mapOk, saved, cityResponse, server, toLocale);
            Initialized(first, mapOk2, saved2, cityResponse2, server2, toLocale2) == first
  {
  }

  /** The registration form: the new user is set, and the events are loaded when the city is found. */
  function Registered(s: AppState, user: User, cityResponse: Option<seq<string>>,
                      server: YearRange -> Option<seq<RawBinding>>, toLocale: string -> string): (r: AppState)
    ensures ValidState(s) ==> ValidState(r)
    ensures r.currentUser == Some(user)
    ensures cityResponse != Some([]) && cityResponse.Some? ==> r.cityWikidataId.Some?
    ensures var withUser := s.(currentUser := Some(user));
            (cityResponse.Some? && cityResponse.value != [] ==>
               r == Loaded(CityLookup(withUser, cityResponse).0, server, toLocale) &&
               r.cityWikidataId == Some(LastField(cityResponse.value[0], '/'))) &&
            (cityResponse.None? || cityResponse == Some([]) ==> r == withUser)
  {
    var (looked, found) := CityLookup(s.(currentUser := Some(user)), cityResponse);
    if found == Some(true) then Loaded(looked, server, toLocale) else looked
  }

  /** The page: the fields of `APP`. */
  class App {
    var mapReady: bool
    var currentUser: Option<User>
    var currentEvents: seq<WebEvent>
    var currentEventIndex: int
    var isInitialized: bool
    var cityWikidataId: Option<string>
    var markers: seq<WebCoords>

    /** The fields as one value. */
    function State(): AppState
      reads this
    {
      AppState(mapReady, currentUser, currentEvents, currentEventIndex, isInitialized, cityWikidataId, markers)
    }

    predicate Valid()
      reads this
    {
      ValidState(State())
    }

    constructor ()
      ensures State() == InitialState
      ensures Valid()
    {
      mapReady := false;
      currentUser := None;
      currentEvents := [];
      currentEventIndex := 0;
      isInitialized := false;
      cityWikidataId := None;
      markers := [];
    }

    /**
     * `displayEvents`: the old markers are removed and one is added per event. It is called on
     * a consistent page, or right after `loadUserEvents` put new events in place with the index
     * at 0, when the markers are about to be redrawn.
     */
    method DisplayEvents()
      requires Valid() || (mapReady && currentEvents != [] && 0 <= currentEventIndex < |currentEvents|)
      modifies this
      ensures Valid()
      ensures State() == Displayed(old(State()))
    {
      if !mapReady || |currentEvents| == 0 {
        return;
      }
      var shown: seq<WebCoords> := [];
      var k := 0;
      while k < |currentEvents|
        invariant 0 <= k <= |currentEvents|
        invariant shown == MarkersOf(currentEvents[..k])
      {
        assert MarkersOf(currentEvents[..k + 1]) == MarkersOf(currentEvents[..k]) + [currentEvents[k].coordinates];
        shown := shown + [currentEvents[k].coordinates];
        k := k + 1;
      }
      assert currentEvents[..k] == currentEvents;
      markers := shown;
    }

    /** `updateEvent`. */
    method UpdateEvent()
      requires Valid()
      modifies this
      ensures Valid()
      ensures State() == Updated(old(State()))
    {
      if |currentEvents| == 0 {
        return;
      }
      currentEventIndex := JsRemainder(currentEventIndex + 1, |currentEvents|);
      DisplayEvents();
    }

    /** `logout`. */
    method Logout()
      requires Valid()
      modifies this
      ensures Valid()
      ensures State() == LoggedOut(old(State()))
    {
      currentUser := None;
      currentEvents := [];
      cityWikidataId := None;
      markers := [];
    }

    /** `findCityWikidataId`, given the city URIs of the answer (`None` when the request fails). */
    method FindCityWikidataId(response: Option<seq<string>>) returns (found: Option<bool>)
      requires Valid()
      modifies this
      ensures Valid()
      ensures (State(), found) == CityLookup(old(State()), response)
    {
      if response.None? {
        return None;
      }
      var bindings := response.value;
      if |bindings| > 0 {
        var cityUri := bindings[0];
        cityWikidataId := Some(LastField(cityUri, '/'));
        return Some(true);
      }
      return Some(false);
    }

    /** `loadUserEvents`, with `server` answering the events query for a range of years. */
    method LoadUserEvents(server: YearRange -> Option<seq<RawBinding>>, toLocale: string -> string)
      requires Valid()
      modifies this
      ensures Valid()
      ensures State() == Loaded(old(State()), server, toLocale)
    {
      if currentUser.None? || !IsTruthy(cityWikidataId) {
        return;
      }
      var years := GetYearsForPeriod(currentUser.value.timePeriod);
      var events := FetchHistoricalEvents(years, server, toLocale);
      if events.Some? && |events.value| > 0 {
        currentEvents := events.value;
        currentEventIndex := 0;
        DisplayEvents();
      }
    }

    /** `checkAuth`, run to the end of its promises. */
    method CheckAuth(saved: SavedUser, cityResponse: Option<seq<string>>,
                     server: YearRange -> Option<seq<RawBinding>>, toLocale: string -> string)
      requires Valid()
      modifies this
      ensures Valid()
      ensures State() == AuthChecked(old(State()), saved, cityResponse, server, toLocale)
    {
      if saved.Saved? {
        currentUser := Some(saved.user);
        var found := FindCityWikidataId(cityResponse);
        if found.Some? {
          LoadUserEvents(server, toLocale);
        }
      }
    }

    /** `init`, with `mapOk` saying whether the map could be created. */
    method Init(mapOk: bool, saved: SavedUser, cityResponse: Option<seq<string>>,
                server: YearRange -> Option<seq<RawBinding>>, toLocale: string -> string)
      requires Valid()
      requires !isInitialized ==> markers == []
      modifies this
      ensures Valid()
      ensures State() == Initialized(old(State()), mapOk, saved, cityResponse, server, toLocale)
    {
      if isInitialized {
        return;
      }
      mapReady := mapOk;
      if mapReady && currentUser.Some? {
        LoadUserEvents(server, toLocale);
      }
      CheckAuth(saved, cityResponse, server, toLocale);
      isInitialized := true;
    }

    /** The registration form's submit handler. */
    method Register(user: User, cityResponse: Option<seq<string>>,
                    server: YearRange -> Option<seq<RawBinding>>, toLocale: string -> string)
      requires Valid()
      modifies this
      ensures Valid()
      ensures State() == Registered(old(State()), user, cityResponse, server, toLocale)
    {
      currentUser := Some(user);
      var cityFound := FindCityWikidataId(cityResponse);
      if cityFound == Some(true) {
        LoadUserEvents(server, toLocale);
      }
    }
  }
}
