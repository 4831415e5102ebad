/**
 * Turning the rows of a Wikidata SPARQL answer into events (`fetch_wikidata_events`): the
 * placeholders for missing fields, the `Point(lon lat)` coordinate parse with its fallback to
 * the city's coordinates, and the exclusion filter.
 */
module Wikidata {
  import opened Wrappers
  import opened Text
  import opened Dates
  import opened Events

  /**
   * One SPARQL binding: the `value` of each variable the row binds, or `None` where the row
   * leaves the variable unbound.
   */
  datatype Binding = Binding(
    eventLabel: Option<string>,
    date: Option<string>,
    description: Option<string>,
    coord: Option<string>)

  // ---------------------------------------------------------------------------
  // The `Point(lon lat)` pattern
  // ---------------------------------------------------------------------------

  /** The characters of the class `[-\d.]`. */
  predicate IsCoordChar(c: char)
  {
    c == '-' || c == '.' || IsDigit(c)
  }

  /** A text the group `([-\d.]+)` can capture. */
  predicate IsCoordText(t: string)
  {
    t != [] && forall i :: 0 <= i < |t| ==> IsCoordChar(t[i])
  }

  /** The length of the longest run of `[-\d.]` characters at the start of `s`. */
  function CoordRun(s: string): (n: nat)
    ensures n <= |s|
    ensures forall i :: 0 <= i < n ==> IsCoordChar(s[i])
    ensures n < |s| ==> !IsCoordChar(s[n])
    decreases |s|
  {
    if s != [] && IsCoordChar(s[0]) then 1 + CoordRun(s[1..]) else 0
  }

  /** The text `Point(x y)` for the two captured groups `x` and `y`. */
  function PointText(x: string, y: string): string
  {
    "Point(" + x + " " + y + ")"
  }

  /**
   * `re.match(r'Point\(([-\d.]+) ([-\d.]+)\)', s)`: the two groups, or `None` where the match
   * fails. The match is anchored at the start only, so text after the `)` is allowed.
   */
  function MatchPoint(s: string): (r: Option<(string, string)>)
    ensures r.Some? ==> IsCoordText(r.value.0) && IsCoordText(r.value.1)
    ensures r.Some? ==> IsPrefix(PointText(r.value.0, r.value.1), s)
  {
    if !IsPrefix("Point(", s) then None
    else
      var r := MatchGroups(s[6..]);
      if r.Some? then
        PointPrefix(s, r.value.0, r.value.1);
        r
      else None
  }

  /**
   * The part of the match after `Point(`: a group, a space, a group, and `)`. Neither a space
   * nor `)` is in the class, so each group is the longest run of class characters.
   */
  function MatchGroups(rest: string): (r: Option<(string, string)>)
    ensures r.Some? ==> IsCoordText(r.value.0) && IsCoordText(r.value.1)
    ensures r.Some? ==> IsPrefix(r.value.0 + " " + r.value.1 + ")", rest)
  {
    var n := CoordRun(rest);
    if n == 0 || n == |rest| || rest[n] != ' ' then None
    else
      var rest2 := rest[n + 1..];
      var m := CoordRun(rest2);
      if m == 0 || m == |rest2| || rest2[m] != ')' then None
      else
        GroupsPrefix(rest, rest[..n], rest2[..m]);
        Some((rest[..n], rest2[..m]))
  }

  /** `rest` starts with `x y)` when its pieces are in place. */
  lemma GroupsPrefix(rest: string, x: string, y: string)
    requires |x| + 1 < |rest| && rest[..|x|] == x && rest[|x|] == ' '
    requires |y| < |rest[|x| + 1..]| && rest[|x| + 1..][..|y|] == y && rest[|x| + 1..][|y|] == ')'
    ensures IsPrefix(x + " " + y + ")", rest)
  {
    var p := x + " " + y + ")";
    forall i | 0 <= i < |p| ensures rest[i] == p[i] {
      if i < |x| {
        assert rest[..|x|][i] == rest[i];
      } else if i == |x| {
      } else if i < |x| + 1 + |y| {
        assert rest[|x| + 1..][..|y|][i - |x| - 1] == rest[i];
      } else {
        assert rest[|x| + 1..][|y|] == rest[i];
      }
    }
    assert rest[..|p|] == p;
  }

  /** `s` starts with `Point(x y)` when it starts with `Point(` followed by `x y)`. */
  lemma PointPrefix(s: string, x: string, y: string)
    requires IsPrefix("Point(", s) && IsPrefix(x + " " + y + ")", s[6..])
    ensures IsPrefix(PointText(x, y), s)
  {
    var q := x + " " + y + ")";
    assert PointText(x, y) == "Point(" + q;
    assert s[..6 + |q|] == s[..6] + s[6..][..|q|];
  }

  /** The run of class characters in front of a character outside the class. */
  lemma CoordRunBefore(t: string, c: char, rest: string)
    requires IsCoordText(t) && !IsCoordChar(c)
    ensures CoordRun(t + [c] + rest) == |t|
  {
    var s := t + [c] + rest;
    assert s[|t|] == c;
    assert forall i :: 0 <= i < |t| ==> s[i] == t[i];
  }

  /** The groups part of every written point matches with groups `x` and `y`. */
  lemma MatchGroupsWritten(x: string, y: string, tail: string)
    requires IsCoordText(x) && IsCoordText(y)
    ensures MatchGroups(x + [' '] + (y + [')'] + tail)) == Some((x, y))
  {
    var rest2 := y + [')'] + tail;
    var rest := x + [' '] + rest2;
    CoordRunBefore(x, ' ', rest2);
    assert rest[|x|] == ' ';
    assert rest[|x| + 1..] == rest2;
    CoordRunBefore(y, ')', tail);
    assert rest2[|y|] == ')';
    assert rest[..|x|] == x;
    assert rest2[..|y|] == y;
  }

  /** Every `Point(x y)` text, with anything after it, matches with groups `x` and `y`. */
  lemma MatchPointWritten(x: string, y: string, tail: string)
    requires IsCoordText(x) && IsCoordText(y)
    ensures MatchPoint(PointText(x, y) + tail) == Some((x, y))
  {
    var s := PointText(x, y) + tail;
    var rest := x + [' '] + (y + [')'] + tail);
    assert s == "Point(" + rest;
    assert s[6..] == rest;
    assert IsPrefix("Point(", s) by {
      assert s[..6] == "Point(";
    }
    MatchGroupsWritten(x, y, tail);
  }

  // ---------------------------------------------------------------------------
  // `float()` on a captured group
  // ---------------------------------------------------------------------------

  /** Digits with at most one `.` and at least one digit. */
  predicate IsUnsignedDecimal(u: string)
  {
    (forall i :: 0 <= i < |u| ==> IsDigit(u[i]) || u[i] == '.') &&
    (forall i, j :: 0 <= i < j < |u| && u[i] == '.' ==> u[j] != '.') &&
    (exists i :: 0 <= i < |u| && IsDigit(u[i]))
  }

  /**
   * `float(t)` succeeds, for a text over the class `[-\d.]`: an optional leading `-` and then
   * an unsigned decimal (`12`, `12.`, `12.5`, `.5`). Texts such as `-`, `1.2.3` or `1-2` make
   * `float` raise `ValueError`.
   */
  predicate IsFloatText(t: string)
  {
    if t != [] && t[0] == '-' then IsUnsignedDecimal(t[1..]) else IsUnsignedDecimal(t)
  }

  /** Every text `float` accepts is one the group `([-\d.]+)` can capture. */
  lemma FloatTextIsCoordText(t: string)
    requires IsFloatText(t)
    ensures IsCoordText(t)
  {
    if t != [] && t[0] == '-' {
      assert forall i :: 1 <= i < |t| ==> t[i] == t[1..][i - 1];
    }
  }

  // ---------------------------------------------------------------------------
  // Bindings to events
  // ---------------------------------------------------------------------------

  /**
   * The `coordinates` of the event made from a binding: `[lat, lon]` from `Point(lon lat)`;
   * no coordinates when the text does not match; the city's coordinates (when known) when a
   * group is not a number or the binding has no `coord`.
   */
  function BindingCoordinates(coord: Option<string>, cityCoords: Option<Coords>): (r: Option<Coords>)
    ensures coord.None? ==> r == cityCoords
    ensures coord.Some? && MatchPoint(coord.value).None? ==> r.None?
    ensures r.Some? && r != cityCoords ==>
              coord.Some? && IsFloatText(r.value.lat) && IsFloatText(r.value.lon) &&
              IsPrefix(PointText(r.value.lon, r.value.lat), coord.value)
  {
    match coord
    case None => cityCoords
    case Some(text) =>
      match MatchPoint(text)
      case None => None
      case Some((lon, lat)) =>
        if IsFloatText(lon) && IsFloatText(lat) then Some(Coords(lat, lon)) else cityCoords
  }

  /** The four cases of the coordinate rule, stated on the text of the binding. */
  lemma BindingCoordinatesCases(x: string, y: string, tail: string, text: string, cityCoords: Option<Coords>)
    requires IsCoordText(x) && IsCoordText(y)
    ensures IsFloatText(x) && IsFloatText(y) ==>
              BindingCoordinates(Some(PointText(x, y) + tail), cityCoords) == Some(Coords(y, x))
    ensures !(IsFloatText(x) && IsFloatText(y)) ==>
              BindingCoordinates(Some(PointText(x, y) + tail), cityCoords) == cityCoords
    ensures !IsPrefix("Point(", text) ==> BindingCoordinates(Some(text), cityCoords) == None
    ensures MatchPoint(text).None? ==> BindingCoordinates(Some(text), cityCoords) == None
    ensures BindingCoordinates(None, cityCoords) == cityCoords
  {
    MatchPointWritten(x, y, tail);
  }

  /** A coordinate text is swapped into `[lat, lon]` exactly when it has the `Point` form. */
  lemma BindingCoordinatesFromPoint(text: string, cityCoords: Option<Coords>)
    requires cityCoords.None?
    ensures BindingCoordinates(Some(text), cityCoords).Some? <==>
              exists x, y :: IsFloatText(x) && IsFloatText(y) && IsPrefix(PointText(x, y), text)
  {
    var m := MatchPoint(text);
    if m.Some? {
      var (x, y) := m.value;
      if IsFloatText(x) && IsFloatText(y) {
        assert IsPrefix(PointText(x, y), text);
      }
    }
    forall x, y | IsFloatText(x) && IsFloatText(y) && IsPrefix(PointText(x, y), text)
      ensures BindingCoordinates(Some(text), cityCoords).Some?
    {
      FloatTextIsCoordText(x);
      FloatTextIsCoordText(y);
      var tail := text[|PointText(x, y)|..];
      assert text == PointText(x, y) + tail;
      MatchPointWritten(x, y, tail);
    }
  }

  /** The event dictionary built from one binding, before the exclusion filter. */
  function BindingEvent(b: Binding, cityCoords: Option<Coords>): (e: Event)
    ensures b.eventLabel.Some? ==> e.title == b.eventLabel.value
    ensures b.eventLabel.None? ==> e.title == UnknownEvent
    ensures b.date.Some? ==> e.date == b.date.value
    ensures b.date.None? ==> e.date == UnknownDate
    ensures b.description.Some? ==> e.description == b.description.value
    ensures b.description.None? ==> e.description == ""
    ensures e.coordinates == BindingCoordinates(b.coord, cityCoords) && e.url.None?
  {
    Event(
      b.eventLabel.GetOr(UnknownEvent),
      b.date.GetOr(UnknownDate),
      b.description.GetOr(""),
      BindingCoordinates(b.coord, cityCoords),
      None)
  }

  /** The events the loop over the bindings appends, in binding order. */
  function EventsOf(bindings: seq<Binding>, cityCoords: Option<Coords>, exclude: Option<set<string>>): (events: seq<Event>)
    ensures |events| <= |bindings|
    ensures forall k :: 0 <= k < |events| ==> Admitted(events[k].title, exclude)
    decreases |bindings|
  {
    if bindings == [] then []
    else
      var e := BindingEvent(bindings[|bindings| - 1], cityCoords);
      EventsOf(bindings[..|bindings| - 1], cityCoords, exclude) + (if Admitted(e.title, exclude) then [e] else [])
  }

  /** An event is emitted exactly when some binding makes it and its label is not excluded. */
  lemma {:induction false} EventsOfMembers(bindings: seq<Binding>, cityCoords: Option<Coords>, exclude: Option<set<string>>, e: Event)
    ensures e in EventsOf(bindings, cityCoords, exclude) <==>
              Admitted(e.title, exclude) && exists k :: 0 <= k < |bindings| && BindingEvent(bindings[k], cityCoords) == e
    decreases |bindings|
  {
    if bindings != [] {
      var n := |bindings| - 1;
      var front := bindings[..n];
      EventsOfMembers(front, cityCoords, exclude, e);
      if k :| 0 <= k < |bindings| && BindingEvent(bindings[k], cityCoords) == e {
        if k < n {
          assert front[k] == bindings[k];
        }
      }
      if k :| 0 <= k < n && BindingEvent(front[k], cityCoords) == e {
        assert bindings[k] == front[k];
      }
    }
  }

  /** With no exclusion set every binding becomes an event, in order. */
  lemma {:induction false} EventsOfUnfiltered(bindings: seq<Binding>, cityCoords: Option<Coords>)
    ensures EventsOf(bindings, cityCoords, None) == seq(|bindings|, k requires 0 <= k < |bindings| => BindingEvent(bindings[k], cityCoords))
    decreases |bindings|
  {
    if bindings != [] {
      var n := |bindings| - 1;
      EventsOfUnfiltered(bindings[..n], cityCoords);
    }
  }

  /** The loop of `fetch_wikidata_events` over the bindings of an answer. */
  method WikidataEvents(bindings: seq<Binding>, cityCoords: Option<Coords>, exclude: Option<set<string>>)
    returns (events: seq<Event>)
    ensures events == EventsOf(bindings, cityCoords, exclude)
  {
    events := [];
    var i := 0;
    while i < |bindings|
      invariant 0 <= i <= |bindings|
      invariant events == EventsOf(bindings[..i], cityCoords, exclude)
    {
      assert bindings[..i + 1][..i] == bindings[..i];
      var event := BindingEvent(bindings[i], cityCoords);
      if exclude.None? || event.title !in exclude.value {
        events := events + [event];
      }
      i := i + 1;
    }
    assert bindings[..i] == bindings;
  }

  /**
   * `fetch_wikidata_events`: nothing for an era `ERA_RANGES` does not have, nothing when the
   * request fails (`answer` is `None`), and otherwise the events of the answer's bindings.
   */
  method FetchWikidataEvents(era: string, currentYear: nat, answer: Option<seq<Binding>>,
                             cityCoords: Option<Coords>, exclude: Option<set<string>>)
    returns (events: seq<Event>)
    ensures era !in EraRanges(currentYear) || answer.None? ==> events == []
    ensures era in EraRanges(currentYear) && answer.Some? ==> events == EventsOf(answer.value, cityCoords, exclude)
  {
    if era !in EraRanges(currentYear) {
      return [];
    }
    match answer
    case None =>
      events := [];
    case Some(bindings) =>
      events := WikidataEvents(bindings, cityCoords, exclude);
  }
}
