/**
 * The event record both sources produce and the exclusion filter every producer applies.
 *
 * An event is the dictionary the bot builds: `label`, `date`, `description`, and optionally
 * `coordinates` (`[lat, lon]`) and `url`. Coordinates are kept as the number texts they were
 * read from.
 */
module Events {
  import opened Wrappers

  /** A `[lat, lon]` pair, each kept as its number text. */
  datatype Coords = Coords(lat: string, lon: string)

  /**
   * An event dictionary; `title` is its `label` key, and `None` stands for a key the
   * dictionary does not have.
   */
  datatype Event = Event(
    title: string,
    date: string,
    description: string,
    coordinates: Option<Coords>,
    url: Option<string>)

  /** The label of an event whose source gives none. */
  const UnknownEvent := "Неизвестное событие"

  /** The date of an event whose source gives none. */
  const UnknownDate := "Неизвестная дата"

  /** Python's truth value of an optional text: present and not empty. */
  predicate IsTruthy(s: Option<string>)
  {
    s.Some? && s.value != ""
  }

  /** `exclude_events is None or event['label'] not in exclude_events`. */
  predicate Admitted(title: string, exclude: Option<set<string>>)
  {
    exclude.None? || title !in exclude.value
  }

  /** The labels of a list of events, in order. */
  function Labels(events: seq<Event>): (labels: seq<string>)
    ensures |labels| == |events|
    ensures forall k :: 0 <= k < |events| ==> labels[k] == events[k].title
  {
    if events == [] then [] else [events[0].title] + Labels(events[1..])
  }
}
