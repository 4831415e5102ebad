/**
 * The Telegram text of an event and the link to the web map (`format_event_message`, and the
 * message `get_historical_event` writes). Percent-encoding and HTML escaping are functions the
 * caller supplies.
 */
module EventMessage {
  import opened Wrappers
  import opened Text
  import opened Dates
  import opened Events

  /** The web map the links open. */
  const MapPage := "https://mnstupichev.github.io/History-project/"

  /** The description line: present only for a non-empty description. */
  function DescriptionLine(description: string, shown: string): string
  {
    if description != "" then "\n📝 " + shown + "\n" else ""
  }

  /** The message body: date, label, optional description line, city. */
  function MessageText(date: string, title: string, descriptionLine: string, city: string): string
  {
    "<b>📅 " + date + "</b>\n\n" + "<b>📜 " + title + "</b>\n" + descriptionLine + "\n🏙 " + city + "\n"
  }

  /** The `key=value` fields of the link's query, in order; `lat` and `lon` only with coordinates. */
  function QueryFields(title: string, date: string, city: string, coordinates: Option<Coords>, quote: string -> string): seq<string>
  {
    ["event=" + quote(title), "date=" + quote(date), "city=" + quote(city)]
    + match coordinates
      case Some(c) => ["lat=" + c.lat, "lon=" + c.lon]
      case None => []
  }

  /** The coordinate part of the query: empty without coordinates. */
  function CoordsParam(coordinates: Option<Coords>): string
  {
    match coordinates
    case Some(c) => "&lat=" + c.lat + "&lon=" + c.lon
    case None => ""
  }

  /**
   * The link to the web map, with the query written out as the source writes it: the map page,
   * a `?`, and the query fields joined by `&`.
   */
  function MapLink(title: string, date: string, city: string, coordinates: Option<Coords>, quote: string -> string): (link: string)
    ensures link == MapPage + "?" + Join(QueryFields(title, date, city, coordinates, quote), "&")
  {
    QueryJoined(title, date, city, coordinates, quote);
    assert "?event=" == "?" + "event=" && "&date=" == "&" + "date=" && "&city=" == "&" + "city=";
    Regroup(MapPage, "event=", "date=", "city=", quote(title), quote(date), quote(city), CoordsParam(coordinates));
    MapPage + "?event=" + quote(title) + "&date=" + quote(date) + "&city=" + quote(city) + CoordsParam(coordinates)
  }

  /** The query fields joined by `&` spell out the query the link writes. */
  lemma QueryJoined(title: string, date: string, city: string, coordinates: Option<Coords>, quote: string -> string)
    ensures Join(QueryFields(title, date, city, coordinates, quote), "&")
            == ("event=" + quote(title)) + "&" + ("date=" + quote(date)) + "&" + ("city=" + quote(city)) + CoordsParam(coordinates)
  {
    var fields := QueryFields(title, date, city, coordinates, quote);
    var e, d, c := "event=" + quote(title), "date=" + quote(date), "city=" + quote(city);
    var tail := match coordinates
      case Some(co) => ["lat=" + co.lat, "lon=" + co.lon]
      case None => [];
    assert fields == [e, d, c] + tail;
    var rest := Join([c] + tail, "&");
    assert rest == c + CoordsParam(coordinates) by {
      if coordinates.Some? {
        var co := coordinates.value;
        var la, lo := "lat=" + co.lat, "lon=" + co.lon;
        JoinCons(la, [lo], "&");
        JoinCons(c, [la, lo], "&");
        assert [c] + tail == [c, la, lo];
        assert "&lat=" + co.lat == "&" + la;
        assert "&lon=" + co.lon == "&" + lo;
      }
    }
    JoinCons(d, [c] + tail, "&");
    JoinCons(e, [d] + ([c] + tail), "&");
    assert [e, d, c] + tail == [e] + ([d] + ([c] + tail));
  }

  /**
   * The link's query is its fields joined by `&`; when neither the encoded values nor the
   * coordinate texts contain `&`, splitting the query on `&` gives back exactly those fields,
   * so the page reads each parameter as written.
   */
  lemma MapLinkFields(title: string, date: string, city: string, coordinates: Option<Coords>, quote: string -> string)
    requires '&' !in quote(title) && '&' !in quote(date) && '&' !in quote(city)
    requires coordinates.Some? ==> '&' !in coordinates.value.lat && '&' !in coordinates.value.lon
    ensures var fields := QueryFields(title, date, city, coordinates, quote);
            MapLink(title, date, city, coordinates, quote) == MapPage + "?" + Join(fields, "&") &&
            Split(Join(fields, "&"), '&') == fields
  {
    var fields := QueryFields(title, date, city, coordinates, quote);
    assert forall k :: 0 <= k < |fields| ==> '&' !in fields[k];
    SplitJoin(fields, '&');
  }

  /** The link with its literal pieces split at the `?` and the `&`s. */
  lemma Regroup(page: string, a: string, b: string, c: string, x: string, y: string, z: string, w: string)
    ensures page + ("?" + a) + x + ("&" + b) + y + ("&" + c) + z + w
            == page + "?" + ((a + x) + "&" + (b + y) + "&" + (c + z) + w)
  {
  }

  /** Joining a non-empty tail after a first field. */
  lemma JoinCons(first: string, rest: seq<string>, sep: string)
    requires rest != []
    ensures Join([first] + rest, sep) == first + sep + Join(rest, sep)
  {
    assert ([first] + rest)[1..] == rest;
  }

  /**
   * `format_event_message`: the message and the map link. The date is shown as `DD.MM.YYYY`
   * when `fromisoformat` reads it, and as stored otherwise.
   */
  function FormatEventMessage(e: Event, city: string, quote: string -> string): (r: (string, string))
    ensures IsPrefix("<b>📅 " + DisplayDate(e.date) + "</b>\n\n" + "<b>📜 " + e.title + "</b>\n", r.0)
    ensures var head := "<b>📅 " + DisplayDate(e.date) + "</b>\n\n" + "<b>📜 " + e.title + "</b>\n";
            var cityLine := "\n🏙 " + city + "\n";
            (e.description != "" ==> r.0 == head + ("\n📝 " + e.description + "\n") + cityLine) &&
            (e.description == "" ==> r.0 == head + cityLine)
    ensures r.1 == MapPage + "?" + Join(QueryFields(e.title, DisplayDate(e.date), city, e.coordinates, quote), "&")
  {
    var date := DisplayDate(e.date);
    var message := MessageText(date, e.title, DescriptionLine(e.description, e.description), city);
    MessageParts(date, e.title, DescriptionLine(e.description, e.description), city, "");
    assert message + "" == message;
    (message, MapLink(e.title, date, city, e.coordinates, quote))
  }

  /**
   * The text `get_historical_event` returns for the event it picked: every value HTML-escaped,
   * followed by a link to the map without coordinates.
   */
  function BotEventMessage(e: Event, city: string, escape: string -> string, quote: string -> string): (m: string)
    ensures IsPrefix("<b>📅 " + escape(DisplayDate(e.date)) + "</b>\n\n" + "<b>📜 " + escape(e.title) + "</b>\n", m)
    ensures var tail := "\n🗺 <a href='" + MapLink(e.title, DisplayDate(e.date), city, None, quote) + "'>Событие на карте</a>";
            |tail| <= |m| && m[|m| - |tail|..] == tail
    ensures var head := "<b>📅 " + escape(DisplayDate(e.date)) + "</b>\n\n" + "<b>📜 " + escape(e.title) + "</b>\n";
            var cityLine := "\n🏙 " + escape(city) + "\n";
            var tail := "\n🗺 <a href='" + MapLink(e.title, DisplayDate(e.date), city, None, quote) + "'>Событие на карте</a>";
            (e.description != "" ==> m == head + ("\n📝 " + escape(e.description) + "\n") + cityLine + tail) &&
            (e.description == "" ==> m == head + cityLine + tail)
  {
    var date := DisplayDate(e.date);
    var body := MessageText(escape(date), escape(e.title), DescriptionLine(e.description, escape(e.description)), escape(city));
    var tail := "\n🗺 <a href='" + MapLink(e.title, date, city, None, quote) + "'>Событие на карте</a>";
    MessageParts(escape(date), escape(e.title), DescriptionLine(e.description, escape(e.description)), escape(city), tail);
    body + tail
  }

  /**
   * A message body followed by any text: the date and label lines, then the description line,
   * then the city line, then that text.
   */
  lemma MessageParts(date: string, title: string, descriptionLine: string, city: string, tail: string)
    ensures var m := MessageText(date, title, descriptionLine, city) + tail;
            IsPrefix("<b>📅 " + date + "</b>\n\n" + "<b>📜 " + title + "</b>\n", m) &&
            IsPrefix("<b>📅 " + date + "</b>", m) &&
            |tail| <= |m| && m[|m| - |tail|..] == tail
    ensures MessageText(date, title, descriptionLine, city) + tail ==
            ("<b>📅 " + date + "</b>\n\n" + "<b>📜 " + title + "</b>\n") + descriptionLine + ("\n🏙 " + city + "\n") + tail
  {
    var head := "<b>📅 " + date + "</b>\n\n" + "<b>📜 " + title + "</b>\n";
    var rest := descriptionLine + "\n🏙 " + city + "\n";
    var body := MessageText(date, title, descriptionLine, city);
    assert body == head + rest;
    assert body + tail == head + (rest + tail);
    assert (head + (rest + tail))[..|head|] == head;
    assert (body + tail)[|body|..] == tail;
    var short := "<b>📅 " + date + "</b>";
    assert "</b>\n\n" == "</b>" + "\n\n";
    assert head == short + ("\n\n" + "<b>📜 " + title + "</b>\n");
    assert (body + tail)[..|short|] == head[..|short|] == short;
  }

  /**
   * A dated encyclopedia event shows its date as `DD.MM.YYYY` and links to the map with that
   * date; so does a Wikidata event dated at midnight UTC.
   */
  lemma FormatEventMessageDates(e: Event, city: string, quote: string -> string, d: Date)
    requires IsValidDate(d)
    requires e.date == IsoText(d) || e.date == IsoText(d) + "T00:00:00Z"
    ensures var (message, link) := FormatEventMessage(e, city, quote);
            IsPrefix("<b>📅 " + DayMonthYearText(d) + "</b>", message) &&
            link == MapLink(e.title, DayMonthYearText(d), city, e.coordinates, quote)
  {
    if e.date == IsoText(d) {
      IsoDateDisplayed(d);
    } else {
      WikidataDateDisplayed(d);
    }
    var date := DayMonthYearText(d);
    MessageParts(date, e.title, DescriptionLine(e.description, e.description), city, "");
    assert MessageText(date, e.title, DescriptionLine(e.description, e.description), city) + "" ==
           MessageText(date, e.title, DescriptionLine(e.description, e.description), city);
  }

  /**
   * The bot's message for a dated event shows the escaped `DD.MM.YYYY` date and links to the
   * map with that same date and no coordinates.
   */
  lemma BotEventMessageDates(e: Event, city: string, escape: string -> string, quote: string -> string, d: Date)
    requires IsValidDate(d)
    requires e.date == IsoText(d) || e.date == IsoText(d) + "T00:00:00Z"
    ensures IsPrefix("<b>📅 " + escape(DayMonthYearText(d)) + "</b>", BotEventMessage(e, city, escape, quote))
    ensures var link := MapLink(e.title, DayMonthYearText(d), city, None, quote);
            BotEventMessage(e, city, escape, quote)
            == MessageText(escape(DayMonthYearText(d)), escape(e.title), DescriptionLine(e.description, escape(e.description)), escape(city))
               + "\n🗺 <a href='" + link + "'>Событие на карте</a>"
  {
    var date := DayMonthYearText(d);
    StoredDateDisplayed(e.date, d);
    var tail := "\n🗺 <a href='" + MapLink(e.title, date, city, None, quote) + "'>Событие на карте</a>";
    BotEventMessageShowing(e, city, escape, quote, date);
    MessageParts(escape(date), escape(e.title), DescriptionLine(e.description, escape(e.description)), escape(city), tail);
  }

  /** Both forms of a stored date show as `DD.MM.YYYY`. */
  lemma StoredDateDisplayed(stored: string, d: Date)
    requires IsValidDate(d)
    requires stored == IsoText(d) || stored == IsoText(d) + "T00:00:00Z"
    ensures DisplayDate(stored) == DayMonthYearText(d)
  {
    if stored == IsoText(d) {
      IsoDateDisplayed(d);
    } else {
      WikidataDateDisplayed(d);
    }
  }

  /** The bot's message written out for the date text it shows. */
  lemma BotEventMessageShowing(e: Event, city: string, escape: string -> string, quote: string -> string, date: string)
    requires DisplayDate(e.date) == date
    ensures BotEventMessage(e, city, escape, quote)
            == MessageText(escape(date), escape(e.title), DescriptionLine(e.description, escape(e.description)), escape(city))
               + "\n🗺 <a href='" + MapLink(e.title, date, city, None, quote) + "'>Событие на карте</a>"
  {
  }

  /** A stored date that does not start with a digit and has no `Z` is shown as it is stored. */
  lemma UnreadableDateShownAsStored(stored: string)
    requires stored != [] && !IsDigit(stored[0]) && 'Z' !in stored
    ensures DisplayDate(stored) == stored
  {
    ReplaceCharAbsent(stored, 'Z', "+00:00");
    if |stored| >= 4 {
      assert stored[..4][0] == stored[0];
    }
  }

  /** The placeholder date of an event without one is shown as it is. */
  lemma UnknownDateShownAsStored()
    ensures DisplayDate(UnknownDate) == UnknownDate
  {
    UnreadableDateShownAsStored(UnknownDate);
  }
}
