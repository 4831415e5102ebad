/**
 * The conversation state of the Telegram bot: the per-user settings (`user_data`), the
 * subscription table (`subscribers`), the hour the time slider shows (`temp_hour`), and the
 * handlers that read and change them. Telegram calls are left out: a handler's reply is its
 * result, and the answers of the Wikidata services are parameters.
 */
module Bot {
  import opened Wrappers
  import opened Text
  import opened Dates
  import opened Events
  import opened Wikidata
  import opened EventMessage

  // ---------------------------------------------------------------------------
  // State
  // ---------------------------------------------------------------------------

  /** One entry of `user_data`: city, its Wikidata id (possibly `None`), era key, labels shown. */
  datatype UserSettings = UserSettings(city: string, cityId: Option<string>, era: string, shownEvents: set<string>)

  /** One entry of `subscribers`; `hour` is the hour of the `time(hour, 0)` it stores. */
  datatype Subscription = Subscription(city: string, cityId: Option<string>, era: string, hour: int)

  /** The states of the conversation (`MAIN_MENU`, `SELECT_CITY`, `SELECT_ERA`, `SELECT_TIME`). */
  datatype ConvState = AtMainMenu | AtSelectCity | AtSelectEra | AtSelectTime

  /**
   * What a handler leads to: the state it returns, or an exception it raises (after which the
   * conversation stays where it was).
   */
  datatype Outcome = Goto(state: ConvState) | Raised

  /** What `get_historical_event` answers. */
  datatype Reply =
    | CityNotFound
    | AllShown
    | NoneFound
    | EventShown(event: Event, message: string)
    | Failed

  /** The city every user starts with. */
  const StartCity := "Санкт-Петербург"

  /** The era every user starts with. */
  const StartEra := "imperial"

  /** The hour the time slider opens at. */
  const StartHour := 10

  /** The fixed parts of the replies that name the city. */
  const Sorry := "К сожалению, "
  const NotFound := "не удалось найти "
  const CityNotFoundHead := Sorry + NotFound + "информацию о городе "
  const CityNotFoundTail := " в базе данных."
  const AllShownHead := Sorry + "все исторические события для "
  const AllShownTail := " в выбранный период уже были показаны."
  const NoneFoundHead := Sorry + NotFound + "исторические события для "
  const PeriodTail := " в выбранный период."

  /** The reply to any exception. */
  const FailedText := "Произошла " + "ошибка при получении исторического события. Пожалуйста, попробуйте позже."

  /**
   * The text `get_historical_event` returns for a reply: a shown event is its message, the
   * error reply is the same for every city, and the other replies name the city.
   */
  function ReplyText(r: Reply, city: string): (t: string)
    ensures r.EventShown? ==> t == r.message
    ensures r.Failed? ==> t == FailedText
    ensures r.CityNotFound? || r.AllShown? || r.NoneFound? ==> Contains(t, city)
  {
    match r
    case CityNotFound => Framed(CityNotFoundHead, city, CityNotFoundTail)
    case AllShown => Framed(AllShownHead, city, AllShownTail)
    case NoneFound => Framed(NoneFoundHead, city, PeriodTail)
    case EventShown(_, message) => message
    case Failed => FailedText
  }

  /** A value between fixed texts, as an f-string places it. */
  function Framed(head: string, value: string, tail: string): (t: string)
    ensures Contains(t, value)
    ensures |t| == |head| + |value| + |tail| && t[..|head|] == head
  {
    var t := head + value + tail;
    assert OccursAt(t, value, |head|) by {
      assert t[|head|..|head| + |value|] == value;
    }
    ContainsIffOccurs(t, value);
    t
  }

  /** The value between the same fixed texts is determined by the whole. */
  lemma FramedInjective(head: string, v1: string, v2: string, tail: string)
    requires Framed(head, v1, tail) == Framed(head, v2, tail)
    ensures v1 == v2
  {
    var t := Framed(head, v1, tail);
    assert v1 == t[|head|..|head| + |v1|];
    assert v2 == t[|head|..|head| + |v2|];
  }

  /** The first characters of a reply other than a shown event. */
  lemma ReplyTextStart(r: Reply, city: string)
    requires !r.EventShown?
    ensures var t := ReplyText(r, city);
            |t| > 31 &&
            t[0] == (if r.Failed? then 'П' else 'К') &&
            (!r.Failed? ==> t[13] == (if r.AllShown? then 'в' else 'н')) &&
            (!r.Failed? && !r.AllShown? ==> t[31] == (if r.NoneFound? then 'с' else 'н'))
  {
    var t := ReplyText(r, city);
    var head := match r
                case CityNotFound => CityNotFoundHead
                case AllShown => AllShownHead
                case NoneFound => NoneFoundHead
                case _ => FailedText;
    assert t[..|head|] == head;
    assert t[0] == head[0] && t[13] == head[13] && t[31] == head[31];
  }

  /** The screen `get_event` shows around the text of `get_historical_event`. */
  function EventScreen(text: string): (screen: string)
    ensures Contains(screen, text)
  {
    Framed("📜 Историческое событие:\n\n", text, "\n\n")
  }

  /**
   * A user can tell every outcome apart from its text, whatever the cities: two outcomes other
   * than a shown event read the same exactly when they are the same outcome for the same city,
   * or both the error reply.
   */
  lemma {:induction false} ReplyTextsTellApart(r1: Reply, c1: string, r2: Reply, c2: string)
    requires !r1.EventShown? && !r2.EventShown?
    ensures ReplyText(r1, c1) == ReplyText(r2, c2) <==> r1 == r2 && (r1.Failed? || c1 == c2)
  {
    var t1, t2 := ReplyText(r1, c1), ReplyText(r2, c2);
    if r1 == r2 && !r1.Failed? && t1 == t2 {
      match r1
      case CityNotFound => FramedInjective(CityNotFoundHead, c1, c2, CityNotFoundTail);
      case AllShown => FramedInjective(AllShownHead, c1, c2, AllShownTail);
      case NoneFound => FramedInjective(NoneFoundHead, c1, c2, PeriodTail);
    }
    if r1 != r2 {
      ReplyTextStart(r1, c1);
      ReplyTextStart(r2, c2);
      if r1.Failed? || r2.Failed? {
        assert t1[0] != t2[0];
      } else if r1.AllShown? || r2.AllShown? {
        assert t1[13] != t2[13];
      } else {
        assert t1[31] != t2[31];
      }
    }
  }

  // ---------------------------------------------------------------------------
  // `get_events_from_wikidata`
  // ---------------------------------------------------------------------------

  /** The bot's query selects no coordinates, so every row is read without `coord`. */
  function WithoutCoord(bindings: seq<Binding>): (rows: seq<Binding>)
    ensures |rows| == |bindings|
    ensures forall k :: 0 <= k < |rows| ==> rows[k] == bindings[k].(coord := None)
  {
    seq(|bindings|, k requires 0 <= k < |bindings| => bindings[k].(coord := None))
  }

  /**
   * `get_events_from_wikidata`: nothing for an era `ERA_RANGES` does not have (the `KeyError`
   * is caught) or a failed request, and otherwise the label, date and description of every
   * row whose label is not excluded.
   */
  function BotEvents(era: string, currentYear: nat, answer: Option<seq<Binding>>, exclude: Option<set<string>>): (events: seq<Event>)
    ensures forall k :: 0 <= k < |events| ==> Admitted(events[k].title, exclude)
  {
    if era in EraRanges(currentYear) && answer.Some? then EventsOf(WithoutCoord(answer.value), None, exclude) else []
  }

  /** The event the bot makes of one row: placeholders for a missing label or date. */
  function RowEvent(b: Binding): (e: Event)
    ensures e == BindingEvent(b.(coord := None), None)
    ensures e.coordinates.None? && e.url.None?
  {
    Event(b.eventLabel.GetOr(UnknownEvent), b.date.GetOr(UnknownDate), b.description.GetOr(""), None, None)
  }

  /**
   * An event is returned exactly when some row makes it and its label is not excluded; with
   * `None` as the exclusion every row is returned, in order.
   */
  lemma BotEventsMembers(era: string, currentYear: nat, bindings: seq<Binding>, exclude: Option<set<string>>, e: Event)
    requires era in EraRanges(currentYear)
    ensures e in BotEvents(era, currentYear, Some(bindings), exclude) <==>
              Admitted(e.title, exclude) && exists k :: 0 <= k < |bindings| && RowEvent(bindings[k]) == e
    ensures BotEvents(era, currentYear, Some(bindings), None) == seq(|bindings|, k requires 0 <= k < |bindings| => RowEvent(bindings[k]))
  {
    var rows := WithoutCoord(bindings);
    EventsOfMembers(rows, None, exclude, e);
    EventsOfUnfiltered(rows, None);
    assert forall k :: 0 <= k < |bindings| ==> BindingEvent(rows[k], None) == RowEvent(bindings[k]);
  }

  // ---------------------------------------------------------------------------
  // `get_historical_event`
  // ---------------------------------------------------------------------------

  /**
   * `get_historical_event` on one user's settings: the settings afterwards and the reply.
   * The city id is looked up (`found`) only when none is stored, and stored when found; the
   * event shown is the `pick`-th of the events not yet shown, and its label joins the shown set.
   */
  function HistoricalEvent(s: UserSettings, found: Option<string>, currentYear: nat, answer: Option<seq<Binding>>,
                           pick: nat, escape: string -> string, quote: string -> string): (r: (UserSettings, Reply))
    ensures r.0.city == s.city && r.0.era == s.era
    ensures IsTruthy(s.cityId) ==> r.0.cityId == s.cityId
    ensures r.1 == CityNotFound <==> !IsTruthy(s.cityId) && !IsTruthy(found)
    ensures r.1 == AllShown ==> s.shownEvents != {}
    ensures r.1 != Failed
    ensures r.1.EventShown? ==> r.1.event.title !in s.shownEvents && r.0.shownEvents == s.shownEvents + {r.1.event.title}
    ensures !r.1.EventShown? ==> r.0.shownEvents == s.shownEvents
  {
    var cityId := if IsTruthy(s.cityId) then s.cityId else found;
    var stored := if IsTruthy(s.cityId) || !IsTruthy(found) then s else s.(cityId := found);
    if !IsTruthy(cityId) then (stored, CityNotFound)
    else
      var events := BotEvents(s.era, currentYear, answer, Some(s.shownEvents));
      if events == [] then (stored, if s.shownEvents != {} then AllShown else NoneFound)
      else
        var e := events[pick % |events|];
        (stored.(shownEvents := s.shownEvents + {e.title}), EventShown(e, BotEventMessage(e, s.city, escape, quote)))
  }

  /**
   * What `get_historical_event` stores and picks: a city id found by the search is stored when
   * none was; an event is shown exactly when a city id is known and some event of the era is
   * not yet shown, and it is one of those events.
   */
  lemma HistoricalEventOutcome(s: UserSettings, found: Option<string>, currentYear: nat, answer: Option<seq<Binding>>,
                               pick: nat, escape: string -> string, quote: string -> string)
    ensures var r := HistoricalEvent(s, found, currentYear, answer, pick, escape, quote);
            var events := BotEvents(s.era, currentYear, answer, Some(s.shownEvents));
            (!IsTruthy(s.cityId) && IsTruthy(found) ==> r.0.cityId == found) &&
            (!IsTruthy(s.cityId) && !IsTruthy(found) ==> r.0.cityId == s.cityId) &&
            (r.1.EventShown? <==> (IsTruthy(s.cityId) || IsTruthy(found)) && events != []) &&
            (r.1.EventShown? ==> r.1.event in events) &&
            (r.1.EventShown? ==> r.1.message == BotEventMessage(r.1.event, s.city, escape, quote)) &&
            (r.1.NoneFound? ==> s.shownEvents == {})
  {
  }

  /** The labels of the events a run of replies showed, in order. */
  function ShownTitles(replies: seq<Reply>): (titles: seq<string>)
    ensures |titles| <= |replies|
    ensures forall k :: 0 <= k < |replies| && replies[k].EventShown? ==> replies[k].event.title in titles
    ensures forall i :: 0 <= i < |titles| ==>
              exists k :: 0 <= k < |replies| && replies[k].EventShown? && replies[k].event.title == titles[i]
  {
    if replies == [] then []
    else
      var last := replies[|replies| - 1];
      var before := replies[..|replies| - 1];
      assert forall k :: 0 <= k < |before| ==> before[k] == replies[k];
      ShownTitles(before) + (if last.EventShown? then [last.event.title] else [])
  }

  /** The labels of two runs of replies, one after the other, are those of each run in turn. */
  lemma {:induction false} ShownTitlesAppend(first: seq<Reply>, second: seq<Reply>)
    ensures ShownTitles(first + second) == ShownTitles(first) + ShownTitles(second)
    decreases |second|
  {
    if second != [] {
      var n := |second| - 1;
      assert (first + second)[..|first + second| - 1] == first + second[..n];
      assert (first + second)[|first + second| - 1] == second[n];
      ShownTitlesAppend(first, second[..n]);
    } else {
      assert first + second == first;
    }
  }

  /** No label twice, and none from the set shown before. */
  predicate ShownOnce(before: set<string>, titles: seq<string>)
  {
    (forall i, j :: 0 <= i < j < |titles| ==> titles[i] != titles[j]) &&
    (forall i :: 0 <= i < |titles| ==> titles[i] !in before)
  }

  /** A run of `get_event` presses with no city or era change in between. */
  function Session(s: UserSettings, found: Option<string>, currentYear: nat, answer: Option<seq<Binding>>,
                   picks: seq<nat>, escape: string -> string, quote: string -> string): (r: (UserSettings, seq<Reply>))
    ensures |r.1| == |picks|
    decreases |picks|
  {
    if picks == [] then (s, [])
    else
      var before := Session(s, found, currentYear, answer, picks[..|picks| - 1], escape, quote);
      var after := HistoricalEvent(before.0, found, currentYear, answer, picks[|picks| - 1], escape, quote);
      (after.0, before.1 + [after.1])
  }

  /**
   * Between two resets no event is shown twice: the labels shown are all different and new,
   * and the shown set grows by exactly those labels.
   */
  lemma {:induction false} SessionShowsEachOnce(s: UserSettings, found: Option<string>, currentYear: nat,
                                                answer: Option<seq<Binding>>, picks: seq<nat>,
                                                escape: string -> string, quote: string -> string)
    ensures var r := Session(s, found, currentYear, answer, picks, escape, quote);
            ShownOnce(s.shownEvents, ShownTitles(r.1)) &&
            r.0.shownEvents == s.shownEvents + (set t | t in ShownTitles(r.1)) &&
            r.0.city == s.city && r.0.era == s.era
    decreases |picks|
  {
    if picks != [] {
      var front := picks[..|picks| - 1];
      SessionShowsEachOnce(s, found, currentYear, answer, front, escape, quote);
      var before := Session(s, found, currentYear, answer, front, escape, quote);
      var after := HistoricalEvent(before.0, found, currentYear, answer, picks[|picks| - 1], escape, quote);
      assert Session(s, found, currentYear, answer, picks, escape, quote) == (after.0, before.1 + [after.1]);
      var replies := before.1 + [after.1];
      assert replies[..|replies| - 1] == before.1;
      if after.1.EventShown? {
        assert ShownTitles(replies) == ShownTitles(before.1) + [after.1.event.title];
        ShownStep(s.shownEvents, ShownTitles(before.1), after.1.event.title);
      } else {
        assert ShownTitles(replies) == ShownTitles(before.1);
      }
    }
  }

  /** Showing one more label that was neither shown before nor in the run keeps it `ShownOnce`. */
  lemma ShownStep(before: set<string>, titles: seq<string>, t: string)
    requires ShownOnce(before, titles)
    requires t !in before + (set u | u in titles)
    ensures ShownOnce(before, titles + [t])
    ensures before + (set u | u in titles + [t]) == before + (set u | u in titles) + {t}
  {
    var longer := titles + [t];
    forall i | 0 <= i < |titles|
      ensures longer[i] != t
    {
      assert titles[i] in (set u | u in titles);
    }
    assert (set u | u in longer) == (set u | u in titles) + {t};
  }

  // ---------------------------------------------------------------------------
  // The era callback
  // ---------------------------------------------------------------------------

  /** The `callback_data` of the era buttons, in keyboard order. */
  const EraButtons: seq<string> := ["era_ancient_rus", "era_tsar_rus", "era_imperial", "era_soviet", "era_modern"]

  /** A callback `data` beginning with `era_` splits on `_` into at least two fields. */
  lemma CallbackFields(data: string)
    requires IsPrefix("era_", data)
    ensures |Split(data, '_')| >= 2 && Split(data, '_')[1] == Split(data[4..], '_')[0]
  {
    var rest := data[4..];
    var t := "_" + rest;
    assert data == "era" + t;
    SplitSeparatorFreePrefix("era", t, '_');
    assert t[1..] == rest;
    assert Split(t, '_') == [""] + Split(rest, '_');
  }

  /** `query.data.split('_')[1]` as `select_era` writes it: the text between the first two `_`. */
  function EraFromCallbackAsWritten(data: string): (era: string)
    requires IsPrefix("era_", data)
    ensures era == Split(data[4..], '_')[0]
    ensures '_' !in era && IsPrefix(era, data[4..])
  {
    CallbackFields(data);
    SplitFirstIsPrefix(data[4..], '_');
    Split(data, '_')[1]
  }

  /** The era key the button carries: everything after `era_`. */
  function EraFromCallback(data: string): (era: string)
    requires IsPrefix("era_", data)
    ensures "era_" + era == data
  {
    data[4..]
  }

  /** The split as written reads a key back exactly when the key has no `_`. */
  lemma EraFromCallbackAsWrittenIff(key: string)
    ensures EraFromCallbackAsWritten("era_" + key) == key <==> '_' !in key
  {
    var data := "era_" + key;
    assert data[4..] == key;
    if '_' !in key {
      SplitSeparatorFreePrefix(key, "", '_');
      assert key + "" == key;
    }
  }

  /** The split as written stops at the key's own first `_`. */
  lemma EraFromCallbackAsWrittenStops(head: string, tail: string)
    requires '_' !in head
    ensures EraFromCallbackAsWritten("era_" + head + "_" + tail) == head
  {
    var data := "era_" + head + "_" + tail;
    var t := "_" + tail;
    assert data[4..] == head + t;
    SplitSeparatorFreePrefix(head, t, '_');
    assert Split(t, '_')[0] == "" by {
      assert t[0] == '_';
    }
    assert head + "" == head;
  }

  /**
   * Of the five era keys, exactly those without `_` survive the split as written: the
   * buttons `era_ancient_rus` and `era_tsar_rus` are read as `ancient` and `tsar`, which are
   * not eras.
   */
  lemma EraKeysAsWritten()
    ensures forall key :: key in EraKeys ==> (EraFromCallbackAsWritten("era_" + key) in EraKeys <==> '_' !in key)
  {
    forall key | key in EraKeys
      ensures EraFromCallbackAsWritten("era_" + key) in EraKeys <==> '_' !in key
    {
      EraKeyAsWritten(key);
    }
  }

  /** One era key through the split as written. */
  lemma EraKeyAsWritten(key: string)
    requires key in EraKeys
    ensures EraFromCallbackAsWritten("era_" + key) in EraKeys <==> '_' !in key
  {
    var data := "era_" + key;
    assert data[4..] == key;
    var r := EraFromCallbackAsWritten(data);
    EraFromCallbackAsWrittenIff(key);
    if '_' in key && r in EraKeys {
      NoKeyIsProperPrefix(r, key);
    }
  }

  /** The five keys start with five different letters, so none is a prefix of another. */
  lemma NoKeyIsProperPrefix(a: string, b: string)
    requires a in EraKeys && b in EraKeys && IsPrefix(a, b)
    ensures a == b
  {
    assert a[0] == b[0] by {
      assert b[..|a|][0] == b[0];
    }
  }

  /** Read after `era_`, every button gives an era key, and different buttons give different keys. */
  lemma EraButtonsCorrected()
    ensures forall b :: b in EraButtons ==> EraFromCallback(b) in EraKeys
    ensures forall i, j :: 0 <= i < j < |EraButtons| ==> EraFromCallback(EraButtons[i]) != EraFromCallback(EraButtons[j])
  {
    assert EraFromCallback(EraButtons[0]) == "ancient_rus" by { assert "era_" + "ancient_rus" == EraButtons[0]; }
    assert EraFromCallback(EraButtons[1]) == "tsar_rus" by { assert "era_" + "tsar_rus" == EraButtons[1]; }
    assert EraFromCallback(EraButtons[2]) == "imperial" by { assert "era_" + "imperial" == EraButtons[2]; }
    assert EraFromCallback(EraButtons[3]) == "soviet" by { assert "era_" + "soviet" == EraButtons[3]; }
    assert EraFromCallback(EraButtons[4]) == "modern" by { assert "era_" + "modern" == EraButtons[4]; }
  }

  // ---------------------------------------------------------------------------
  // The hour slider
  // ---------------------------------------------------------------------------

  /** `time_next`: one hour later, round the clock. */
  function NextHour(h: int): (r: int)
    ensures 0 <= r < 24
  {
    (h + 1) % 24
  }

  /** `time_prev`: one hour earlier, round the clock (Python's `%` never gives a negative here). */
  function PrevHour(h: int): (r: int)
    ensures 0 <= r < 24
  {
    (h - 1) % 24
  }

  /** `context.user_data.get('temp_hour', 10)`: the hour the slider shows a user. */
  function SliderHour(tempHour: map<int, int>, userId: int): (h: int)
    ensures (forall u :: u in tempHour ==> 0 <= tempHour[u] < 24) ==> 0 <= h < 24
    ensures userId !in tempHour ==> h == StartHour
    ensures userId in tempHour ==> h == tempHour[userId]
  {
    if userId in tempHour then tempHour[userId] else StartHour
  }

  /** The two arrows undo each other on the hours the slider shows. */
  lemma PrevUndoesNext(h: int)
    requires 0 <= h < 24
    ensures PrevHour(NextHour(h)) == h && NextHour(PrevHour(h)) == h
  {
  }

  /** The hour after `n` presses of the forward arrow. */
  function Forward(h: int, n: nat): int
  {
    if n == 0 then h else NextHour(Forward(h, n - 1))
  }

  /** The remainder modulo 24 of a number written as `24 * q + r` with `0 <= r < 24` is `r`. */
  lemma HourOf(x: int, q: int, r: int)
    requires x == 24 * q + r && 0 <= r < 24
    ensures x % 24 == r
  {
  }

  /** `n` forward presses add `n` hours modulo 24, so 24 presses come back to the start. */
  lemma {:induction false} ForwardAdds(h: int, n: nat)
    requires 0 <= h < 24
    ensures Forward(h, n) == (h + n) % 24
  {
    if n > 0 {
      ForwardAdds(h, n - 1);
      var a := h + n - 1;
      var q, r := a / 24, a % 24;
      assert a == 24 * q + r;
      if r < 23 {
        HourOf(a + 1, q, r + 1);
      } else {
        HourOf(a + 1, q + 1, 0);
      }
    }
  }

  /** Every hour can be reached from the slider's opening hour. */
  lemma EveryHourReachable(target: int)
    requires 0 <= target < 24
    ensures Forward(StartHour, (target - StartHour) % 24) == target
  {
    var n := (target - StartHour) % 24;
    ForwardAdds(StartHour, n);
    if target >= StartHour {
      HourOf(target - StartHour, 0, target - StartHour);
      HourOf(StartHour + n, 0, target);
    } else {
      HourOf(target - StartHour, -1, target - StartHour + 24);
      HourOf(StartHour + n, 1, target);
    }
  }

  // ---------------------------------------------------------------------------
  // The handlers
  // ---------------------------------------------------------------------------

  /** The bot's module-level tables and the per-user `temp_hour` of the conversation context. */
  class BotState {
    var userData: map<int, UserSettings>
    var subscribers: map<int, Subscription>
    var tempHour: map<int, int>

    /** Every stored hour is one `time(hour, 0)` accepts. */
    predicate Valid()
      reads this
    {
      (forall u :: u in tempHour ==> 0 <= tempHour[u] < 24) &&
      (forall u :: u in subscribers ==> 0 <= subscribers[u].hour < 24)
    }

    constructor ()
      ensures Valid()
      ensures userData == map[] && subscribers == map[] && tempHour == map[]
    {
      userData := map[];
      subscribers := map[];
      tempHour := map[];
    }

    /** `start`: the user's settings become the defaults, with the looked-up city id. */
    method Start(userId: int, found: Option<string>) returns (outcome: Outcome)
      requires Valid()
      modifies this
      ensures Valid()
      ensures userData == old(userData)[userId := UserSettings(StartCity, found, StartEra, {})]
      ensures subscribers == old(subscribers) && tempHour == old(tempHour)
      ensures outcome == Goto(AtMainMenu)
    {
      userData := userData[userId := UserSettings(StartCity, found, StartEra, {})];
      outcome := Goto(AtMainMenu);
    }

    /**
     * `select_city`: a city without a Wikidata id leaves everything as it was and asks again;
     * otherwise the city and its id are stored and the shown set is emptied.
     */
    method SelectCity(userId: int, city: string, found: Option<string>) returns (outcome: Outcome)
      requires Valid()
      modifies this
      ensures Valid()
      ensures !IsTruthy(found) ==> outcome == Goto(AtSelectCity) && userData == old(userData)
      ensures IsTruthy(found) && userId !in old(userData) ==> outcome == Raised && userData == old(userData)
      ensures IsTruthy(found) && userId in old(userData) ==>
                outcome == Goto(AtMainMenu) &&
                userData == old(userData)[userId := old(userData)[userId].(city := city, cityId := found, shownEvents := {})]
      ensures subscribers == old(subscribers) && tempHour == old(tempHour)
    {
      if !IsTruthy(found) {
        return Goto(AtSelectCity);
      }
      if userId !in userData {
        return Raised;
      }
      userData := userData[userId := userData[userId].(city := city)];
      userData := userData[userId := userData[userId].(cityId := found)];
      userData := userData[userId := userData[userId].(shownEvents := {})];
      outcome := Goto(AtMainMenu);
    }

    /**
     * `select_era`, reading the era after `era_`: the era is stored and the shown set emptied;
     * an era the name table does not have then raises, after the change.
     */
    method SelectEra(userId: int, data: string) returns (outcome: Outcome)
      requires Valid()
      requires IsPrefix("era_", data)
      modifies this
      ensures Valid()
      ensures userId !in old(userData) ==> outcome == Raised && userData == old(userData)
      ensures userId in old(userData) ==>
                userData == old(userData)[userId := old(userData)[userId].(era := EraFromCallback(data), shownEvents := {})] &&
                outcome == (if EraFromCallback(data) in EraKeys then Goto(AtMainMenu) else Raised)
      ensures subscribers == old(subscribers) && tempHour == old(tempHour)
    {
      var era := EraFromCallback(data);
      if userId !in userData {
        return Raised;
      }
      userData := userData[userId := userData[userId].(era := era)];
      userData := userData[userId := userData[userId].(shownEvents := {})];
      if era !in EraKeys {
        return Raised;
      }
      outcome := Goto(AtMainMenu);
    }

    /** `context.user_data[...] = ...`: the settings of one user are replaced, nothing else. */
    method Store(userId: int, settings: UserSettings)
      requires Valid()
      modifies this
      ensures Valid()
      ensures userData == old(userData)[userId := settings]
      ensures subscribers == old(subscribers) && tempHour == old(tempHour)
    {
      userData := userData[userId := settings];
    }

    /**
     * `get_historical_event` for a user: the user's settings change as `HistoricalEvent`
     * says; a user without settings gets the error reply.
     */
    method GetHistoricalEvent(userId: int, found: Option<string>, currentYear: nat, answer: Option<seq<Binding>>,
                              pick: nat, escape: string -> string, quote: string -> string)
      returns (reply: Reply, text: string)
      requires Valid()
      modifies this
      ensures Valid()
      ensures userId !in old(userData) ==> reply == Failed && text == FailedText && userData == old(userData)
      ensures userId in old(userData) ==>
                var r := HistoricalEvent(old(userData)[userId], found, currentYear, answer, pick, escape, quote);
                userData == old(userData)[userId := r.0] && reply == r.1 &&
                text == ReplyText(reply, old(userData)[userId].city)
      ensures subscribers == old(subscribers) && tempHour == old(tempHour)
    {
      if userId !in userData {
        return Failed, FailedText;
      }
      var settings := userData[userId];
      var cityId := settings.cityId;
      if !IsTruthy(cityId) {
        cityId := found;
        if IsTruthy(cityId) {
          settings := settings.(cityId := cityId);
          Store(userId, settings);
        }
      }
      if !IsTruthy(cityId) {
        return CityNotFound, ReplyText(CityNotFound, settings.city);
      }
      var shown := settings.shownEvents;
      var events := BotEvents(settings.era, currentYear, answer, Some(shown));
      if events == [] {
        if shown != {} {
          return AllShown, ReplyText(AllShown, settings.city);
        }
        return NoneFound, ReplyText(NoneFound, settings.city);
      }
      var event := events[pick % |events|];
      settings := settings.(shownEvents := shown + {event.title});
      Store(userId, settings);
      reply := EventShown(event, BotEventMessage(event, settings.city, escape, quote));
      text := reply.message;
    }

    /**
     * `subscribe`: an existing subscriber is told so and nothing changes; otherwise the slider
     * opens at 10:00.
     */
    method Subscribe(userId: int) returns (outcome: Outcome)
      requires Valid()
      modifies this
      ensures Valid()
      ensures userId in old(subscribers) ==> outcome == Goto(AtMainMenu) && tempHour == old(tempHour)
      ensures userId !in old(subscribers) ==> outcome == Goto(AtSelectTime) && tempHour == old(tempHour)[userId := StartHour]
      ensures userData == old(userData) && subscribers == old(subscribers)
    {
      if userId in subscribers {
        return Goto(AtMainMenu);
      }
      tempHour := tempHour[userId := StartHour];
      outcome := Goto(AtSelectTime);
    }

    /**
     * `select_time`: `back` returns to the menu untouched; the arrows move the slider round the
     * clock; `time_confirm` subscribes the user with their current city and era at the hour shown.
     */
    method SelectTime(userId: int, data: string) returns (outcome: Outcome)
      requires Valid()
      modifies this
      ensures Valid()
      ensures data == "back" ==> outcome == Goto(AtMainMenu) && tempHour == old(tempHour) && subscribers == old(subscribers)
      ensures data == "time_confirm" && userId !in old(userData) ==>
                outcome == Raised && subscribers == old(subscribers) && tempHour == old(tempHour)
      ensures data == "time_confirm" && userId in old(userData) ==>
                var s := old(userData)[userId];
                outcome == Goto(AtMainMenu) && tempHour == old(tempHour) &&
                subscribers == old(subscribers)[userId := Subscription(s.city, s.cityId, s.era, SliderHour(old(tempHour), userId))]
      ensures data != "back" && data != "time_confirm" ==>
                var h := SliderHour(old(tempHour), userId);
                outcome == Goto(AtSelectTime) && subscribers == old(subscribers) &&
                tempHour == old(tempHour)[userId := if data == "time_prev" then PrevHour(h)
                                                    else if data == "time_next" then NextHour(h) else h]
      ensures userData == old(userData)
    {
      if data == "back" {
        return Goto(AtMainMenu);
      }
      var currentHour := SliderHour(tempHour, userId);
      if data == "time_prev" {
        currentHour := (currentHour - 1) % 24;
      } else if data == "time_next" {
        currentHour := (currentHour + 1) % 24;
      } else if data == "time_confirm" {
        if userId !in userData {
          return Raised;
        }
        var s := userData[userId];
        subscribers := subscribers[userId := Subscription(s.city, s.cityId, s.era, currentHour)];
        return Goto(AtMainMenu);
      }
      tempHour := tempHour[userId := currentHour];
      outcome := Goto(AtSelectTime);
    }

    /** `unsubscribe`: the user leaves the table if they were in it; the result says which. */
    method Unsubscribe(userId: int) returns (wasSubscribed: bool)
      requires Valid()
      modifies this
      ensures Valid()
      ensures wasSubscribed == (userId in old(subscribers))
      ensures subscribers == old(subscribers) - {userId}
      ensures userData == old(userData) && tempHour == old(tempHour)
    {
      wasSubscribed := userId in subscribers;
      if wasSubscribed {
        subscribers := subscribers - {userId};
      }
    }

    /**
     * `main_menu`: `change_city` and `choose_era` open their prompts, `get_event` shows an
     * event and stays, `subscribe` runs `subscribe`, `help` raises (a button press has no
     * message to reply to), and everything else returns to the menu.
     */
    method MainMenu(userId: int, data: string, found: Option<string>, currentYear: nat, answer: Option<seq<Binding>>,
                    pick: nat, escape: string -> string, quote: string -> string)
      returns (outcome: Outcome, reply: Option<Reply>, screen: Option<string>)
      requires Valid()
      modifies this
      ensures Valid()
      ensures data == "change_city" ==> outcome == Goto(AtSelectCity)
      ensures data == "choose_era" ==> outcome == Goto(AtSelectEra)
      ensures data == "help" ==> outcome == Raised
      ensures data == "subscribe" ==> outcome == (if userId in old(subscribers) then Goto(AtMainMenu) else Goto(AtSelectTime))
      ensures data !in {"change_city", "choose_era", "help", "subscribe"} ==> outcome == Goto(AtMainMenu)
      ensures data == "get_event" && userId in old(userData) ==>
                var r := HistoricalEvent(old(userData)[userId], found, currentYear, answer, pick, escape, quote);
                userData == old(userData)[userId := r.0] && reply == Some(r.1) &&
                screen == Some(EventScreen(ReplyText(r.1, old(userData)[userId].city)))
      ensures data == "get_event" && userId !in old(userData) ==>
                userData == old(userData) && reply == Some(Failed) && screen == Some(EventScreen(FailedText))
      ensures data != "get_event" ==> userData == old(userData) && reply == None && screen == None
      ensures data == "subscribe" && userId !in old(subscribers) ==> tempHour == old(tempHour)[userId := StartHour]
      ensures data != "subscribe" || userId in old(subscribers) ==> tempHour == old(tempHour)
      ensures subscribers == old(subscribers)
    {
      reply, screen := None, None;
      if data == "change_city" {
        outcome := Goto(AtSelectCity);
      } else if data == "choose_era" {
        outcome := Goto(AtSelectEra);
      } else if data == "get_event" {
        var r, text := GetHistoricalEvent(userId, found, currentYear, answer, pick, escape, quote);
        reply, screen := Some(r), Some(EventScreen(text));
        outcome := Goto(AtMainMenu);
      } else if data == "subscribe" {
        outcome := Subscribe(userId);
      } else if data == "help" {
        outcome := Raised;
      } else {
        outcome := Goto(AtMainMenu);
      }
    }
  }
}
