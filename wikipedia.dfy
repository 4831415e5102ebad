/**
 * Events from encyclopedia pages: the page-classification rule of `process_pages`, the
 * processed-page bookkeeping it shares with its caller, the batches of 35 page ids that
 * `fetch_pages_info` requests, and the module-level `cache` of city ids and page answers.
 */
module Wikipedia {
  import opened Wrappers
  import opened Text
  import opened Dates
  import opened Events

  /**
   * One page of an answer: its `title`, `extract`, the `title` of each of its `categories`,
   * its `fullurl` (`None` for a key the page lacks), and the matches of the date patterns in
   * its lowered extract.
   */
  datatype Page = Page(
    title: Option<string>,
    extract: Option<string>,
    categories: seq<Option<string>>,
    fullurl: Option<string>,
    scan: Scan)

  /** A page under its page id, in the order the answer lists them. */
  datatype PageEntry = PageEntry(id: string, page: Page)

  /**
   * What `process_pages` passes on unchanged: the city, the era's entry of `ERA_RANGES`, the
   * city's coordinates (when found) and the exclusion set.
   */
  datatype Request = Request(city: string, era: EraRange, cityCoords: Option<Coords>, exclude: Option<set<string>>)

  // ---------------------------------------------------------------------------
  // Classification
  // ---------------------------------------------------------------------------

  /** Title words of pages that are not events. */
  const NonEventKeywords: seq<string> := [
    "список", "категория", "шаблон", "проект", "портал", "википедия",
    "российская империя", "история россии", "хронология", "эпоха",
    "период", "век", "годы", "года", "году", "годах"
  ]

  /** Category words of event pages. */
  const EventCategoryKeywords: seq<string> := [
    "исторические события", "события по годам", "события по месяцам",
    "события по дням", "исторические даты", "важные события",
    "знаменательные события", "исторические факты"
  ]

  /** Title words of event pages. */
  const EventTitleKeywords: seq<string> := [
    "событие", "сражение", "битва", "война", "революция", "восстание",
    "пожар", "наводнение", "открытие", "основание", "создание",
    "построен", "построена", "построено", "заложен", "заложена",
    "заложено", "учрежден", "учреждена", "учреждено"
  ]

  /** `any(keyword in s for keyword in keywords)`. */
  predicate MentionsAny(s: string, keywords: seq<string>)
  {
    exists k :: 0 <= k < |keywords| && Contains(s, keywords[k])
  }

  /** `page.get('title', '').lower()`. */
  function LoweredTitle(p: Page): string
  {
    Lower(p.title.GetOr(""))
  }

  /** `page.get('extract', '').lower()`. */
  function LoweredText(p: Page): string
  {
    Lower(p.extract.GetOr(""))
  }

  predicate HasEventCategory(p: Page)
  {
    exists c :: 0 <= c < |p.categories| && MentionsAny(Lower(p.categories[c].GetOr("")), EventCategoryKeywords)
  }

  predicate HasEventTitle(p: Page)
  {
    MentionsAny(LoweredTitle(p), EventTitleKeywords)
  }

  predicate HasDates(p: Page)
  {
    DatesIn(p.scan) != []
  }

  /** `sum([has_event_category, has_event_title, has_dates])`. */
  function IndicatorCount(p: Page): nat
  {
    (if HasEventCategory(p) then 1 else 0) + (if HasEventTitle(p) then 1 else 0) + (if HasDates(p) then 1 else 0)
  }

  /**
   * A page that passes the three filters of `process_pages`: no non-event word in the lowered
   * title, at least two of the three event indicators, and the lowered city in the lowered
   * extract.
   */
  predicate IsEventPage(p: Page, city: string)
    ensures IsEventPage(p, city) ==> HasEventTitle(p) || HasEventCategory(p)
    ensures IsEventPage(p, city) ==> Contains(LoweredText(p), Lower(city))
  {
    !MentionsAny(LoweredTitle(p), NonEventKeywords) && IndicatorCount(p) >= 2 && Contains(LoweredText(p), Lower(city))
  }

  /** An event page needs at least one of the title and category indicators. */
  lemma EventPageHasKeyword(p: Page, city: string)
    requires IsEventPage(p, city)
    ensures HasEventTitle(p) || HasEventCategory(p)
    ensures !HasDates(p) ==> HasEventTitle(p) && HasEventCategory(p)
  {
  }

  // ---------------------------------------------------------------------------
  // The events of one page
  // ---------------------------------------------------------------------------

  const DescriptionLimit := 500

  /** `text[:500] + '...' if len(text) > 500 else text`. */
  function Description(text: string): (d: string)
    ensures |d| <= DescriptionLimit + 3
    ensures |text| <= DescriptionLimit ==> d == text
    ensures |text| > DescriptionLimit ==> |d| == DescriptionLimit + 3 && IsPrefix(d[..DescriptionLimit], text) && d[DescriptionLimit..] == "..."
  {
    if |text| > DescriptionLimit then text[..DescriptionLimit] + "..." else text
  }

  /** `any(str(year) in text for year in range(lo, hi + 1))`. */
  predicate MentionsYearIn(text: string, lo: int, hi: int)
  {
    exists y: nat :: lo <= y <= hi && Contains(text, DecimalText(y))
  }

  /** The event dictionary of a page for one date text. */
  function PageEvent(p: Page, date: string, cityCoords: Option<Coords>): (e: Event)
    ensures p.title.Some? ==> e.title == p.title.value
    ensures p.title.None? ==> e.title == UnknownEvent
    ensures e.date == date && e.coordinates == cityCoords
    ensures |LoweredText(p)| <= DescriptionLimit ==> e.description == LoweredText(p)
    ensures |LoweredText(p)| > DescriptionLimit ==>
              |e.description| == DescriptionLimit + 3 && IsPrefix(e.description[..DescriptionLimit], LoweredText(p))
    ensures e.url.Some? && (p.fullurl.Some? ==> e.url == p.fullurl) && (p.fullurl.None? ==> e.url == Some(""))
  {
    Event(p.title.GetOr(UnknownEvent), date, Description(LoweredText(p)), cityCoords, Some(p.fullurl.GetOr("")))
  }

  /** The loop over the page's dates: one event per date inside the era, unless excluded. */
  function DatedEvents(p: Page, dates: seq<Date>, rq: Request): (events: seq<Event>)
    requires IsEraRange(rq.era)
    requires forall d :: d in dates ==> IsValidDate(d)
    ensures forall e :: e in events ==>
              e == PageEvent(p, e.date, rq.cityCoords) && Admitted(e.title, rq.exclude) &&
              exists d :: d in dates && IsDateInRange(d, rq.era) && e.date == IsoText(d)
    decreases |dates|
  {
    if dates == [] then []
    else
      var before := DatedEvents(p, dates[..|dates| - 1], rq);
      var d := dates[|dates| - 1];
      if IsDateInRange(d, rq.era) && Admitted(p.title.GetOr(UnknownEvent), rq.exclude) then
        before + [PageEvent(p, IsoText(d), rq.cityCoords)]
      else before
  }

  /** The first day of the era, the date `process_pages` gives a page that only mentions a year. */
  function ApproximateDate(era: EraRange): (date: string)
    ensures IsEraRange(era) && |era.start| == 4 && MinYear <= StartYear(era) <= MaxYear ==>
              ParseIsoDateTime(date) == Some(Date(StartYear(era), 1, 1))
  {
    var s := era.start + "-01-01";
    if IsEraRange(era) && |era.start| == 4 && MinYear <= StartYear(era) <= MaxYear then
      assert s[..4] == era.start;
      assert s[5..7] == "01" && s[8..10] == "01";
      assert TwoDigitValue("01") == 1;
      assert DigitsValue(s[..4]) == StartYear(era);
      assert IsValidDate(Date(StartYear(era), 1, 1));
      s
    else s
  }

  /**
   * The events `process_pages` appends for a page it does not skip: none for a page that fails
   * the filters; one event dated to the start of the era for a page without dates but with an
   * event word in its title and some year of the era in its text; otherwise one per date of
   * the page inside the era.
   */
  function PageEvents(p: Page, rq: Request): (events: seq<Event>)
    requires IsEraRange(rq.era)
    ensures events != [] ==> IsEventPage(p, rq.city)
    ensures forall e :: e in events ==> e == PageEvent(p, e.date, rq.cityCoords) && Admitted(e.title, rq.exclude)
  {
    if !IsEventPage(p, rq.city) then []
    else if !HasDates(p) && HasEventTitle(p) && MentionsYearIn(LoweredText(p), StartYear(rq.era), EndYear(rq.era)) then
      if Admitted(p.title.GetOr(UnknownEvent), rq.exclude) then [PageEvent(p, ApproximateDate(rq.era), rq.cityCoords)] else []
    else
      DatesInWindow(p.scan, Patterns);
      DatedEvents(p, DatesIn(p.scan), rq)
  }

  /**
   * Every date a page event carries reads back (with `fromisoformat`) as a date inside the
   * era, for eras whose start is a four-digit year, as every entry of `ERA_RANGES` has.
   */
  lemma PageEventDatesInEra(p: Page, rq: Request, e: Event)
    requires IsEraRange(rq.era) && |rq.era.start| == 4 && MinYear <= StartYear(rq.era) <= MaxYear
    requires e in PageEvents(p, rq)
    ensures ParseIsoDateTime(e.date).Some?
    ensures IsDateInRange(ParseIsoDateTime(e.date).value, rq.era)
  {
    if !(!HasDates(p) && HasEventTitle(p) && MentionsYearIn(LoweredText(p), StartYear(rq.era), EndYear(rq.era))) {
      DatesInWindow(p.scan, Patterns);
      var d :| d in DatesIn(p.scan) && IsDateInRange(d, rq.era) && e.date == IsoText(d);
      IsoRoundTrip(d);
    }
  }

  /** The description of every page event is the lowered extract, cut at 500 characters. */
  lemma PageEventDescription(p: Page, rq: Request, e: Event)
    requires IsEraRange(rq.era)
    requires e in PageEvents(p, rq)
    ensures IsEventPage(p, rq.city)
    ensures e.title == p.title.GetOr(UnknownEvent) && Admitted(e.title, rq.exclude)
    ensures |LoweredText(p)| <= DescriptionLimit ==> e.description == LoweredText(p)
    ensures |LoweredText(p)| > DescriptionLimit ==> e.description == LoweredText(p)[..DescriptionLimit] + "..."
    ensures e.coordinates == rq.cityCoords && e.url == Some(p.fullurl.GetOr(""))
  {
  }

  /** One more date adds its event when it is inside the era and the title is admitted. */
  lemma DatedEventsStep(p: Page, dates: seq<Date>, i: int, rq: Request)
    requires IsEraRange(rq.era) && 0 <= i < |dates|
    requires forall d :: d in dates ==> IsValidDate(d)
    ensures var before := DatedEvents(p, dates[..i], rq);
            DatedEvents(p, dates[..i + 1], rq) ==
              if IsDateInRange(dates[i], rq.era) && Admitted(p.title.GetOr(UnknownEvent), rq.exclude)
              then before + [PageEvent(p, IsoText(dates[i]), rq.cityCoords)]
              else before
  {
    assert dates[..i + 1][..i] == dates[..i];
  }

  /** The loop of `process_pages` over the dates of one page. */
  method PageEventsOf(p: Page, rq: Request) returns (events: seq<Event>)
    requires IsEraRange(rq.era)
    ensures events == PageEvents(p, rq)
  {
    if !IsEventPage(p, rq.city) {
      return [];
    }
    var text := LoweredText(p);
    var dates := FindDatesInText(p.scan);
    var title := p.title.GetOr(UnknownEvent);
    if dates == [] && HasEventTitle(p) && MentionsYearIn(text, StartYear(rq.era), EndYear(rq.era)) {
      events := [];
      if rq.exclude.None? || title !in rq.exclude.value {
        events := [PageEvent(p, rq.era.start + "-01-01", rq.cityCoords)];
      }
      return;
    }
    events := [];
    var i := 0;
    while i < |dates|
      invariant 0 <= i <= |dates|
      invariant events == DatedEvents(p, dates[..i], rq)
    {
      var date := dates[i];
      DatedEventsStep(p, dates, i, rq);
      if IsDateInRange(date, rq.era) && (rq.exclude.None? || title !in rq.exclude.value) {
        events := events + [PageEvent(p, IsoText(date), rq.cityCoords)];
      }
      i := i + 1;
    }
    assert dates[..i] == dates;
  }

  // ---------------------------------------------------------------------------
  // Processed pages
  // ---------------------------------------------------------------------------

  /** `page_id in processed_page_ids or page.get('title') in processed_titles`. */
  predicate Skipped(entry: PageEntry, ids: set<string>, titles: set<string>)
  {
    entry.id in ids || (entry.page.title.Some? && entry.page.title.value in titles)
  }

  /** The events appended so far and the two processed sets. */
  datatype Progress = Progress(events: seq<Event>, ids: set<string>, titles: set<string>)

  /** One turn of the loop of `process_pages`. */
  function Step(st: Progress, entry: PageEntry, rq: Request): (r: Progress)
    requires IsEraRange(rq.era)
    ensures Skipped(entry, st.ids, st.titles) ==> r == st
    ensures !Skipped(entry, st.ids, st.titles) ==>
              |st.events| <= |r.events| && r.events[..|st.events|] == st.events &&
              r.events[|st.events|..] == PageEvents(entry.page, rq) &&
              r.ids == st.ids + {entry.id} && entry.page.title.GetOr("") in r.titles
  {
    if Skipped(entry, st.ids, st.titles) then st
    else Progress(st.events + PageEvents(entry.page, rq), st.ids + {entry.id}, st.titles + {entry.page.title.GetOr("")})
  }

  /** The pages in answer order, from a given start. */
  function ProcessAll(entries: seq<PageEntry>, st: Progress, rq: Request): (r: Progress)
    requires IsEraRange(rq.era)
    ensures st.ids <= r.ids && st.titles <= r.titles
    ensures forall id :: id in r.ids ==> id in st.ids || exists k :: 0 <= k < |entries| && entries[k].id == id
    ensures |st.events| <= |r.events| && r.events[..|st.events|] == st.events
    decreases |entries|
  {
    if entries == [] then st
    else Step(ProcessAll(entries[..|entries| - 1], st, rq), entries[|entries| - 1], rq)
  }

  /** Every event appended comes from an event page of the answer and is not excluded. */
  lemma {:induction false} ProcessAllEmitsEventPages(entries: seq<PageEntry>, st: Progress, rq: Request, i: int)
    requires IsEraRange(rq.era)
    requires |st.events| <= i < |ProcessAll(entries, st, rq).events|
    ensures var e := ProcessAll(entries, st, rq).events[i];
            Admitted(e.title, rq.exclude) &&
            exists k :: 0 <= k < |entries| && IsEventPage(entries[k].page, rq.city) &&
                        e == PageEvent(entries[k].page, e.date, rq.cityCoords)
    decreases |entries|
  {
    var n := |entries| - 1;
    var front := entries[..n];
    var mid := ProcessAll(front, st, rq);
    var e := ProcessAll(entries, st, rq).events[i];
    if i < |mid.events| {
      ProcessAllEmitsEventPages(front, st, rq, i);
      var k :| 0 <= k < |front| && IsEventPage(front[k].page, rq.city) && mid.events[i] == PageEvent(front[k].page, mid.events[i].date, rq.cityCoords);
      assert entries[k] == front[k];
    } else {
      var added := PageEvents(entries[n].page, rq);
      assert e == added[i - |mid.events|];
      assert e in added;
    }
  }

  /** A start in which every entry is skipped is left as it is. */
  lemma {:induction false} ProcessAllSkipped(entries: seq<PageEntry>, st: Progress, rq: Request)
    requires IsEraRange(rq.era)
    requires forall k :: 0 <= k < |entries| ==> Skipped(entries[k], st.ids, st.titles)
    ensures ProcessAll(entries, st, rq) == st
    decreases |entries|
  {
    if entries != [] {
      ProcessAllSkipped(entries[..|entries| - 1], st, rq);
    }
  }

  /** One turn marks its entry as processed and keeps every mark made before. */
  lemma StepMarks(st: Progress, entry: PageEntry, rq: Request)
    requires IsEraRange(rq.era)
    ensures var r := Step(st, entry, rq);
            Skipped(entry, r.ids, r.titles) && st.ids <= r.ids && st.titles <= r.titles
  {
  }

  /** After processing, every entry of the answer counts as processed. */
  lemma {:induction false} ProcessAllMarksEveryEntry(entries: seq<PageEntry>, st: Progress, rq: Request)
    requires IsEraRange(rq.era)
    ensures var r := ProcessAll(entries, st, rq);
            forall k :: 0 <= k < |entries| ==> Skipped(entries[k], r.ids, r.titles)
    decreases |entries|
  {
    if entries != [] {
      var n := |entries| - 1;
      var front := entries[..n];
      ProcessAllMarksEveryEntry(front, st, rq);
      var mid := ProcessAll(front, st, rq);
      var r := Step(mid, entries[n], rq);
      assert ProcessAll(entries, st, rq) == r;
      StepMarks(mid, entries[n], rq);
      forall k | 0 <= k < |entries| ensures Skipped(entries[k], r.ids, r.titles) {
        if k < n {
          assert entries[k] == front[k];
          assert Skipped(front[k], mid.ids, mid.titles);
        }
      }
    }
  }

  /** Each page is processed once: the same answer again, with the sets it left, adds nothing. */
  lemma ProcessAllOnce(entries: seq<PageEntry>, st: Progress, rq: Request)
    requires IsEraRange(rq.era)
    ensures var r := ProcessAll(entries, st, rq);
            ProcessAll(entries, r, rq) == r
  {
    ProcessAllMarksEveryEntry(entries, st, rq);
    ProcessAllSkipped(entries, ProcessAll(entries, st, rq), rq);
  }

  /** Processing two answers in turn is processing them as one, as the shared sets make it. */
  lemma {:induction false} ProcessAllAppend(a: seq<PageEntry>, b: seq<PageEntry>, st: Progress, rq: Request)
    requires IsEraRange(rq.era)
    ensures ProcessAll(a + b, st, rq) == ProcessAll(b, ProcessAll(a, st, rq), rq)
    decreases |b|
  {
    if b == [] {
      assert a + b == a;
    } else {
      var n := |b| - 1;
      assert (a + b)[..|a + b| - 1] == a + b[..n];
      assert (a + b)[|a + b| - 1] == b[n];
      ProcessAllAppend(a, b[..n], st, rq);
    }
  }

  /** The events appended from a start with earlier events are those appended from an empty list. */
  lemma {:induction false} ProcessAllEventsFrom(entries: seq<PageEntry>, pre: seq<Event>, ids: set<string>, titles: set<string>, rq: Request)
    requires IsEraRange(rq.era)
    ensures var r := ProcessAll(entries, Progress([], ids, titles), rq);
            ProcessAll(entries, Progress(pre, ids, titles), rq) == Progress(pre + r.events, r.ids, r.titles)
    decreases |entries|
  {
    if entries != [] {
      var n := |entries| - 1;
      var front, last := entries[..n], entries[n];
      ProcessAllEventsFrom(front, pre, ids, titles, rq);
      var mid0 := ProcessAll(front, Progress([], ids, titles), rq);
      var mid1 := ProcessAll(front, Progress(pre, ids, titles), rq);
      assert mid1 == Progress(pre + mid0.events, mid0.ids, mid0.titles);
      assert ProcessAll(entries, Progress(pre, ids, titles), rq) == Step(mid1, last, rq);
      assert ProcessAll(entries, Progress([], ids, titles), rq) == Step(mid0, last, rq);
      if !Skipped(last, mid0.ids, mid0.titles) {
        ConcatAssociates(pre, mid0.events, PageEvents(last.page, rq));
      }
    }
  }

  lemma ConcatAssociates(a: seq<Event>, b: seq<Event>, c: seq<Event>)
    ensures a + b + c == a + (b + c)
  {
  }

  /** The processed-page sets `fetch_pages_info` creates and `process_pages` updates. */
  class ProcessedPages {
    var ids: set<string>
    var titles: set<string>

    constructor()
      ensures ids == {} && titles == {}
    {
      ids := {};
      titles := {};
    }

    /** `process_pages`: the events of the answer's pages, with both sets updated. */
    method ProcessPages(pages: seq<PageEntry>, rq: Request) returns (events: seq<Event>)
      requires IsEraRange(rq.era)
      modifies this
      ensures var r := ProcessAll(pages, Progress([], old(ids), old(titles)), rq);
              events == r.events && ids == r.ids && titles == r.titles
    {
      events := [];
      var i := 0;
      while i < |pages|
        invariant 0 <= i <= |pages|
        invariant Progress(events, ids, titles) == ProcessAll(pages[..i], Progress([], old(ids), old(titles)), rq)
      {
        assert pages[..i + 1][..i] == pages[..i];
        var entry := pages[i];
        if !(entry.id in ids || (entry.page.title.Some? && entry.page.title.value in titles)) {
          ids := ids + {entry.id};
          titles := titles + {entry.page.title.GetOr("")};
          var found := PageEventsOf(entry.page, rq);
          events := events + found;
        }
        i := i + 1;
      }
      assert pages[..i] == pages;
    }
  }

  // ---------------------------------------------------------------------------
  // Batches of page ids
  // ---------------------------------------------------------------------------

  /** At most this many page ids go into one request. */
  const BatchSize := 35

  /** The lists in order, joined end to end. */
  function Concat(groups: seq<seq<string>>): seq<string>
  {
    if groups == [] then [] else groups[0] + Concat(groups[1..])
  }

  /**
   * `page_ids[i:i + 35]` for `i` in `range(0, len(page_ids), 35)`: consecutive non-empty groups
   * of at most 35 ids, all full but the last, `(len + 34) // 35` of them, which joined end to
   * end give back the ids.
   */
  function Batches(ids: seq<string>): (groups: seq<seq<string>>)
    ensures |groups| == (|ids| + BatchSize - 1) / BatchSize
    ensures forall k :: 0 <= k < |groups| ==> 1 <= |groups[k]| <= BatchSize
    ensures forall k :: 0 <= k < |groups| - 1 ==> |groups[k]| == BatchSize
    ensures Concat(groups) == ids
    decreases |ids|
  {
    if ids == [] then []
    else if |ids| <= BatchSize then
      assert Concat([ids]) == ids + Concat([]);
      [ids]
    else
      var rest := Batches(ids[BatchSize..]);
      var groups := [ids[..BatchSize]] + rest;
      assert groups[1..] == rest;
      assert ids == ids[..BatchSize] + ids[BatchSize..];
      groups
  }

  /** The end of the slice `page_ids[i:i + 35]` of a list of `n` ids, for `i = BatchSize * k`. */
  function SliceEnd(n: nat, k: nat): nat
  {
    if BatchSize * k + BatchSize <= n then BatchSize * k + BatchSize else n
  }

  /** A slice of a suffix is a slice of the whole, shifted by where the suffix starts. */
  lemma SliceOfSuffix(s: seq<string>, a: nat, lo: nat, hi: nat)
    requires a <= |s| && lo <= hi <= |s| - a
    ensures s[a..][lo..hi] == s[a + lo..a + hi]
  {
  }

  /** One step of `Batches`: a single group for at most 35 ids, else the first 35 and the rest. */
  lemma BatchesUnfold(ids: seq<string>)
    ensures 0 < |ids| <= BatchSize ==> Batches(ids) == [ids]
    ensures |ids| > BatchSize ==> Batches(ids) == [ids[..BatchSize]] + Batches(ids[BatchSize..])
  {
  }

  /** Group `k` is the slice of the ids that starts at `BatchSize * k`. */
  lemma {:induction false} BatchesAreSlices(ids: seq<string>, k: nat)
    requires k < |Batches(ids)|
    ensures BatchSize * k < |ids| && SliceEnd(|ids|, k) <= |ids|
    ensures Batches(ids)[k] == ids[BatchSize * k..SliceEnd(|ids|, k)]
    decreases |ids|
  {
    BatchesUnfold(ids);
    if |ids| <= BatchSize {
      assert k == 0 && SliceEnd(|ids|, 0) == |ids|;
      assert ids[0..|ids|] == ids;
    } else if k == 0 {
      assert SliceEnd(|ids|, 0) == BatchSize;
    } else {
      var rest := ids[BatchSize..];
      var j := k - 1;
      BatchesAreSlices(rest, j);
      var lo, hi := BatchSize * j, SliceEnd(|rest|, j);
      SliceOfSuffix(ids, BatchSize, lo, hi);
      assert Batches(ids)[k] == ids[BatchSize + lo..BatchSize + hi];
      assert BatchSize * k == BatchSize + lo;
      assert SliceEnd(|ids|, k) == BatchSize + hi;
    }
  }

  /** A further group after whole groups of 35 becomes the last batch. */
  lemma {:induction false} BatchesAppend(a: seq<string>, g: seq<string>)
    requires |a| % BatchSize == 0 && 1 <= |g| <= BatchSize
    ensures Batches(a + g) == Batches(a) + [g]
    decreases |a|
  {
    if a == [] {
      assert a + g == g;
    } else {
      assert (a + g)[..BatchSize] == a[..BatchSize];
      assert (a + g)[BatchSize..] == a[BatchSize..] + g;
      BatchesAppend(a[BatchSize..], g);
      if |a| == BatchSize {
        assert a[BatchSize..] == [];
        assert a[..BatchSize] == a;
      }
    }
  }

  // ---------------------------------------------------------------------------
  // The module-level cache
  // ---------------------------------------------------------------------------

  /** `cache['page_info']` together with the state of the processing of the groups. */
  datatype Fetched = Fetched(pageInfo: map<string, seq<PageEntry>>, progress: Progress)

  /** `','.join(group)`, the cache key of a group. */
  function GroupKey(group: seq<string>): string
  {
    Join(group, ",")
  }

  /**
   * One group of `fetch_pages_info`: cached pages when the key is present; otherwise the
   * answer of `request(group)`, cached and processed, or nothing when the request fails.
   */
  function FetchGroup(st: Fetched, group: seq<string>, rq: Request, request: seq<string> -> Option<seq<PageEntry>>): (r: Fetched)
    requires IsEraRange(rq.era)
    ensures forall key :: key in st.pageInfo ==> key in r.pageInfo && r.pageInfo[key] == st.pageInfo[key]
    ensures r.pageInfo.Keys <= st.pageInfo.Keys + {GroupKey(group)}
    ensures GroupKey(group) in r.pageInfo <==> GroupKey(group) in st.pageInfo || request(group).Some?
    ensures GroupKey(group) !in st.pageInfo && request(group).Some? ==> r.pageInfo[GroupKey(group)] == request(group).value
    ensures GroupKey(group) in r.pageInfo ==> r.progress == ProcessAll(r.pageInfo[GroupKey(group)], st.progress, rq)
    ensures GroupKey(group) !in r.pageInfo ==> r == st
  {
    var key := GroupKey(group);
    if key in st.pageInfo then Fetched(st.pageInfo, ProcessAll(st.pageInfo[key], st.progress, rq))
    else match request(group)
      case None => st
      case Some(pages) => Fetched(st.pageInfo[key := pages], ProcessAll(pages, st.progress, rq))
  }

  /** The groups in order. The cache only gains keys, and a cached answer is never replaced. */
  function FetchAll(groups: seq<seq<string>>, st: Fetched, rq: Request, request: seq<string> -> Option<seq<PageEntry>>): (r: Fetched)
    requires IsEraRange(rq.era)
    ensures forall key :: key in st.pageInfo ==> key in r.pageInfo && r.pageInfo[key] == st.pageInfo[key]
    decreases |groups|
  {
    if groups == [] then st
    else FetchGroup(FetchAll(groups[..|groups| - 1], st, rq, request), groups[|groups| - 1], rq, request)
  }

  /** Every group whose request succeeds ends up in the cache. */
  lemma {:induction false} FetchAllCachesAnswers(groups: seq<seq<string>>, st: Fetched, rq: Request, request: seq<string> -> Option<seq<PageEntry>>, k: int)
    requires IsEraRange(rq.era)
    requires 0 <= k < |groups| && request(groups[k]).Some?
    ensures GroupKey(groups[k]) in FetchAll(groups, st, rq, request).pageInfo
    decreases |groups|
  {
    var n := |groups| - 1;
    if k < n {
      FetchAllCachesAnswers(groups[..n], st, rq, request, k);
      assert groups[..n][k] == groups[k];
    }
  }

  /** When every group is cached, the requests are never made: any two give the same result. */
  lemma {:induction false} FetchAllFromCache(groups: seq<seq<string>>, st: Fetched, rq: Request,
                                             request1: seq<string> -> Option<seq<PageEntry>>,
                                             request2: seq<string> -> Option<seq<PageEntry>>)
    requires IsEraRange(rq.era)
    requires forall k :: 0 <= k < |groups| ==> GroupKey(groups[k]) in st.pageInfo
    ensures FetchAll(groups, st, rq, request1) == FetchAll(groups, st, rq, request2)
    decreases |groups|
  {
    if groups != [] {
      var n := |groups| - 1;
      FetchAllFromCache(groups[..n], st, rq, request1, request2);
      assert GroupKey(groups[n]) in st.pageInfo;
    }
  }

  /** `done` whole groups of 35 ids. */
  lemma WholeBatches(done: nat)
    ensures (BatchSize * done) % BatchSize == 0
  {
  }

  /** The batches of the first `35 * done` ids, followed by the next batch. */
  lemma FetchAllNextBatch(ids: seq<string>, done: nat, st: Fetched, rq: Request, request: seq<string> -> Option<seq<PageEntry>>)
    requires IsEraRange(rq.era)
    requires BatchSize * done < |ids|
    ensures var i := BatchSize * done;
            var j := if i + BatchSize <= |ids| then i + BatchSize else |ids|;
            FetchAll(Batches(ids[..j]), st, rq, request)
            == FetchGroup(FetchAll(Batches(ids[..i]), st, rq, request), ids[i..j], rq, request)
  {
    var i := BatchSize * done;
    var j := if i + BatchSize <= |ids| then i + BatchSize else |ids|;
    assert ids[..j] == ids[..i] + ids[i..j];
    WholeBatches(done);
    BatchesAppend(ids[..i], ids[i..j]);
    var groups := Batches(ids[..j]);
    assert groups[..|groups| - 1] == Batches(ids[..i]);
  }

  /** Some group of `groups` has its key in the page cache, so `process_pages` ran for it. */
  predicate SomeGroupCached(groups: seq<seq<string>>, pageInfo: map<string, seq<PageEntry>>)
  {
    exists k :: 0 <= k < |groups| && GroupKey(groups[k]) in pageInfo
  }

  /** Adding a group to the end, and letting the cache gain keys. */
  lemma SomeGroupCachedStep(groups: seq<seq<string>>, g: seq<string>, p: map<string, seq<PageEntry>>, q: map<string, seq<PageEntry>>)
    requires p.Keys <= q.Keys
    ensures SomeGroupCached(groups + [g], q) <==> SomeGroupCached(groups, q) || GroupKey(g) in q
    ensures SomeGroupCached(groups, p) ==> SomeGroupCached(groups, q)
  {
    if SomeGroupCached(groups + [g], q) {
      var k :| 0 <= k < |groups| + 1 && GroupKey((groups + [g])[k]) in q;
      if k < |groups| {
        assert (groups + [g])[k] == groups[k];
      }
    }
    if SomeGroupCached(groups, q) {
      var k :| 0 <= k < |groups| && GroupKey(groups[k]) in q;
      assert (groups + [g])[k] == groups[k];
    }
    if GroupKey(g) in q {
      assert (groups + [g])[|groups|] == g;
    }
  }

  /** `cache['city_ids']` after the groups: the city looked up once if `process_pages` ran at all. */
  function CityIdsAfter(groups: seq<seq<string>>, pageInfo: map<string, seq<PageEntry>>, cityIds: map<string, string>,
                        city: string, found: Option<string>): map<string, string>
  {
    if SomeGroupCached(groups, pageInfo) then LookupCity(cityIds, city, found).1 else cityIds
  }

  /**
   * The city cache after one more group: a group that `process_pages` ran for looks the city
   * up, and a second lookup of a cached city changes nothing.
   */
  lemma CityCacheStep(groups: seq<seq<string>>, g: seq<string>, p: map<string, seq<PageEntry>>, q: map<string, seq<PageEntry>>,
                      c0: map<string, string>, c1: map<string, string>, c2: map<string, string>, city: string, found: Option<string>)
    requires p.Keys <= q.Keys && (GroupKey(g) !in q ==> q == p)
    requires c1 == CityIdsAfter(groups, p, c0, city, found)
    requires GroupKey(g) in q ==> c2 == LookupCity(c1, city, found).1
    requires GroupKey(g) !in q ==> c2 == c1
    ensures c2 == CityIdsAfter(groups + [g], q, c0, city, found)
  {
    SomeGroupCachedStep(groups, g, p, q);
    LookupCityCaches(c0, city, found, found);
  }

  /** The groups of the first `35 * done` ids, and the next group after them. */
  lemma BatchesNext(ids: seq<string>, done: nat)
    requires BatchSize * done < |ids|
    ensures var i := BatchSize * done;
            var j := if i + BatchSize <= |ids| then i + BatchSize else |ids|;
            Batches(ids[..j]) == Batches(ids[..i]) + [ids[i..j]]
  {
    var i := BatchSize * done;
    var j := if i + BatchSize <= |ids| then i + BatchSize else |ids|;
    assert ids[..j] == ids[..i] + ids[i..j];
    WholeBatches(done);
    BatchesAppend(ids[..i], ids[i..j]);
  }

  /** One turn of the loop of `fetch_pages_info`, on the page cache, the progress and the city cache. */
  lemma NextBatchStep(ids: seq<string>, done: nat, st: Fetched, rq: Request, request: seq<string> -> Option<seq<PageEntry>>,
                      c0: map<string, string>, found: Option<string>,
                      before: Fetched, cachedBefore: map<string, string>, after: Fetched, cachedAfter: map<string, string>)
    requires IsEraRange(rq.era)
    requires BatchSize * done < |ids|
    requires var i := BatchSize * done;
             before == FetchAll(Batches(ids[..i]), st, rq, request) &&
             cachedBefore == CityIdsAfter(Batches(ids[..i]), before.pageInfo, c0, rq.city, found)
    requires var i := BatchSize * done;
             var j := if i + BatchSize <= |ids| then i + BatchSize else |ids|;
             after == FetchGroup(before, ids[i..j], rq, request) &&
             (GroupKey(ids[i..j]) in after.pageInfo ==> cachedAfter == LookupCity(cachedBefore, rq.city, found).1) &&
             (GroupKey(ids[i..j]) !in after.pageInfo ==> cachedAfter == cachedBefore)
    ensures var i := BatchSize * done;
            var j := if i + BatchSize <= |ids| then i + BatchSize else |ids|;
            after == FetchAll(Batches(ids[..j]), st, rq, request) &&
            cachedAfter == CityIdsAfter(Batches(ids[..j]), after.pageInfo, c0, rq.city, found)
  {
    var i := BatchSize * done;
    var j := if i + BatchSize <= |ids| then i + BatchSize else |ids|;
    FetchAllNextBatch(ids, done, st, rq, request);
    BatchesNext(ids, done);
    CityCacheStep(Batches(ids[..i]), ids[i..j], before.pageInfo, after.pageInfo, c0, cachedBefore, cachedAfter, rq.city, found);
  }

  /**
   * `cache['city_ids']` as `get_city_wikidata_id` reads and writes it: a cached id is returned
   * as it is; otherwise the id `found` by the search (when there is one) is returned and cached.
   */
  function LookupCity(cityIds: map<string, string>, name: string, found: Option<string>): (r: (Option<string>, map<string, string>))
    ensures name in cityIds ==> r.0 == Some(cityIds[name])
    ensures name !in cityIds ==> r.0 == found
    ensures r.0.Some? ==> name in r.1 && r.1[name] == r.0.value
    ensures forall n :: n in cityIds ==> n in r.1 && r.1[n] == cityIds[n]
    ensures r.1.Keys <= cityIds.Keys + {name}
    ensures r.0.None? ==> r.1 == cityIds
  {
    if name in cityIds then (Some(cityIds[name]), cityIds)
    else if found.Some? then (found, cityIds[name := found.value])
    else (None, cityIds)
  }

  /**
   * Once a city's id is found, every later lookup returns it without searching; a failed
   * search caches nothing.
   */
  lemma LookupCityCaches(cityIds: map<string, string>, name: string, found: Option<string>, later: Option<string>)
    ensures var (id, after) := LookupCity(cityIds, name, found);
            (id.Some? ==> LookupCity(after, name, later) == (id, after)) &&
            (id.None? ==> after == cityIds && LookupCity(after, name, later).0 == later)
    ensures name !in cityIds ==> LookupCity(cityIds, name, found).0 == found
  {
  }

  /** The module-level `cache` dictionary of `api_utils`. */
  class ApiCache {
    var cityIds: map<string, string>
    var pageInfo: map<string, seq<PageEntry>>

    constructor()
      ensures cityIds == map[] && pageInfo == map[]
    {
      cityIds := map[];
      pageInfo := map[];
    }

    /**
     * `get_city_wikidata_id`; `found` is the id of the first search hit, or `None` when the
     * request fails or finds nothing.
     */
    method GetCityWikidataId(name: string, found: Option<string>) returns (id: Option<string>)
      modifies this
      ensures (id, cityIds) == LookupCity(old(cityIds), name, found)
      ensures pageInfo == old(pageInfo)
    {
      if name in cityIds {
        return Some(cityIds[name]);
      }
      if found.Some? {
        cityIds := cityIds[name := found.value];
      }
      id := found;
    }

    /**
     * One group of `fetch_pages_info`, with the events so far and the shared processed sets.
     * Each run of `process_pages` first looks the city up with `get_city_wikidata_id`;
     * `cityFound` is what the search would answer.
     */
    method FetchGroupInto(group: seq<string>, rq: Request, request: seq<string> -> Option<seq<PageEntry>>,
                          cityFound: Option<string>, seen: ProcessedPages, events: seq<Event>)
      returns (result: seq<Event>)
      requires IsEraRange(rq.era)
      modifies this, seen
      ensures Fetched(pageInfo, Progress(result, seen.ids, seen.titles))
              == FetchGroup(Fetched(old(pageInfo), Progress(events, old(seen.ids), old(seen.titles))), group, rq, request)
      ensures GroupKey(group) in pageInfo ==> cityIds == LookupCity(old(cityIds), rq.city, cityFound).1
      ensures GroupKey(group) !in pageInfo ==> cityIds == old(cityIds)
    {
      var key := Join(group, ",");
      result := events;
      if key in pageInfo {
        var cityId := GetCityWikidataId(rq.city, cityFound);
        var found := seen.ProcessPages(pageInfo[key], rq);
        ProcessAllEventsFrom(pageInfo[key], events, old(seen.ids), old(seen.titles), rq);
        result := events + found;
      } else {
        var answer := request(group);
        if answer.Some? {
          pageInfo := pageInfo[key := answer.value];
          var cityId := GetCityWikidataId(rq.city, cityFound);
          var found := seen.ProcessPages(answer.value, rq);
          ProcessAllEventsFrom(answer.value, events, old(seen.ids), old(seen.titles), rq);
          result := events + found;
        }
      }
    }

    /**
     * `fetch_pages_info`: the groups of 35 ids in turn, each answered from the cache or by
     * `request`, with one pair of processed sets shared by all groups.
     */
    method FetchPagesInfo(pageIds: seq<string>, rq: Request, request: seq<string> -> Option<seq<PageEntry>>,
                          cityFound: Option<string>)
      returns (events: seq<Event>)
      requires IsEraRange(rq.era)
      modifies this
      ensures var r := FetchAll(Batches(pageIds), Fetched(old(pageInfo), Progress([], {}, {})), rq, request);
              events == r.progress.events && pageInfo == r.pageInfo
      ensures cityIds == CityIdsAfter(Batches(pageIds), pageInfo, old(cityIds), rq.city, cityFound)
    {
      var seen := new ProcessedPages();
      events := [];
      var i := 0;
      ghost var done := 0;
      while i < |pageIds|
        invariant 0 <= i <= |pageIds| && (i < |pageIds| ==> i == BatchSize * done)
        invariant Fetched(pageInfo, Progress(events, seen.ids, seen.titles))
                  == FetchAll(Batches(pageIds[..i]), Fetched(old(pageInfo), Progress([], {}, {})), rq, request)
        invariant cityIds == CityIdsAfter(Batches(pageIds[..i]), pageInfo, old(cityIds), rq.city, cityFound)
      {
        events, i := FetchNextBatch(pageIds, i, done, rq, request, cityFound, seen, events,
                                    Fetched(old(pageInfo), Progress([], {}, {})), old(cityIds));
        done := done + 1;
      }
      assert pageIds[..i] == pageIds;
    }

    /** The body of the loop of `fetch_pages_info`: the group `page_ids[i:i + 35]`. */
    method FetchNextBatch(pageIds: seq<string>, i: nat, ghost done: nat, rq: Request,
                          request: seq<string> -> Option<seq<PageEntry>>, cityFound: Option<string>,
                          seen: ProcessedPages, events: seq<Event>, ghost start: Fetched, ghost startCities: map<string, string>)
      returns (result: seq<Event>, j: nat)
      requires IsEraRange(rq.era)
      requires i == BatchSize * done && i < |pageIds|
      requires Fetched(pageInfo, Progress(events, seen.ids, seen.titles)) == FetchAll(Batches(pageIds[..i]), start, rq, request)
      requires cityIds == CityIdsAfter(Batches(pageIds[..i]), pageInfo, startCities, rq.city, cityFound)
      modifies this, seen
      ensures j == if i + BatchSize <= |pageIds| then i + BatchSize else |pageIds|
      ensures Fetched(pageInfo, Progress(result, seen.ids, seen.titles)) == FetchAll(Batches(pageIds[..j]), start, rq, request)
      ensures cityIds == CityIdsAfter(Batches(pageIds[..j]), pageInfo, startCities, rq.city, cityFound)
    {
      j := if i + BatchSize <= |pageIds| then i + BatchSize else |pageIds|;
      ghost var before, cachedBefore := Fetched(pageInfo, Progress(events, seen.ids, seen.titles)), cityIds;
      result := FetchGroupInto(pageIds[i..j], rq, request, cityFound, seen, events);
      NextBatchStep(pageIds, done, start, rq, request, startCities, cityFound,
                    before, cachedBefore, Fetched(pageInfo, Progress(result, seen.ids, seen.titles)), cityIds);
    }
  }
}
