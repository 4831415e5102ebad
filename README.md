# Дневной Петербург — a verified model of the event pipeline, the bot and the map page

The system is a Telegram bot and a companion map page. The bot shows one historical event at
a time for a user's city and chosen era. The map page lays the events of a period out on a map.
Events come from two sources:

- Wikidata: SPARQL bindings of label, date, description and `Point(lon lat)` coordinates;
- Wikipedia: page extracts that are classified as event pages and searched for dates.

This project models three parts of that system in Dafny:

- **Event extraction and aggregation** (`tg_bot/api_utils.py`):
  - date recognition on captured regex groups;
  - era-range membership;
  - the Wikipedia page classification and once-only processing;
  - batching of page ids by 35, and the page-info and city-id caches;
  - turning a Wikidata binding into an event, with the coordinate fallbacks;
  - the exclusion filter;
  - merging the two sources by label;
  - the Telegram message and its map deep link.
- **Bot conversation state** (`tg_bot/bot.py`):
  - the class `Bot.BotState` holds `user_data`, `subscribers` and the per-user `temp_hour`;
  - its handler methods are `start`, `select_city`, `select_era`, `get_historical_event`, `subscribe`, `select_time`, `unsubscribe` and `main_menu`.
- **Map page state** (`app.js`):
  - the class `WebApp.App` holds the global `APP` record;
  - its methods are `init`, `checkAuth`, `findCityWikidataId`, `loadUserEvents`, `displayEvents`, `updateEvent`, `logout` and the registration handler;
  - pure functions model the period table and the binding-to-event map.

Every imperative step is a `method` whose `ensures` ties the new state to a pure function of
the old state and the inputs. The properties are proved about those functions. Network answers,
the clock, the random choice and percent-encoding are parameters.

Modules, one file each:

| module | file |
|---|---|
| `Wrappers` | `wrappers.dfy` |
| `Text` | `text.dfy` |
| `Dates` | `dates.dfy` |
| `Events` | `events.dfy` |
| `Wikidata` | `wikidata.dfy` |
| `Wikipedia` | `wikipedia.dfy` |
| `Aggregate` | `aggregate.dfy` |
| `EventMessage` | `message.dfy` |
| `Bot` | `bot.dfy` |
| `WebApp` | `webapp.dfy` |

## Model

| member | source | states |
|---|---|---|
| Text.Lower | tg_bot/api_utils.py:349-350 | Lowering keeps the length and lowers each character on its own. |
| Text.LowerIdempotent | tg_bot/api_utils.py:349-353 | `title.lower()` applied again to the lowered title changes nothing. |
| Text.ContainsIffOccurs | tg_bot/api_utils.py:353 | The `keyword in text` test holds exactly when the keyword occurs at some index of the text. |
| Text.Split | tg_bot/bot.py:205 | `str.split(sep)` gives at least one field, and no field contains the separator. |
| Text.JoinSplit | tg_bot/bot.py:205 | Joining the fields of a split with the separator gives back the original text. |
| Text.SplitJoin | tg_bot/bot.py:205 | Splitting a join of separator-free fields gives back those fields. |
| Text.SplitSeparatorFreePrefix | tg_bot/bot.py:205 | A separator-free prefix only extends the first field of the split. |
| Text.SplitFirstIsPrefix | tg_bot/bot.py:205 | The first field of a split is a prefix of the text. |
| Text.SplitEndsWith | app.js:105 | A text ending in separator plus a separator-free field splits into two or more fields, and the last field is that one. |
| Text.LastField | app.js:105 | `split('/').pop()` never contains a `/`. |
| Text.LastFieldAfterSeparator | app.js:105 | `split('/').pop()` of `prefix/id` is exactly `id` when `id` has no `/`. |
| Text.ReplaceFirstChar | app.js:194 | JavaScript's `replace` with a string pattern replaces only the first occurrence and leaves the rest of the text alone. |
| Text.DecimalText | tg_bot/api_utils.py:391 | `str(year)` is a non-empty digit string with no leading zero, and `int()` reads it back as the year. |
| Text.Pad2 | tg_bot/api_utils.py:410 | Zero-padding to two digits gives two digits that `int()` reads back as the number. |
| Text.DigitChar | tg_bot/api_utils.py:410 | The digit character of a digit value reads back as that value. |
| Text.DigitsValueStep | tg_bot/api_utils.py:476 | Reading one more digit multiplies the value so far by ten and adds that digit. |
| Dates.DaysInMonth | tg_bot/api_utils.py:461 | Every month of the proleptic Gregorian calendar has 28 to 31 days. |
| Dates.FebruaryDays | tg_bot/api_utils.py:461 | 29 February is a valid date exactly in a leap year, and 30 February never is. |
| Dates.MonthMapIsNumbering | tg_bot/api_utils.py:437-441 | `month_map` has exactly the twelve genitive month names as keys, and each maps to its 1-based position. |
| Dates.MonthNumberOfName | tg_bot/api_utils.py:437-441 | The m-th month name maps to m. |
| Dates.MonthNamesAreLowerCase | tg_bot/api_utils.py:451 | The month names are already lower case, so `month.lower()` finds them. |
| Dates.MonthNameRead | tg_bot/api_utils.py:451 | A captured month name, after `lower()`, maps back to its number. |
| Dates.Convert | tg_bot/api_utils.py:449-469 | A converted match is always a valid calendar date whose year is in 800..2100. |
| Dates.FieldsWritten | tg_bot/api_utils.py:449-459 | Each pattern reads its fields in its own order: day/month-name/year, year/month/day or day/month/year. Reading the groups that pattern writes gives the same date back. |
| Dates.ConvertWritten | tg_bot/api_utils.py:449-469 | Groups written for a date convert to that date if it is valid and its year is in 800..2100. Otherwise they are dropped without error. |
| Dates.MonthThirteenDropped | tg_bot/api_utils.py:458-469 | A numeric date with month 13 is dropped under both numeric patterns. |
| Dates.DatesFrom | tg_bot/api_utils.py:447-466 | At most one date is kept per match, and every kept date is valid with a year in 800..2100. |
| Dates.DatesInPatternOrder | tg_bot/api_utils.py:445-463 | The result lists all month-name dates first, then year-month-day dates, then day-month-year dates, each group in text order and with no deduplication. |
| Dates.DatesFromAppend | tg_bot/api_utils.py:447-463 | Converting two runs of matches one after the other gives the two results concatenated. |
| Dates.DatesInWindow | tg_bot/api_utils.py:461-466 | The dates found over any list of patterns are all valid and in 800..2100. |
| Dates.FindDatesInText | tg_bot/api_utils.py:426-472 | The nested loops return exactly the pattern-by-pattern result, and every date in it is in the year window. |
| Dates.EraTableKeys | tg_bot/api_utils.py:32-38 | `ERA_RANGES` has exactly the five era keys, and each has four-digit start and end years. |
| Dates.RangeYears | tg_bot/api_utils.py:476-477 | `int()` of an era's four-digit start and end texts gives their decimal values. |
| Dates.EraTable | tg_bot/api_utils.py:32-38 | The era bounds are 800–1547, 1547–1721, 1721–1917, 1917–1991 and 1991 to the current year. |
| Dates.SharedBoundaries | tg_bot/api_utils.py:474-478 | The range test is inclusive at both ends, so a date in 1547, 1721, 1917 or 1991 lies in both adjacent eras. |
| Dates.YearText | tg_bot/api_utils.py:410 | `%Y` writes a year below 10000 as four digits that read back as the year. |
| Dates.TwoDigitValue | tg_bot/api_utils.py:518 | A two-digit field reads as a number below 100. |
| Dates.ParseIsoDateTime | tg_bot/api_utils.py:518 | `fromisoformat` only yields valid calendar dates. |
| Dates.IsoRoundTrip | tg_bot/api_utils.py:517-519 | `fromisoformat` of a `%Y-%m-%d` text, as written at line 410, gives back the date. |
| Dates.IsoTimeRoundTrip | tg_bot/api_utils.py:518 | `fromisoformat` of a date followed by a separator and a time gives back the date. |
| Dates.ReplaceCharAppend | tg_bot/api_utils.py:518 | `replace` distributes over concatenation. |
| Dates.ReplaceCharAbsent | tg_bot/api_utils.py:518 | `replace` of a character the text lacks changes nothing. |
| Dates.ReplaceCharFinal | tg_bot/api_utils.py:518 | A single final `Z` is replaced by `+00:00`. |
| Dates.IsoTextHasNoZ | tg_bot/api_utils.py:518 | A `%Y-%m-%d` text has no `Z` to replace. |
| Dates.MidnightUtcIsTime | tg_bot/api_utils.py:518 | `00:00:00+00:00` is a time `fromisoformat` accepts. |
| Dates.WikidataTimestampOffset | tg_bot/api_utils.py:518 | A Wikidata timestamp `…T00:00:00Z` becomes `…T00:00:00+00:00`. |
| Dates.IsoDateDisplayed | tg_bot/api_utils.py:517-519 | A Wikipedia event date is shown as `dd.mm.yyyy` of the same date. |
| Dates.WikidataDateDisplayed | tg_bot/api_utils.py:517-519 | A Wikidata timestamp is shown as `dd.mm.yyyy` of its date. |
| Dates.DisplayDate | tg_bot/api_utils.py:516-521 | A stored date the modelled `fromisoformat` rejects (after `Z` becomes `+00:00`) is shown as stored. A readable one is shown as ten characters `dd.mm.yyyy` whose three digit fields read back as the parsed day, month and year. |
| Events.Labels | tg_bot/api_utils.py:504-505 | The labels of a list of events, one per event and in order. |
| Wikidata.CoordRun | tg_bot/api_utils.py:134 | `[-\d.]+` matches the longest run of coordinate characters at the start of the text. |
| Wikidata.MatchGroups | tg_bot/api_utils.py:134 | The two groups after `Point(` are coordinate texts, followed by a space and a `)`. |
| Wikidata.MatchPoint | tg_bot/api_utils.py:134 | A match's groups are coordinate texts, and `Point(x y)` is a prefix of the value; `re.match` anchors only at the start. |
| Wikidata.MatchGroupsWritten | tg_bot/api_utils.py:134 | The text `x y)` followed by anything yields the groups `x` and `y`. |
| Wikidata.MatchPointWritten | tg_bot/api_utils.py:134 | Any value that starts with `Point(x y)` matches with groups `x` and `y`. |
| Wikidata.FloatTextIsCoordText | tg_bot/api_utils.py:134-136 | Every text `float()` accepts in the regex alphabet is also a coordinate text. |
| Wikidata.BindingCoordinates | tg_bot/api_utils.py:130-146 | A missing `coord` gives the city coordinates. A value the regex does not match gives none. Coordinates other than the city's are two float texts swapped from a `Point(lon lat)` prefix of the value. |
| Wikidata.BindingCoordinatesCases | tg_bot/api_utils.py:130-147 | `Point(x y)` with two floats gives `[y, x]`. A float failure falls back to the city coordinates. A value the regex does not match, in particular one without `Point(`, gives none whatever the city coordinates. A missing `coord` gives the city coordinates. |
| Wikidata.BindingCoordinatesFromPoint | tg_bot/api_utils.py:130-137 | Without city coordinates, a binding has coordinates exactly when its value starts with a `Point(x y)` of two floats. |
| Wikidata.BindingEvent | tg_bot/api_utils.py:123-146 | The event takes the binding's label, date and description, with `Неизвестное событие`, `Неизвестная дата` and the empty text for missing ones. Its coordinates follow the coordinate rule, and it has no URL. |
| Wikidata.EventsOf | tg_bot/api_utils.py:121-151 | At most one event is made per binding, and no event's label is excluded. |
| Wikidata.EventsOfMembers | tg_bot/api_utils.py:122-150 | An event is emitted exactly when some binding makes it and its label is not excluded. |
| Wikidata.EventsOfUnfiltered | tg_bot/api_utils.py:122-150 | Without an exclusion set, every binding yields its event, in order. |
| Wikidata.WikidataEvents | tg_bot/api_utils.py:121-151 | The binding loop returns exactly the filtered events. |
| Wikidata.FetchWikidataEvents | tg_bot/api_utils.py:66-164 | An unknown era or a failed request gives no events. Otherwise the result is the filtered events of the answer. |
| Wikipedia.IsEventPage | tg_bot/api_utils.py:353-384 | An accepted page has an event title or an event category, and its lowered extract mentions the lowered city. |
| Wikipedia.EventPageHasKeyword | tg_bot/api_utils.py:362-376 | An accepted page has an event title or an event category, and both when it has no dates. |
| Wikipedia.Description | tg_bot/api_utils.py:396 | An extract of 500 characters or fewer is kept whole. A longer one becomes its first 500 characters plus `...`. |
| Wikipedia.PageEvent | tg_bot/api_utils.py:408-415 | A page event carries the page title (or `Неизвестное событие`), the given date, the lowered extract kept whole up to 500 characters and cut to 500 plus `...` beyond, the city coordinates, and the page URL (or the empty text). |
| Wikipedia.DatedEvents | tg_bot/api_utils.py:406-419 | Each event comes from one found date inside the era and carries that date as `%Y-%m-%d`, and its label is not excluded. |
| Wikipedia.DatedEventsStep | tg_bot/api_utils.py:406-419 | One more date adds one event when it is in the era and the label is admitted, and nothing otherwise. |
| Wikipedia.PageEvents | tg_bot/api_utils.py:341-421 | A page yields events only if it passes the classification and city test. Every event is made from the page and has an admitted label. |
| Wikipedia.PageEventDatesInEra | tg_bot/api_utils.py:391-419 | Every event date of a page, dated or approximate, parses to a date inside the era. |
| Wikipedia.ApproximateDate | tg_bot/api_utils.py:395 | For a four-digit era start, the approximate date `start-01-01` parses to 1 January of the era's start year. |
| Wikipedia.PageEventDescription | tg_bot/api_utils.py:393-415 | A page event has the page's title, a truncated lowered extract, the city coordinates and the page URL. |
| Wikipedia.PageEventsOf | tg_bot/api_utils.py:386-421 | The loop over found dates returns exactly the page's events. |
| Wikipedia.Step | tg_bot/api_utils.py:341-347 | A page whose id or title was processed changes nothing. Any other page keeps the earlier events as a prefix, appends exactly its page events, and marks its id and title. |
| Wikipedia.ProcessAll | tg_bot/api_utils.py:341-347 | The processed sets only grow, and only by ids of the pages given. Earlier events are kept as a prefix. |
| Wikipedia.ProcessAllEmitsEventPages | tg_bot/api_utils.py:341-421 | Every emitted event has an admitted label and comes from a page given that passes the classification. |
| Wikipedia.ProcessAllSkipped | tg_bot/api_utils.py:342-344 | Pages whose id or title was already processed change nothing. |
| Wikipedia.StepMarks | tg_bot/api_utils.py:346-347 | After a page is looked at, its id and title are in the processed sets. |
| Wikipedia.ProcessAllMarksEveryEntry | tg_bot/api_utils.py:341-347 | After a run, every page given is marked as processed. |
| Wikipedia.ProcessAllOnce | tg_bot/api_utils.py:341-347 | Processing the same pages a second time with the sets it left changes nothing. |
| Wikipedia.ProcessAllAppend | tg_bot/api_utils.py:341-424 | Processing two lists in a row equals processing their concatenation. |
| Wikipedia.ProcessAllEventsFrom | tg_bot/api_utils.py:288 | Events found for earlier batches stay in front of the events the next batch adds. |
| Wikipedia.ProcessedPages.ProcessPages | tg_bot/api_utils.py:304-424 | The method updates the caller's processed sets and returns the events exactly as the run says. |
| Wikipedia.Batches | tg_bot/api_utils.py:246-251 | Page ids split into `(n+34)//35` groups of 1 to 35 ids, all but the last of exactly 35, whose concatenation is the input. |
| Wikipedia.BatchesUnfold | tg_bot/api_utils.py:247-248 | The first group is the first 35 ids, or all of them when there are 35 or fewer. |
| Wikipedia.BatchesAreSlices | tg_bot/api_utils.py:247-248 | The k-th group is `page_ids[35k : 35k+35]`. |
| Wikipedia.BatchesAppend | tg_bot/api_utils.py:247-248 | Adding up to 35 ids after a whole number of batches adds exactly one group. |
| Wikipedia.FetchGroup | tg_bot/api_utils.py:253-288 | Cached answers are kept and the cache gains at most the group's key. The key is cached afterwards exactly when it was cached or the request succeeded, and a new answer is cached as given. A cached group's pages are processed; otherwise nothing changes. |
| Wikipedia.FetchAll | tg_bot/api_utils.py:246-299 | The page-info cache only grows, and cached groups keep their answers. |
| Wikipedia.FetchAllCachesAnswers | tg_bot/api_utils.py:287 | Every group the service answered is cached under its comma-joined key. |
| Wikipedia.FetchAllFromCache | tg_bot/api_utils.py:253-256 | When every group is cached, the service is never consulted, so the result does not depend on it. |
| Wikipedia.FetchAllNextBatch | tg_bot/api_utils.py:247-288 | Going from i to i+35 ids adds exactly the processing of `page_ids[i:i+35]`. |
| Wikipedia.CityCacheStep | tg_bot/api_utils.py:312 | One more group leaves the city cache as if the city were looked up once, if any group so far was processed, and untouched otherwise. |
| Wikipedia.BatchesNext | tg_bot/api_utils.py:247-248 | The groups of the first 35k ids followed by the next slice are the groups of the longer prefix. |
| Wikipedia.NextBatchStep | tg_bot/api_utils.py:247-288 | One turn of the batch loop moves both the fetch state and the city cache from the ids before `i` to the ids before `i + 35`. |
| Wikipedia.LookupCity | tg_bot/api_utils.py:40-64 | A cached id is returned; otherwise the search's answer is. A returned id is cached under the name, no other entry changes, only the name can be added, and a miss changes nothing. |
| Wikipedia.LookupCityCaches | tg_bot/api_utils.py:40-64 | A found id is cached, and later lookups of that name answer from the cache. A miss caches nothing and asks again next time. An uncached name gets the service's answer. |
| Wikipedia.ApiCache.GetCityWikidataId | tg_bot/api_utils.py:40-64 | The city-id cache and the answer change as the lookup says, and the page-info cache is untouched. |
| Wikipedia.ApiCache.FetchGroupInto | tg_bot/api_utils.py:253-299 | One batch uses the cache or the service, and the page cache, processed sets and events change as one fetch step says. When the group is processed, `process_pages` looks the city up (line 312) and the city cache changes as that lookup says; otherwise it is untouched. |
| Wikipedia.ApiCache.FetchPagesInfo | tg_bot/api_utils.py:238-302 | The batch loop returns the events of fetching every batch in order, from fresh processed sets, and leaves the page cache as that run says. The city cache is looked up once if some group was processed, and untouched otherwise. |
| Wikipedia.ApiCache.FetchNextBatch | tg_bot/api_utils.py:246-288 | One turn of the batch loop: the page cache, events and processed sets become the fetch of the ids before `i + 35`, and the city cache follows. |
| Aggregate.FirstIndex | tg_bot/api_utils.py:504-505 | The index of the first event with a given label. |
| Aggregate.LabelSetAppend | tg_bot/api_utils.py:506 | Adding an event adds its label to the seen set. |
| Aggregate.MergedLabels | tg_bot/api_utils.py:501-507 | The merged list has exactly the labels of the input. |
| Aggregate.MergedDistinct | tg_bot/api_utils.py:501-507 | No two merged events share a label. |
| Aggregate.FirstIndexOfPrefix | tg_bot/api_utils.py:504-505 | Appending an event does not move the first occurrence of a label already present. |
| Aggregate.MergedKeepsFirstOccurrences | tg_bot/api_utils.py:501-507 | Each merged event is the first input event with its label, and the merged list keeps input order. |
| Aggregate.MergedPrefix | tg_bot/api_utils.py:504 | The merge of the Wikidata events is a prefix of the merge of both lists, so Wikidata entries come first. |
| Aggregate.MergedDistinctList | tg_bot/api_utils.py:501-507 | A list whose labels are already distinct is merged to itself. |
| Aggregate.MergeEvents | tg_bot/api_utils.py:501-507 | The `seen_titles` loop returns exactly the merged list. |
| Aggregate.GetCombinedEvents | tg_bot/api_utils.py:480-510 | No city id gives no events. Otherwise the result is the merge of the Wikidata events followed by the Wikipedia events. |
| EventMessage.QueryJoined | tg_bot/api_utils.py:554 | The deep-link query is the `&`-join of the `event`, `date` and `city` fields, followed by the coordinate parameters. |
| EventMessage.MapLink | tg_bot/api_utils.py:554 | The deep link is the map page, a `?`, then the `&`-joined `event`, `date`, `city` and, with coordinates, `lat` and `lon` fields. |
| EventMessage.MessageParts | tg_bot/api_utils.py:524-530 | The message starts with the bold date line and the bold label line, and anything appended stays at its end. |
| EventMessage.FormatEventMessage | tg_bot/api_utils.py:515-557 | The message is the shown date and the label in bold, then the line `📝 description` exactly when the description is non-empty, then the line `🏙 city` at the end. The link's query fields are the label, the shown date, the city and the event's coordinates. |
| EventMessage.BotEventMessage | tg_bot/bot.py:170-191 | The bot's message is the escaped shown date and label in bold, then the escaped description line exactly when the description is non-empty, then the escaped city line, then a link to the map for the shown date, without coordinates. |
| EventMessage.MapLinkFields | tg_bot/api_utils.py:533-554 | With no `&` in the quoted values, splitting the query on `&` gives back exactly the fields written. |
| EventMessage.FormatEventMessageDates | tg_bot/api_utils.py:515-557 | For a Wikipedia date or a Wikidata timestamp, the message starts with the `dd.mm.yyyy` date in bold, and the link carries that same date. |
| EventMessage.StoredDateDisplayed | tg_bot/api_utils.py:517-519 | Both a `%Y-%m-%d` date and a Wikidata midnight timestamp show as `dd.mm.yyyy`. |
| EventMessage.BotEventMessageDates | tg_bot/bot.py:170-191 | For a Wikipedia date or a Wikidata timestamp, the bot's message starts with the escaped `dd.mm.yyyy` date in bold, and its link carries that same date and no coordinates. |
| EventMessage.UnreadableDateShownAsStored | tg_bot/api_utils.py:517-521 | A date text `fromisoformat` rejects is shown as stored. |
| EventMessage.UnknownDateShownAsStored | tg_bot/api_utils.py:520-521 | The `Неизвестная дата` placeholder is shown as it is. |
| Bot.BotEvents | tg_bot/bot.py:95-106 | No returned event's label is excluded. |
| Bot.RowEvent | tg_bot/bot.py:97-101 | The bot's event for a row is the Wikidata event of the same row read without `coord` and without city coordinates, so it has neither coordinates nor URL. |
| Bot.BotEventsMembers | tg_bot/bot.py:95-104 | For a known era, an event is returned exactly when some row makes it with the placeholders and its label is admitted. Without exclusions every row is returned in order. |
| Bot.ReplyText | tg_bot/bot.py:149-197 | A shown event's text is its message. The error text is the same for every city. The city-not-found, all-shown and none-found texts name the city. |
| Bot.ReplyTextsTellApart | tg_bot/bot.py:149-197 | Two replies other than a shown event have the same text exactly when they are the same outcome for the same city, or both the error reply. |
| Bot.EventScreen | tg_bot/bot.py:327-329 | The `get_event` screen contains the text of `get_historical_event`. |
| Bot.HistoricalEvent | tg_bot/bot.py:136-193 | City and era are kept, and a stored city id is never replaced. The city-not-found reply comes exactly when no id is stored or found. A shown event was not shown before, and its label is added. Otherwise the shown set is unchanged. |
| Bot.HistoricalEventOutcome | tg_bot/bot.py:136-193 | A city id found when none was stored is stored. An event is shown exactly when a city id is stored or found and some event of the era is not yet shown; it is one of those events and its message is `BotEventMessage` of it. "No events" is answered only when nothing was shown before. |
| Bot.ShownTitles | tg_bot/bot.py:163-168 | The labels of the shown events: every shown event's label is among them, each of them is the label of a shown event, and there are at most as many as replies. |
| Bot.ShownTitlesAppend | tg_bot/bot.py:163-168 | The labels of two runs of replies in turn are those of the first run followed by those of the second, so the labels keep the order of the replies. |
| Bot.Session | tg_bot/bot.py:136-193 | A run of requests gives one reply per request. |
| Bot.SessionShowsEachOnce | tg_bot/bot.py:152-168 | Between resets no label is shown twice. The shown set grows by exactly the labels shown, and city and era stay. |
| Bot.ShownStep | tg_bot/bot.py:166-168 | Showing one new label keeps the run free of repeats. |
| Bot.CallbackFields | tg_bot/bot.py:205 | Callback data starting with `era_` splits on `_` into at least two fields, and the second field is the first field of the text after `era_`. |
| Bot.EraFromCallbackAsWritten | tg_bot/bot.py:205 | `split('_')[1]` is the text after `era_` up to the next `_`. |
| Bot.EraFromCallbackAsWrittenIff | tg_bot/bot.py:205 | `split('_')[1]` gives back the era key exactly when the key has no `_`. |
| Bot.EraFromCallbackAsWrittenStops | tg_bot/bot.py:205 | `era_ancient_rus` reads as `ancient`, and in general only the part before the next `_` is read. |
| Bot.EraKeyAsWritten | tg_bot/bot.py:205-219 | For one era key, the as-written parse of its button is a key exactly when the key has no `_`. |
| Bot.EraKeysAsWritten | tg_bot/bot.py:205-219 | Every era key with `_` (`ancient_rus`, `tsar_rus`) is read as a non-key. |
| Bot.NoKeyIsProperPrefix | tg_bot/bot.py:30-36 | No era key is a proper prefix of another. |
| Bot.EraFromCallback | tg_bot/bot.py:205 | The corrected parse takes the whole text after `era_`. |
| Bot.EraButtonsCorrected | tg_bot/bot.py:112-120 | With the corrected parse, every era button yields a key of the table, and different buttons yield different keys. |
| Bot.NextHour | tg_bot/bot.py:430-432 | `(h + 1) % 24` is an hour of the day. |
| Bot.PrevHour | tg_bot/bot.py:427-429 | `(h - 1) % 24` with floored remainder is an hour of the day. |
| Bot.SliderHour | tg_bot/bot.py:427 | The slider shows the stored hour, or 10 for a user without one, and it is in 0..23 when every stored hour is. |
| Bot.PrevUndoesNext | tg_bot/bot.py:427-432 | The two arrows undo each other. |
| Bot.ForwardAdds | tg_bot/bot.py:430-432 | n presses of the forward arrow add n hours modulo 24. |
| Bot.EveryHourReachable | tg_bot/bot.py:427-432 | Every hour is reachable with the forward arrow from the opening hour 10:00 (line 399). |
| Bot.BotState.constructor | tg_bot/bot.py:42-45 | All tables start empty. |
| Bot.BotState.Start | tg_bot/bot.py:267-289 | The user gets the default city, era and found id with nothing shown, and the conversation goes to the main menu. |
| Bot.BotState.SelectCity | tg_bot/bot.py:225-246 | An unknown city changes nothing and asks again. A known city is stored with its id and the shown set is emptied. A user with no settings raises. |
| Bot.BotState.SelectEra | tg_bot/bot.py:200-222 | The era after `era_` is stored and the shown set emptied. An era the name table lacks raises, after the change. |
| Bot.BotState.Store | tg_bot/bot.py:166-168 | One user's settings are replaced, and nothing else changes. |
| Bot.BotState.GetHistoricalEvent | tg_bot/bot.py:136-197 | The user's settings and the reply are those `HistoricalEvent` gives, and the returned text is `ReplyText` of that reply for the user's city. A user without settings gets the error text, and nothing changes. |
| Bot.BotState.Subscribe | tg_bot/bot.py:370-411 | A subscriber is sent back to the menu unchanged. Anyone else gets the slider at 10:00. |
| Bot.BotState.SelectTime | tg_bot/bot.py:414-473 | `back` leaves everything. The arrows move the slider round the clock and keep it in 0..23. `time_confirm` subscribes with the current city and era at the hour shown. |
| Bot.BotState.Unsubscribe | tg_bot/bot.py:524-542 | The user is removed from the subscribers if present, and the result says whether they were present. Nothing else changes. |
| Bot.BotState.MainMenu | tg_bot/bot.py:309-356 | `change_city` and `choose_era` open their prompts. `get_event` puts the text of `get_historical_event` on the screen and stays. `subscribe` behaves as `subscribe`. `help` raises. Anything else returns to the menu. |
| WebApp.GetYearsForPeriod | app.js:115-123 | Each of the four known periods gets its table entry. Anything else gets 1900–2000. Every range has start ≤ end. |
| WebApp.FormPeriodsHaveRanges | app.js:311-316 | The form's four period options are exactly the keys of the table at lines 116-121, so none falls back to the default. |
| WebApp.MapBinding | app.js:192-202 | A binding maps to an event exactly when it has `date`, `coord`, `eventLabel` and `event`. Any of them missing throws. |
| WebApp.MapBindingPoint | app.js:192-202 | `Point(a b)` gives coordinates `[b, a]`. Title and URL are copied, and a missing description becomes `Описание отсутствует`. |
| WebApp.PointParsersAgree | app.js:194-200 | The page and the bot read the same `Point(x y)` as the same latitude and longitude. |
| WebApp.FetchHistoricalEvents | app.js:160-208 | A failed request gives no list. Otherwise the list exists exactly when every binding maps, and then holds one event per binding, in order. |
| WebApp.MapBindings | app.js:192-203 | The whole map succeeds exactly when every binding maps. It then gives one event per binding, in order. |
| WebApp.JsRemainder | app.js:253 | JavaScript's `%`: the remainder lies strictly between `-n` and `n`, takes the sign of the dividend, differs from it by a multiple of `n`, and agrees with the mathematical remainder on non-negative operands. |
| WebApp.Displayed | app.js:211-236 | With a map and events, the markers become one per current event, in order. Without them nothing changes. Nothing but the markers ever changes, and the state stays valid. |
| WebApp.Updated | app.js:250-255 | An empty list leaves everything. Otherwise the index advances cyclically, the events stay, and the index stays in range. |
| WebApp.RemainderNext | app.js:253 | Taking the remainder after each step equals taking it once. |
| WebApp.UpdatesCycle | app.js:250-255 | k updates move the index by k modulo the number of events, and the state stays valid. |
| WebApp.LoggedOut | app.js:460-468 | Logout clears the user, the events, the city id and the markers. The map, the initialized flag and the index stay, and the state stays valid. |
| WebApp.CityLookup | app.js:97-113 | A failed request throws and changes nothing. Otherwise the result is true exactly when there are bindings. Only then is the id set, to a value with no `/`. |
| WebApp.CityLookupTakesId | app.js:103-106 | The id stored is the last `/`-segment of the first binding's URI. |
| WebApp.Loaded | app.js:126-157 | Nothing happens without a user and a city id. With both, the events of the user's period, when the request succeeds and is non-empty, become the current events with the index at 0 and are displayed; otherwise nothing changes. The user, id, map and flag are kept, and the state stays valid. |
| WebApp.NothingLoadsAfterLogout | app.js:460-464 | After logout, loading does nothing because of the guard at line 127, and a second logout does nothing. |
| WebApp.AuthChecked | app.js:58-79 | With no saved user nothing changes. A saved user becomes the current user. If the lookup throws nothing else changes; otherwise the state is `Loaded` after `CityLookup`, and a non-empty answer stores the last path field of its first URI as the city id. The state stays valid. |
| WebApp.Initialized | app.js:14-21 | After `init` the page is initialized, the map flag records whether the map was created, and a saved user is current. A second `init` changes nothing. |
| WebApp.InitRunsOnce | app.js:14-21 | Whatever the later inputs, `init` after `init` leaves the state of the first call. |
| WebApp.Registered | app.js:482-511 | The submitted user becomes current. A non-empty answer stores the last path field of its first URI as the city id and the state is `Loaded` after it; an empty or failed lookup changes nothing else. |
| WebApp.App.constructor | app.js:3-11 | The `APP` record starts empty and uninitialized. |
| WebApp.App.DisplayEvents | app.js:211-236 | The record changes as `Displayed` says. |
| WebApp.App.UpdateEvent | app.js:250-255 | The record changes as `Updated` says. |
| WebApp.App.Logout | app.js:460-477 | The record changes as `LoggedOut` says. |
| WebApp.App.FindCityWikidataId | app.js:82-114 | The record and the result are those `CityLookup` gives. |
| WebApp.App.LoadUserEvents | app.js:126-157 | The record changes as `Loaded` says. |
| WebApp.App.CheckAuth | app.js:58-79 | The record changes as `AuthChecked` says. |
| WebApp.App.Init | app.js:14-21 | The record changes as `Initialized` says. |
| WebApp.App.Register | app.js:482-511 | The record changes as `Registered` says. |

## Left out

- HTTP, SPARQL and the Wikipedia API are not modelled: request building, status handling and JSON decoding. Their answers are parameters (`answer`, `request`, `server`, `response`, `found`), with `None` for a failed request.
- The search loop of `fetch_wikipedia_events` and its `search_results` cache (tg_bot/api_utils.py:166-236) are not modelled. `fetch_pages_info` takes the page ids it would collect.
- `get_city_coordinates` (tg_bot/api_utils.py:564) is a parameter `cityCoords`.
- The lookups of `get_city_wikidata_id` in both files are a parameter `found`. The cache logic in tg_bot/api_utils.py is modelled by `LookupCity`. The lookup `process_pages` repeats for each group (tg_bot/api_utils.py:312) is `cityFound`, one answer for every repetition: a search that fails and then succeeds within one run is not modelled.
- Telegram plumbing is not modelled: keyboards, `edit_message_text`/`reply_text`, `ConversationHandler` wiring, `cancel`, `job_queue` scheduling and `send_daily_event`. A handler's result is its next conversation state or its reply.
- `help_command` is reached from a button press and reads `update.message`, which is then `None`. It is modelled only as the `Raised` outcome of `main_menu`.
- DOM, Leaflet, `localStorage` content, `showLoading`, the profile form handler and `displayEventInfo` are not modelled. `displayEvents` is modelled as its marker list.
- A saved user that parses to a non-object is not modelled. The saved user is `SavedUser`: nothing saved, a valid user, or text `JSON.parse` rejects (`Unreadable`).
- `toLocaleDateString('ru-RU')` is a parameter `toLocale`.
- `quote`, `requests.utils.quote` and `html.escape` are opaque parameters. Only the absence of `&` in their output is assumed where the query split is stated.
- `float()` and `parseFloat` are not modelled as numbers: `IsFloatText` is the set of ASCII texts `float()` accepts, and coordinates stay as the matched token texts.
- `random.choice` is the index `pick`, taken modulo the number of candidate events.
- `datetime.now().year` is the parameter `currentYear`.
- The `re` engine is left out. Matches arrive as captured groups (`Scan`), and only the `Point(...)` match is modelled character by character.
- Text.ParseInt: `int()` also accepts non-ASCII decimal digits, a sign, surrounding whitespace and `_` between digits. Only ASCII digit strings are modelled; every text the model parses is an era bound or a captured ASCII digit run.
- WebApp.GetYearsForPeriod: a period equal to an `Object.prototype` name (`toString`, `constructor`, `__proto__`) finds a truthy inherited value in JavaScript, which is returned in place of a year range. The model gives such a period the default range. Only the four form values are reachable (`FormPeriodsHaveRanges`).
- `Text.Lower`: lowers only ASCII, Latin-1 and basic Cyrillic (U+0410..U+042F, U+0400..U+040F) capitals. Python's `str.lower` lowers every Unicode capital and can change the length (`'İ'.lower()` is two characters).
- `Dates.YearText`: `%Y` is modelled as zero-padded to four digits. Some C libraries print years below 1000 without padding.
- `asyncio.gather`, `asyncio.sleep` and logging are not modelled. The two sources are computed one after the other.
- Exceptions raised inside the network code are left out: the HTTP and JSON errors caught at tg_bot/api_utils.py:159-164 and 297-299, and tg_bot/bot.py:107-109. They appear as the `None` answer. The `KeyError` of an unknown era is modelled as `Raised` or as an empty result.
- The bot token in `main` is not modelled.
- Wikidata.MatchPoint: `\d` in `[-\d.]+` and `float()` also accept non-ASCII decimal digits, so `Point(٣٠ ٥٩)` gives `[59.0, 30.0]` in Python. `MatchPoint`, `CoordRun` and `IsFloatText` accept ASCII digits only, and the model gives such a value no match.
- Dates.ParseIsoDateTime: only `YYYY-MM-DD`, optionally followed by one separator and `HH:MM:SS` with an optional `±HH:MM` offset, is read. The other forms `fromisoformat` accepts (`HH`, `HH:MM`, fractional seconds, a `±HH:MM:SS` offset, and the extended forms of Python 3.11) are rejected by the model. The stored dates that occur, `YYYY-MM-DD` and `YYYY-MM-DDT00:00:00Z`, are read (`IsoDateDisplayed`, `WikidataDateDisplayed`).
- Dates.DisplayDate: a stored date in one of the forms the model does not read, such as `1703-05-27T10:00`, is shown as stored, where Python shows `27.05.1703`.
- `init` does not wait for the promises `checkAuth` starts (app.js:14-21, 69-71): `isInitialized` is set, and other handlers may run, before the city lookup and the event load settle. The model applies the settled lookup and load at once, in sequence.

## Findings

| source | as written | input that shows it | evidently intended | confidence | as-written member | corrected member |
|---|---|---|---|---|---|---|
| tg_bot/bot.py:205 | `select_era` stores `query.data.split('_')[1]`, the text up to the next `_`. | `era_ancient_rus` stores `ancient`, and `era_tsar_rus` stores `tsar`. Neither is a key of `era_names`, so line 219 raises `KeyError` after `user_data` was already changed. | Store the whole text after `era_`. | not executed | Bot.EraFromCallbackAsWritten (with Bot.EraKeysAsWritten, Bot.EraFromCallbackAsWrittenStops) | Bot.EraFromCallback (with Bot.EraButtonsCorrected; used by Bot.BotState.SelectEra) |
