# botui memories, reminders, lunar events and family tree — a Dafny model

botui is a Vue front-end for a chat bot. This project models the pieces of it that carry
logic of their own. They are modelled with the clock, the network replies, IndexedDB results,
`confirm()` answers and the lunar calendar converter as inputs:

* **`memoriesService`**:
  * `calculateDaysRemaining`: the label, the `DD/MM/YYYY` text and the past flag of an event date. Past dates are measured with the source's year/month/day borrow steps. Future dates are measured in whole days.
  * The IndexedDB object store of memories. It is kept as a map from numeric id to record, with `createMemory`, `updateMemory`, `getMemoryById`, `deleteMemory`, `clearAllMemories`, `getAllMemories` (the `eventDate` index, newest first) and `searchMemories`.
* **`lunarEventsService.parseLunarEvents`**:
  * `d/m: name` lines are read with `parseInt`.
  * Each line goes through an abstract lunar-to-solar converter.
  * An occurrence more than 200 days back rolls over to next year.
  * The result is labelled and sorted by days left.
* **`familyTreeService`**:
  * The indentation-to-box-drawing renderer, with its "last sibling" look-ahead and its per-level memory of which ancestors were last children.
  * `validate`.
* **`reminderService`**:
  * Labelled-line parsing of reminder messages, where the last matching line wins.
  * `formatDateTime`.
  * `getRepeatLabel`.
* **`apiService`**:
  * The memory payload rules: the allowed-key filter, the required `title`/`eventDate`, the spread order of create, update and soft delete, and the shapes and newest-first sort of the list.
  * The 1-based reminder position in `deleteReminder`.
  * Each call returns the requests it would send and its result, given the server's reply.
* **`cacheService`**: the localStorage cache. Its key is `botui_cache_` plus the URL's query string. Values are stored as JSON text, and entries are cleared by key prefix.
* **`useMemories`** and **`useMemoriesApi`**: the two memory composables, as classes whose fields are the composables' refs. They cover:
  * the page-of-ten slicing, `loadMore` and `hasMore`;
  * the detail cache and in-flight id set of the lazy loader;
  * local title search;
  * the validated add/edit form and delete.

JavaScript values are the datatype `Values.Value` (undefined, null, booleans, integers,
strings, arrays and objects with ordered entries), and a record is a map from property name to
value. An operation that can throw returns a `Result`, and the error is the `Error` it would
throw. A TypeError on a missing or non-string field is modelled where the source would
raise it.

`calculateDaysRemaining` is modelled as written. Its borrow steps can take a year off twice:
for 2020-06-15 seen on 2024-03-20 the label is `Đã qua 2 năm 9 tháng 5 ngày`
(`DaysRemaining.DoubleBorrow`). The model states what the code computes, not the calendar
difference.

## Model

| member | source | states |
|---|---|---|
| DaysRemaining.Piece | src/services/memoriesService.js:212 | destructuring a missing `split` piece gives undefined, and exactly the pieces past the end are missing |
| Values.ArrayKeyJoins | src/services/apiService.js:143 | an array id becomes its elements joined by commas (`[1, 2]` is `1,2`, and null elements are empty) when written into the load URL or used as a `memoriesDetail` key |
| DaysRemaining.ToNumber | src/services/memoriesService.js:212 | `Number` of a split piece is a number or NaN, never undefined (which forms it reads is under Left out) |
| DaysRemaining.ToNumberDigits | src/services/memoriesService.js:212 | `Number` of a non-empty digit string is its decimal value |
| DaysRemaining.FieldsOfNumerals | src/services/memoriesService.js:212 | `a-b-c` with digit strings splits into the three numbers |
| DaysRemaining.EventDate | src/services/memoriesService.js:213 | `new Date(year, month - 1, day)` is a valid date exactly when all three pieces are numbers, otherwise an invalid date (the TimeClip bound is under Left out) |
| DaysRemaining.PastSpan | src/services/memoriesService.js:222-258 | after both borrow steps the month count lies in 0..11 and the day count in -2..30 |
| DaysRemaining.DayStep | src/services/memoriesService.js:247-258 | the day borrow keeps the month count in 0..11 |
| DaysRemaining.PastParts | src/services/memoriesService.js:260-264 | the label pieces are exactly the strictly positive components, in the order years, months, days, each with its unit |
| DaysRemaining.PastLabel | src/services/memoriesService.js:260-266 | the past label falls back to `Hôm nay` exactly when no component is positive, and otherwise starts with `Đã qua ` |
| DaysRemaining.FutureLabel | src/services/memoriesService.js:275-281 | 0 days gives `Hôm nay`, 1 gives `Ngày mai`, any other count n gives `Cách n ngày` |
| DaysRemaining.BorrowSteps | src/services/memoriesService.js:222-258 | the imperative year, month and day borrow steps compute the span PastSpan specifies |
| DaysRemaining.YearBorrow | src/services/memoriesService.js:226-235 | the year step, stepping back a year when this year's anniversary is still ahead, computes YearStep |
| DaysRemaining.DayBorrow | src/services/memoriesService.js:247-258 | the day borrow, with its nested month borrow and the previous month's length, computes DayStep |
| DaysRemaining.LabelOf | src/services/memoriesService.js:260-266 | the label built by pushing pieces and joining is PastLabel |
| DaysRemaining.Describe | src/services/memoriesService.js:219-281 | the branch on the event date gives the label and past flag Distance specifies |
| DaysRemaining.CalculateDaysRemaining | src/services/memoriesService.js:208-282 | the whole method computes DaysRemaining for every string input |
| DaysRemaining.DateFormattedReadsInput | src/services/memoriesService.js:212-217 | for `YYYY-MM-DD` input, `dateFormatted` is the day and month zero-padded to two digits and then the year, whatever today is |
| DaysRemaining.IsPastIffBefore | src/services/memoriesService.js:220 | `isPast` holds exactly when the event date is a valid date strictly before today |
| DaysRemaining.FutureBranch | src/services/memoriesService.js:271-281 | a non-past valid date is n >= 0 days ahead, is labelled FutureLabel(n), and n is 0 exactly when it is today |
| DaysRemaining.TodayIsToday | src/services/memoriesService.js:272-276 | today's own ISO date gives `Hôm nay` and is not past |
| DaysRemaining.FutureLabelInjective | src/services/memoriesService.js:275-281 | different day counts ahead give different labels |
| DaysRemaining.DoubleBorrowSpan | src/services/memoriesService.js:226-241 | 2020-06-15 against 2024-03-20 takes a year off twice and measures 2 years, 9 months, 5 days |
| DaysRemaining.DoubleBorrow | src/services/memoriesService.js:220-268 | for that pair the result is past and labelled from the span 2 years, 9 months, 5 days |
| Dates.MakeDate | src/services/memoriesService.js:213 | `new Date(y, m, d)` gives a valid calendar date for any integers (the TimeClip bound is under Left out) |
| Dates.JsYear | src/services/memoriesService.js:213 | years 0..99 passed to `new Date` stand for 1900..1999, and other years are kept |
| Dates.NormalizeDayNumber | src/services/memoriesService.js:245 | rolling over out-of-range days lands exactly d - 1 days after the first of the month |
| Dates.MakeDateDayNumber | src/services/memoriesService.js:229 | `new Date(y, m, d)` is d - 1 days after the first of the normalised month |
| Dates.MakeDateValid | src/services/memoriesService.js:234 | rebuilding a valid date from its own parts gives it back when the year is not 0..99 |
| Dates.DayZero | src/services/memoriesService.js:256 | day 0 of a month is the last day of the previous month |
| Dates.DayNumberOrder | src/services/memoriesService.js:220 | comparing day numbers is comparing dates |
| Dates.DayNumberInjective | src/services/memoriesService.js:272-275 | a zero day difference means the same date |
| EventTime.IsoDateOf | src/services/memoriesService.js:174-175 | a date is read only from the `YYYY-MM-DD` shape, and it is then valid |
| EventTime.TimeOf | src/services/memoriesService.js:174-175 | an event date has a time exactly when it is a string of that shape, and the time is its day number |
| EventTime.IsoRoundTrip | src/services/memoriesService.js:174-175 | writing a date as `YYYY-MM-DD` and reading it back gives the date |
| EventTime.TimeOrder | src/services/memoriesService.js:173-177 | comparing times is comparing the dates |
| EventTime.NewestFirst | src/services/memoriesService.js:173-177 | the sorted list holds every dated and every undated element |
| EventTime.NewestFirstPermutes | src/services/memoriesService.js:173-177 | sorting by event date is a permutation |
| EventTime.NewestFirstOrdered | src/services/memoriesService.js:173-177 | dated items come first, in descending date order |
| EventTime.NewestFirstStable | src/services/memoriesService.js:173-177 | items with the same date keep their original order |
| MemoryStore.Put | src/services/memoriesService.js:113 | `put` stores the record under its own id and keeps every record keyed by its id |
| MemoryStore.SortedIds | src/services/memoriesService.js:166-167 | the store's keys in ascending order, each once |
| MemoryStore.Indexed | src/services/memoriesService.js:166-167 | the `eventDate` index lists exactly the stored records whose `eventDate` is a string |
| MemoryStore.NewMemoryFields | src/services/memoriesService.js:71-76 | a new memory has id `now` and both time stamps, and keeps every other input field |
| MemoryStore.UpdatedFields | src/services/memoriesService.js:102-108 | updates override stored fields, but `id` and `createdAt` survive whatever the updates hold |
| MemoryStore.MatchOf | src/services/memoriesService.js:196-199 | one memory's test succeeds exactly when its title is a string and either contains the query or the text is a string, since the text is read only when the title test fails |
| MemoryStore.SearchIn | src/services/memoriesService.js:196-199 | the filter never grows the list |
| MemoryStore.SearchInFilters | src/services/memoriesService.js:195-199 | on searchable memories the result keeps the list's order and holds exactly those whose lower-cased title or text contains the lower-cased query |
| MemoryStore.SearchNeedsTitles | src/services/memoriesService.js:196-199 | a memory without a string title makes the search throw |
| MemoryStore.MemoriesService.constructor | src/services/memoriesService.js:14-17 | the store starts empty |
| MemoryStore.MemoriesService.CreateMemory | src/services/memoriesService.js:68-86 | `add` fails with a ConstraintError on a taken id and changes nothing, and otherwise stores and returns the new memory |
| MemoryStore.MemoriesService.GetMemoryById | src/services/memoriesService.js:125-136 | the stored record, or null exactly when the id is absent |
| MemoryStore.MemoriesService.UpdateMemory | src/services/memoriesService.js:94-118 | an absent id throws `Memory with id … not found` and changes nothing, and otherwise the merged record replaces the stored one |
| MemoryStore.MemoriesService.DeleteMemory | src/services/memoriesService.js:143-154 | exactly the record under the id is removed |
| MemoryStore.MemoriesService.ClearAllMemories | src/services/memoriesService.js:302-313 | the store is empty afterwards |
| MemoryStore.MemoriesService.SearchMemories | src/services/memoriesService.js:188-193 | a blank or whitespace-only query returns all memories |
| MemoryStore.AllMemoriesAreIndexed | src/services/memoriesService.js:160-181 | the list holds exactly the stored records that have a string event date |
| MemoryStore.AllMemoriesNewestFirst | src/services/memoriesService.js:173-177 | the list is in descending event-date order |
| MemoryStore.SearchResult | src/services/memoriesService.js:188-200 | a non-blank query returns, in list order, exactly the memories whose lower-cased title or text contains the lower-cased query |
| Text.BlankIffAllSpace | src/services/lunarEventsService.js:13 | `!text.trim()` holds exactly when every character is whitespace |
| Sorting.SortBy | src/services/lunarEventsService.js:62 | the sort is a permutation of its input |
| Sorting.SortBySorted | src/services/lunarEventsService.js:62 | the sort's result is in ascending key order |
| Sorting.SortByStable | src/services/lunarEventsService.js:62 | elements with equal keys keep their relative order |
| LunarEvents.ParseIntPrefix | src/services/lunarEventsService.js:28-29 | `parseInt` reads a decimal numeral and stops at the first character that cannot continue it |
| LunarEvents.ParseIntNumeral | src/services/lunarEventsService.js:28-29 | `parseInt` of a numeral is its value |
| LunarEvents.NextYearOccurrence | src/services/lunarEventsService.js:39 | next year's occurrence of an in-range solar date is on or after next 1 January |
| LunarEvents.DaysLeftBound | src/services/lunarEventsService.js:34-41 | after the rollover, days left is at least -200, and a rolled-over occurrence lies ahead |
| LunarEvents.DaysTextPast | src/services/lunarEventsService.js:43-52 | the label starts with `Đã qua ` exactly when the event is in the past |
| LunarEvents.DaysTextHead | src/services/lunarEventsService.js:43-52 | each of the four cases (0, 1, more than 1, negative) gets its own label form |
| LunarEvents.DaysTextInjective | src/services/lunarEventsService.js:43-52 | different day counts get different labels |
| LunarEvents.TrimAll | src/services/lunarEventsService.js:22 | every `:`-field is trimmed, and none is dropped |
| LunarEvents.PiecesAccepted | src/services/lunarEventsService.js:22-26 | a line gives pieces exactly when it has a `:` and its date field has exactly one `/` |
| LunarEvents.LineAccepted | src/services/lunarEventsService.js:21-26 | a line gives an entry, rather than null, exactly when it has a `:` and its date field splits into two `/` pieces |
| LunarEvents.ExtraFieldsDropped | src/services/lunarEventsService.js:22-31 | anything after a second `:` is ignored |
| LunarEvents.PiecesOfFields | src/services/lunarEventsService.js:22-31 | `d/m:name` gives the day text, the month text and the trimmed name |
| LunarEvents.LineRoundTrip | src/services/lunarEventsService.js:21-61 | for `d/m:name`, `date` and `lunarDate` are `d/m`, `solarDate` is the converter's `day/month`, `eventName` is the trimmed name, and `daysText` labels `daysLeft` |
| LunarEvents.Entries | src/services/lunarEventsService.js:21-62 | there are no more entries than lines |
| LunarEvents.ParseLunarEvents | src/services/lunarEventsService.js:12-63 | blank text gives no events; the result is sorted ascending by days left, is a permutation of the line entries, and has at most one entry per non-blank line |
| LunarEvents.EqualDaysKeepLineOrder | src/services/lunarEventsService.js:62 | events with the same days left stay in line order |
| LunarEvents.EntriesBound | src/services/lunarEventsService.js:34-41 | every entry has days left of at least -200 when the converter gives months 1..12 and days >= 1 for the day and month each line parses to |
| LunarEvents.DaysLeftAtLeast | src/services/lunarEventsService.js:12-63 | every returned event has days left of at least -200 when the converter behaves so on the text's lines |
| FamilyTree.Depth | src/services/familyTreeService.js:19-22 | the depth never exceeds the line's length |
| FamilyTree.DepthIsLeadingSpaces | src/services/familyTreeService.js:19-22 | the depth is the length of the run of leading spaces |
| FamilyTree.LastFromIff | src/services/familyTreeService.js:25-40 | a line is a last child exactly when a shallower line comes before every later line of equal depth, or none follows |
| FamilyTree.CheckIsLastChild | src/services/familyTreeService.js:25-40 | the forward scan computes LastFrom |
| FamilyTree.Segments | src/services/familyTreeService.js:51-58 | n segments are 4n characters |
| FamilyTree.SegmentsAt | src/services/familyTreeService.js:51-58 | segment i sits at characters 4i..4i+4 |
| FamilyTree.PrefixShape | src/services/familyTreeService.js:48-58 | depth d >= 1 gives d four-character segments: the last is `└── ` exactly for a last child and `├── ` otherwise, and an ancestor segment is `│   ` exactly where that level is recorded as not last |
| FamilyTree.BuildPrefix | src/services/familyTreeService.js:49-62 | the nested prefix loop and the depth-0 banner compute Prefix |
| FamilyTree.LineText | src/services/familyTreeService.js:44 | the line text has every `-` removed |
| FamilyTree.RenderedLines | src/services/familyTreeService.js:42-65 | one rendered line per input line, in order |
| FamilyTree.Render | src/services/familyTreeService.js:9-68 | blank text renders to the empty string |
| FamilyTree.ParseAndRender | src/services/familyTreeService.js:9-68 | the method computes Render |
| FamilyTree.RenderLines | src/services/familyTreeService.js:42-65 | the `forEach` appends the rendered lines in order |
| FamilyTree.VisitLine | src/services/familyTreeService.js:43-64 | one loop step records the line's last-child status at its level and produces its rendered line |
| FamilyTree.MarksStep | src/services/familyTreeService.js:47-48 | each step overwrites exactly the status of level depth - 1 |
| FamilyTree.Validate | src/services/familyTreeService.js:73-75 | valid exactly when some character is not whitespace |
| FamilyTree.NoDashes | src/services/familyTreeService.js:44-64 | the rendered tree contains no `-` |
| FamilyTree.ValidateIffRenders | src/services/familyTreeService.js:10-12 | `validate` holds exactly when the renderer produces something |
| FamilyTree.LinesHaveNoBreak | src/services/familyTreeService.js:14 | the non-blank lines contain no line break |
| FamilyTree.BannerNewlines | src/services/familyTreeService.js:61 | the root banner holds two line breaks |
| FamilyTree.LineNewlines | src/services/familyTreeService.js:60-64 | every rendered line ends its own line, and a root line carries the banner's two extra breaks |
| FamilyTree.PrefixNewlines | src/services/familyTreeService.js:42-65 | the first k rendered lines hold k line breaks plus two per root among them |
| FamilyTree.RenderNewlines | src/services/familyTreeService.js:14-65 | the rendered text has exactly one line per non-blank input line plus the banners' breaks |
| Reminders.RepeatTypeOf | src/services/reminderService.js:35-40 | the repeat type is never `weekday` or `weekend` |
| Reminders.ScanLines | src/services/reminderService.js:23-42 | the `forEach` over lines computes FieldsOf |
| Reminders.ReadLine | src/services/reminderService.js:28-42 | one line updates the fields as Step does |
| Reminders.StepSlot | src/services/reminderService.js:28-42 | a line sets exactly the field of its first matching label and leaves the others |
| Reminders.UnsetSlot | src/services/reminderService.js:23-26 | a field no line names keeps its initial value (empty, or `no`) |
| Reminders.LastLineWins | src/services/reminderService.js:28-42 | a field takes its value from the last line that names it |
| Reminders.RepeatTypeKnown | src/services/reminderService.js:26-40 | a parsed reminder never has repeat type `weekday` or `weekend` |
| Reminders.ParseMessage | src/services/reminderService.js:19-53 | the reminder for message i has id i |
| Reminders.ParseReminders | src/services/reminderService.js:9-54 | a null or undefined argument throws |
| Reminders.NoMessagesNoReminders | src/services/reminderService.js:10-12 | missing or non-array `messages` gives `[]` |
| Reminders.NothingToRemind | src/services/reminderService.js:15-17 | a single message saying there are no reminders gives `[]` |
| Reminders.OneReminderPerMessage | src/services/reminderService.js:19-46 | otherwise one reminder per message, in order, with id equal to its index |
| Reminders.FormatDateTime | src/services/reminderService.js:59-61 | only the first `T` is replaced by a space |
| Reminders.FormatPickerValue | src/services/reminderService.js:57-61 | `date` + `T` + `time` becomes `date time` |
| Reminders.GetRepeatLabel | src/services/reminderService.js:66-76 | the six known keys map to their labels, a name `Object.prototype` supplies (`toString`, `__proto__`, …) gives that inherited member, and any other key gives `Không lặp` |
| Reminders.RepeatLabelsDistinct | src/services/reminderService.js:67-74 | the six labels are pairwise different |
| Reminders.ParsedLabel | src/services/reminderService.js:66-76 | a parsed reminder is never labelled as a weekday or weekend repeat |
| Json.ParseStringify | src/services/cacheService.js:9-28 | `JSON.parse(JSON.stringify(v))` is v for every value JSON represents |
| Cache.UrlSearch | src/services/cacheService.js:11 | `new URL` succeeds exactly when the text starts with a scheme, and a non-empty `search` starts with `?` and holds no fragment |
| Cache.CacheKey | src/services/cacheService.js:12 | every key starts with `botui_cache_` |
| Cache.CacheKeyInjective | src/services/cacheService.js:26-27 | two queries share an entry exactly when they are equal |
| Cache.StoredText | src/services/cacheService.js:28 | the stored text is never empty, because `stringify(undefined)` is written as `undefined` |
| Cache.SetCacheData | src/services/cacheService.js:24-32 | the storage afterwards is Written: one entry set, or nothing when the URL does not parse |
| Cache.ClearCache | src/services/cacheService.js:37-47 | the loop over the keys leaves exactly Cleared |
| Cache.SameQuerySameEntry | src/services/cacheService.js:11-12 | URLs with the same query read and write the same entry |
| Cache.WriteThenRead | src/services/cacheService.js:9-28 | set then get through the same URL gives back any JSON-representable value |
| Cache.UndefinedReadsNull | src/services/cacheService.js:24-28 | writing undefined reads back as null |
| Cache.WriteKeepsOthers | src/services/cacheService.js:24-28 | a write leaves every other key as it was |
| Cache.ReadNull | src/services/cacheService.js:9-18 | get gives null for an unparsable URL, a missing entry and an entry that is not JSON |
| Cache.ClearedExactly | src/services/cacheService.js:37-43 | clearing removes exactly the keys with the prefix and keeps every other entry unchanged |
| Cache.DefaultClearForgetsWrites | src/services/cacheService.js:24-43 | with the default prefix, clearing undoes any write, and the URL reads null again |
| Api.KeepAllowedSpec | src/services/apiService.js:172-174 | the filter keeps exactly the allowed keys, with their values |
| Api.KeepAllowedMerge | src/services/apiService.js:172-174 | filtering distributes over a spread merge |
| Api.KeepAllowedIdentity | src/services/apiService.js:172-174 | a record with only allowed keys is unchanged |
| Api.CreatedFields | src/services/apiService.js:196-202 | create forces a fresh id and `isDeleted: false` and keeps the caller's other fields |
| Api.UpdatedFields | src/services/apiService.js:226-232 | update forces `id = memoryId`, `isDeleted: false` and the time stamp, and otherwise updates override existing fields |
| Api.DeletedFields | src/services/apiService.js:244-249 | delete keeps the existing fields and forces `id = memoryId` and `isDeleted: true` |
| Api.ListOf | src/services/apiService.js:127 | a bare array is the list itself, and a null or undefined reply throws |
| Api.ApiService.constructor | src/services/apiService.js:9-11 | the client keeps its `apiId` |
| Api.ApiService.GetMemoriesList | src/services/apiService.js:117-134 | one GET to the list endpoint |
| Api.ApiService.LoadMemory | src/services/apiService.js:142-158 | one GET for the post id, and the result holds only allowed keys |
| Api.ApiService.SaveMemory | src/services/apiService.js:166-188 | a falsy title or event date throws before any request; otherwise one POST of the filtered payload, and the result is that payload overridden by the reply's fields |
| Api.DeleteReminderPosition | src/services/apiService.js:45-46 | the URL carries the 1-based position `remindIndex + 1` |
| Api.SaveResultFields | src/services/apiService.js:186-187 | each saved field comes from the reply if there, otherwise from the filtered input |
| Api.ListShapes | src/services/apiService.js:127-133 | a bare array, and any object whose `data` is an array, give the items newest first, as a permutation |
| Api.NoListIsEmpty | src/services/apiService.js:127 | an object without truthy `data` gives `[]` |
| Api.ListNewestFirst | src/services/apiService.js:128-132 | the list is in descending event-date order |
| Api.UpdateNeverMissing | src/services/apiService.js:214-235 | the given existing data is used directly; otherwise the record is loaded, and a failed load is the outcome, with no save |
| Api.UpdateSends | src/services/apiService.js:226-234 | the POST body has `id = memoryId` and `isDeleted: false` |
| Api.DeleteNeedsExistingData | src/services/apiService.js:243-251 | deleting with existing data lacking a title throws before any request |
| MemoryList.Page | src/composables/useMemories.js:78-81 | the slice is at most ten long, empty exactly when it starts past the end, and holds the list's elements from `page * 10` on |
| MemoryList.NextPage | src/composables/useMemories.js:95-107 | `loadMore` either stays or moves one page on |
| MemoryList.LoadMoreIffHasMore | src/composables/useMemoriesApi.js:145-157 | `loadMore` advances exactly when `hasMore()` holds, and then onto a non-empty page |
| MemoryList.EveryItemOnOnePage | src/composables/useMemories.js:77-81 | element i is shown on page i / 10 only, at position i % 10 |
| MemoryList.NoMoreMeansAllShown | src/composables/useMemories.js:254-257 | once `hasMore()` fails, the pages up to the current one cover the whole list |
| MemoryList.CalculateAt | src/composables/useMemories.js:85 | the composables' date information is `calculateDaysRemaining` with today fixed |
| MemoryList.InfoOf | src/services/memoriesService.js:212 | the date information is computed exactly for string event dates, and anything else throws at `split` |
| MemoryList.FormData.constructor | src/composables/useMemories.js:27-32 | the form starts with four empty fields |
| MemoryList.FormData.Payload | src/composables/useMemories.js:195-200 | the payload has exactly the four form fields |
| MemoryList.Validate | src/composables/useMemories.js:178-186 | a non-string title throws; a blank title gives the title message, then a falsy date gives the date message, and only a filled form passes |
| MemoryList.MessageOr | src/composables/useMemoriesApi.js:308 | the error's own message, else the fallback, so the message is never empty |
| MemoriesView.FirstBad | src/composables/useMemories.js:84-87 | the first memory of the page whose date information throws, or the end of the page |
| MemoriesView.FirstBadIs | src/composables/useMemories.js:84-87 | FirstBad is characterised both ways |
| MemoriesView.AnnotateRange | src/composables/useMemories.js:84-87 | exactly the memories in the range receive their `daysInfo`, and the others are untouched |
| MemoriesView.PageErrorIff | src/composables/useMemories.js:84-87 | the page throws exactly when some memory on it has a non-string event date |
| MemoriesView.AnnotatedPage | src/composables/useMemories.js:77-90 | when nothing throws, the visible page is the slice with `daysInfo` set on exactly its entries, and the rest of the list is untouched |
| MemoriesView.Saved | src/composables/useMemories.js:193-211 | an update keeps the store's ids, and a create adds one |
| MemoriesView.MemoriesView.constructor | src/composables/useMemories.js:11-32 | every ref starts at its initial value and the form is blank |
| MemoriesView.MemoriesView.FilterAndPaginate | src/composables/useMemories.js:77-90 | `daysInfo` is set in place on the page's memories up to the first that throws; the visible list is the page when none throws, and is otherwise unchanged |
| MemoriesView.MemoriesView.Show | src/composables/useMemories.js:43-48 | a fetched list is shown from page 0, and a throwing page sets the operation's message |
| MemoriesView.MemoriesView.LoadMemories | src/composables/useMemories.js:37-52 | the list becomes the store's list, annotated, with the page reset to 0 |
| MemoriesView.MemoriesView.SearchMemories | src/composables/useMemories.js:57-72 | the list becomes the search result with page 0, or on a throw is unchanged with the search message |
| MemoriesView.MemoriesView.LoadMore | src/composables/useMemories.js:95-114 | a no-op without a next page; otherwise one page on, shown |
| MemoriesView.MemoriesView.OpenAddModal | src/composables/useMemories.js:119-126 | the form is blank, nothing is being edited and the modal is open |
| MemoriesView.MemoriesView.OpenEditModal | src/composables/useMemories.js:131-138 | the form copies the memory's fields, the image defaulting to `''`, and edits its id |
| MemoriesView.MemoriesView.CloseModal | src/composables/useMemories.js:143-152 | the modal is closed, the form blank, nothing edited and both messages cleared |
| MemoriesView.MemoriesView.HandleImageUpload | src/composables/useMemories.js:157-164 | the read image fills the form, and a failed read sets the upload message |
| MemoriesView.MemoriesView.RemoveImage | src/composables/useMemories.js:169-171 | the form's image is `''` |
| MemoriesView.MemoriesView.Store | src/composables/useMemories.js:193-211 | the store call succeeds exactly when SaveWorks holds, and the store then becomes Saved |
| MemoriesView.MemoriesView.Commit | src/composables/useMemories.js:188-225 | a successful save sets its message and reloads from page 0; a failed one changes nothing but the save message |
| MemoriesView.MemoriesView.SaveMemory | src/composables/useMemories.js:176-226 | a form that fails validation sets its message and touches neither the store, the list nor the page; a valid one saves as Commit states, a failed store call leaving the list and the page |
| MemoriesView.MemoriesView.Remove | src/composables/useMemories.js:239-242 | the record under a numeric id is deleted, other keys delete nothing, and the list reloads |
| MemoriesView.MemoriesView.DeleteMemory | src/composables/useMemories.js:231-249 | without confirmation nothing changes, list and page included; an invalid key fails with the delete message and leaves the list and the page; otherwise the record goes and the list reloads |
| MemoriesView.LoadedPage | src/composables/useMemories.js:42-45 | with valid dates, the first page shows the first ten memories, each with today's `calculateDaysRemaining` |
| MemoriesApi.Skeleton | src/composables/useMemoriesApi.js:129-136 | the placeholder is the basic fields with `daysInfo`, empty text and image, and `isLoading` |
| MemoriesApi.DisplayItem | src/composables/useMemoriesApi.js:121-137 | a cached id shows the cached detail; otherwise the placeholder, with `isLoading` exactly when the id is in flight; a null item or a non-string date throws |
| MemoriesApi.MapAllSpec | src/composables/useMemoriesApi.js:121 | `map` succeeds exactly when every callback does, and then maps element by element |
| MemoriesApi.DisplayedPage | src/composables/useMemoriesApi.js:114-140 | the display is `basic[page*10 .. page*10+10)`, in order, at most ten long, and each item is DisplayItem |
| MemoriesApi.TitleMatch | src/composables/useMemoriesApi.js:181-183 | the test throws unless the item is an object with a string title |
| MemoriesApi.FilterByTitleSpec | src/composables/useMemoriesApi.js:180-183 | the filter keeps the order and holds exactly the items whose lower-cased title contains the query |
| MemoriesApi.FindById | src/composables/useMemoriesApi.js:327 | a found item is in the list with that id, and none means no item has it |
| MemoriesApi.DeleteData | src/composables/useMemoriesApi.js:327 | the cached detail comes first, and with nothing found the data is `{}` |
| MemoriesApi.DeleteUnknownSendsNothing | src/composables/useMemoriesApi.js:327-329 | deleting an id that is neither cached nor listed throws before any request |
| MemoriesApi.FindByIdMissing | src/composables/useMemoriesApi.js:327 | no listed item with the id means the search finds nothing |
| MemoriesApi.UseMemoriesApi | src/composables/useMemoriesApi.js:12-19 | an empty `apiId` throws the required message, and otherwise a fresh composable is made for it |
| MemoriesApi.MemoriesApi.constructor | src/composables/useMemoriesApi.js:19-45 | the client has the `apiId` and every ref starts at its initial value |
| MemoriesApi.MemoriesApi.GetMemoryDetail | src/composables/useMemoriesApi.js:361-363 | the cached detail, or null exactly when none is cached |
| MemoriesApi.MemoriesApi.FilterAndPaginate | src/composables/useMemoriesApi.js:114-140 | the visible list becomes the display, or stays unchanged when an item throws |
| MemoriesApi.MemoriesApi.Install | src/composables/useMemoriesApi.js:56-61 | the new list replaces the basic list, the cache and the in-flight set are emptied, and page 0 is shown |
| MemoriesApi.MemoriesApi.LoadMemoriesList | src/composables/useMemoriesApi.js:50-68 | on success the list is replaced, the cache and the in-flight set are emptied and the page reset; on failure these are unchanged and the error message is set |
| MemoriesApi.MemoriesApi.Fetch | src/composables/useMemoriesApi.js:85-108 | a loaded record gets its `daysInfo` and is cached under its id; afterwards the id is no longer in flight |
| MemoriesApi.MemoriesApi.LazyLoadMemory | src/composables/useMemoriesApi.js:74-109 | a cached id returns its detail with no request and no change; an in-flight id returns null with no request; otherwise one load, after which a record with a string date is cached under the id with its `daysInfo` and the page is redisplayed, a failed load or a non-string date changes nothing, and the id ends not in flight |
| MemoriesApi.MemoriesApi.LoadMore | src/composables/useMemoriesApi.js:145-164 | a no-op without a next page; otherwise one page on, displayed |
| MemoriesApi.MemoriesApi.Narrow | src/composables/useMemoriesApi.js:179-187 | the basic list narrows, in order, to matching titles, and the page resets to 0; a throw keeps it and sets the search message |
| MemoriesApi.MemoriesApi.SearchMemories | src/composables/useMemoriesApi.js:169-194 | a blank query reloads the list; any other query filters locally with no request and shows page 0 of the matches with the message cleared, or the search message when the filter or the page throws |
| MemoriesApi.MemoriesApi.AfterSave | src/composables/useMemoriesApi.js:282-301 | an update caches the saved record under the edited id, and a create clears the cache; then the list reloads |
| MemoriesApi.MemoriesApi.Commit | src/composables/useMemoriesApi.js:268-311 | a failed save changes no list state and sets the error's message; a successful one sends the save, then the list request, and sets the success message |
| MemoriesApi.MemoriesApi.SaveMemory | src/composables/useMemoriesApi.js:256-312 | a blank title or missing date sets its message and sends nothing; otherwise the save's requests go first |
| MemoriesApi.MemoriesApi.DeleteMemory | src/composables/useMemoriesApi.js:317-341 | without confirmation nothing is sent or changed, in-flight ids and page included; a failed delete leaves the lists, the cache and the page; otherwise the soft delete is sent with the cached or listed data, and on success the list reloads |

## Left out

- IndexedDB, `fetch` and promises are not modelled as I/O. A store call is atomic on a map from numeric id to record. A request is a value the method returns, and the server's reply is a parameter. Interleavings of concurrent async calls are not modelled.
- The clock is a parameter: `Date.now()` (`now`), `toISOString()` (`iso`), `toLocaleString` in reminders (`now`) and today's midnight. In the composables today's midnight is the function `calculate`, which MemoryList.CalculateAt ties to `calculateDaysRemaining` for a fixed day.
- `FileReader` (`fileToBase64`) is not modelled: the upload handler takes the read result as a parameter. `confirm()` is the parameter `confirmed`.
- The `setTimeout` that closes the modal a second after a save is left out. Closing is CloseModal on its own.
- `console` logging and `alert` are left out.
- The lunar-to-solar converter is a function parameter. Leap months and the calendar tables are not modelled.
- Dates are day numbers, not milliseconds, and daylight-saving shifts are not modelled: across a 23-hour day the source's `Math.floor` of a millisecond difference can come out one day short, where the model counts whole days.
- Numbers are integers and floating point is not modelled. NaN appears where `Number`, `parseInt` or an invalid date produce it, and also for the `Number` forms listed under DaysRemaining.ToNumber.
- DaysRemaining.ToNumber: reads only whitespace, the empty string and optionally signed decimal integers. Hexadecimal, octal and binary literals (`0x1F`), decimal points (`1.0`), exponents (`1e1`) and `Infinity` give NaN here, though `Number` reads them; so `2024-03-1e1` is 10 March in the source and an invalid date (`Cách NaN ngày`) here.
- Dates.MakeDate: the TimeClip bound is not modelled. Beyond ±8.64e15 ms from the epoch (years past about 275760) `new Date` gives an Invalid Date, which the model turns into a valid calendar date.
- DaysRemaining.EventDate: is valid for numbers of any size, by the same missing TimeClip bound; in the source such a date is labelled `Cách NaN ngày`.
- `toLowerCase` is a character map covering ASCII, Latin-1 and the Vietnamese letters, not full Unicode case mapping.
- Cache.UrlSearch: `new URL` is reduced to the scheme check and the query string that the cache key needs. Its percent-encoding of the query (`?q=a b` becomes `?q=a%20b`) and its trimming of surrounding whitespace are not modelled, so two texts that JavaScript maps to one cache entry can get two keys here.
- localStorage quota errors are not modelled: `setItem` always succeeds.
- JSON text is written without whitespace, and numbers are integers only.
- EventTime.TimeOf: only the `YYYY-MM-DD` form gets a time. Other strings `new Date` accepts count as invalid. A `null` event date (`new Date(null)` is the epoch, 1 January 1970) and a numeric one (a millisecond time) are dated in JavaScript but undated here, so records holding them sort among the undated ones. Undated items are put after the dated ones in their original order, where JavaScript's sort with a NaN comparator is implementation-defined.
- MemoryStore.Indexed: only string event dates count as valid index keys. Numbers, dates and arrays, which IndexedDB also accepts as keys, are treated as non-string, so records holding them drop out of the index.
- Api.ComparatorThrows: an `undefined` element counts as making the comparator throw. JavaScript's sort moves undefined elements to the end without calling the comparator on them; a parsed JSON body holds no undefined, so only a reply built outside JSON differs.
- MemoriesApi.MemoriesApi.GetMemoryDetail: `memoriesDetail` holds own keys only. An id whose string names an `Object.prototype` member (`toString`, `__proto__`, …) finds the inherited member in JavaScript, in this lookup, in LazyLoadMemory's cache test and in DeleteData.
- `===` and `Set.has` compare JavaScript objects by identity. The model compares values structurally.
- The IndexedDB error messages (`DataError` for an invalid key, `ConstraintError` for a taken id) are fixed strings.
- The header comment of `useMemoriesApi` says deleted items are filtered, but no code filters them. No such filter is modelled.
- `useMemoriesApi`'s `openAddModal`, `openEditModal`, `closeModal`, `handleImageUpload` and `removeImage` are the same code as `useMemories`'s. They are modelled once, in MemoriesView.MemoriesView.
- MemoriesApi.MemoriesApi.SaveMemory: for a valid form it states the requests sent first, the failure path and the success message. The list state after the reload is stated by MemoriesApi.MemoriesApi.Commit.
- MemoriesApi.MemoriesApi.DeleteMemory: after a successful delete, only the requests and the success message are stated, not the reloaded list.
- MemoriesApi.MemoriesApi.SearchMemories: for a blank query the visible list and message after the reload are not stated. LoadMemoriesList states them.
- MemoriesView.MemoriesView.SaveMemory: after a successful save the visible list is not stated. The reload's own contract, MemoriesView.MemoriesView.LoadMemories, states it.
- MemoriesView.MemoriesView.DeleteMemory: after a successful delete the visible list is not stated, for the same reason.
- Reminders.ParseReminders: its own contract covers only the null/undefined argument. NoMessagesNoReminders, NothingToRemind and OneReminderPerMessage state the rest.
- The store's invariant `Valid` (every record is stored under its own `id`, as the `keyPath: 'id'` store guarantees) is ghost. The methods keep it, but it is not a run-time check.
- The remaining `apiService` calls (list, create and save for reminders, the family tree and lunar events) are plain fetches with no logic of their own. Only `deleteReminder`'s position is modelled.
