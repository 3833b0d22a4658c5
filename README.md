# Domainatrix client model

Domainatrix watches the subdomains of `ed.ac.uk`. For each one it tracks whether DNS resolves, whether the host answers
ping and whether it serves HTTP. This project models the two clients of that service in Dafny and proves properties
of the models.

- **The browser client** (`static/script.js`) has three parts:
  - `RemoteProperty`: a cached value that is refreshed from the server, with one fetch in flight at a time, a minimum
    interval between fetches and a queue of waiting callbacks;
  - `DomainListItem`: one domain, holding three such properties (DNS, ping, HTTP), the merge patches that server
    answers apply to them, the label the search filters on, and a visibility flag;
  - `DomainList`: the registry, which keeps a dictionary from name to item and a sorted list of names. It also runs
    the request workflow (`state` and the feedback banner) and the search filter with its `shown/counted` counter.
- **The desktop client** (`domainatrix-native/mainwindow.cpp`) has a refresh lock and the conversion of a JSON
  listing into table rows sorted by url.

**Modules:**
- `Wrappers`: `Option`.
- `Strings`: the string order both clients use, the JavaScript whitespace class, prefixes and suffixes, decimal
  text and `padStart`.
- `JsonValue`: parsed JSON.
- `Remote`: `RemoteProperty`.
- `DateFormat`: `formatDate` and the civil calendar.
- `DomainItem`: `DomainListItem`.
- `DomainRegistry`: `DomainList`.
- `NativeClient`: the desktop client.

**Modelling choices:**
- Objects the source mutates are classes. They have `modifies` frames; loops stay loops, with invariants.
- Callbacks the source hands around are not code here. Network requests, `startCallback`, the checker, `change` and
  callback notifications are recorded in ghost logs (`events`, `requests`).
- A server answer is an argument of a later method call, already parsed. It is `None` where `JSON.parse` throws.
- `Date.now()` is the parameter `now`, one reading per call.
- The browser's `RegExp` is a `RegexEngine` value. It supplies "this search text compiles" and "this compiled search
  matches this label" as uninterpreted functions.
- `setValue` (script.js:30-35) never resets `gettingRemote`, and the model follows the code: once a fetch has
  started, every later `getRemote` only enqueues. `Remote.FetchesOnce` exhibits this.

## Model

| member | source | states |
|---|---|---|
| Strings.Less | static/script.js:323 | JavaScript's `<` on two strings, compared head first; `LessIffFirstDifference` proves it is the first-difference order, and `LessTrichotomy` and `LessTransitive` that it is a strict total order |
| Strings.LessIffFirstDifference | static/script.js:323 | JavaScript's `>` on strings is the lexicographic order: `a < b` iff there is a first position where they differ in `a`'s favour, or `a` is a proper prefix of `b` |
| Strings.LessIrreflexive | static/script.js:323 | no name sorts before itself |
| Strings.LessTransitive | static/script.js:323 | the name order is transitive |
| Strings.LessTrichotomy | static/script.js:323 | any two names are equal or ordered one way: the order is total |
| Strings.LessAsymmetric | static/script.js:323 | `a < b` excludes `b < a` and `a == b` |
| Strings.NatToString | static/script.js:189 | `toString()` of a non-negative number is a non-empty digit string with no leading zero |
| Strings.IntToString | static/script.js:189 | `toString()` of any integer reads back as it: a non-negative one as its digits (no leading zero), a negative one as a minus sign followed by the digits of its magnitude |
| Strings.NatToStringRoundTrip | static/script.js:189 | the decimal text of a number reads back as that number |
| Strings.PadStart2 | static/script.js:189 | `padStart(2, "0")` yields length 2 for shorter text and never truncates |
| Strings.PadStart2Pads | static/script.js:189 | `padStart` only prepends `0`s and keeps the text as the tail of its result |
| Remote.Queued | static/script.js:17-19 | a callback is queued iff it is among the arguments, and there are no more callbacks than arguments; order and multiplicity are stated by `QueuedAppend` and `QueuedOne` |
| Remote.QueuedAppend | static/script.js:17-19 | the loop pushes in argument order: the callbacks of `a + b` are those of `a` followed by those of `b` |
| Remote.QueuedOne | static/script.js:17-19 | a function argument is pushed each time it occurs, so the same function passed twice is queued twice; a non-function is not pushed |
| Remote.NotifyLifo | static/script.js:36-40 | the notifications a drain of the queue makes with the current value; `NotifyLifoOrder` proves each queued callback is notified once, last registered first |
| Remote.NotifyLifoOrder | static/script.js:36-40 | draining notifies every queued callback exactly once, last registered first, with the current value |
| Remote.NotifyLifoLength | static/script.js:36-40 | draining makes one notification per queued callback |
| Remote.RemoteProperty.constructor | static/script.js:1-15 | with `getRemote` set, construction fetches at once with `initCallback` queued (or serves it within the limit); otherwise `initCallback` gets the initial value; the property starts idle with `lastCall` 0 |
| Remote.RemoteProperty.GetRemote | static/script.js:16-29 | it always queues the function arguments and never changes the value. While a fetch is in flight it does nothing more. Within `limit` of the last fetch it drains the queue with the cached value. Otherwise it sets `lastCall := now` and the in-flight flag, then calls `startCallback(value)` and the checker once each. `started` holds iff this last case ran. |
| Remote.RemoteProperty.SetValue | static/script.js:30-35 | the parsed value replaces the cache; `change` runs iff the value differs; the queue is drained; `gettingRemote` and `lastCall` are unchanged |
| Remote.RemoteProperty.RunCallbacks | static/script.js:36-40 | the queue ends empty, every callback queued before is notified once in reverse order, nothing else changes |
| Remote.FetchesOnce | static/script.js:20-35 | three requests (one within the limit, one after the fetch completed and the limit passed) start only one fetch, because `setValue` leaves the in-flight flag set |
| DateFormat.CivilFromDays | static/script.js:188-189 | day number `z` maps to a valid proleptic Gregorian date (month 1 to 12, day within the month's length) that lies exactly `z` days after 1970-01-01 |
| DateFormat.NewYearIsDayFromYear | static/script.js:189 | the day count agrees with ECMAScript's DayFromYear on every 1 January |
| DateFormat.MonthLength | static/script.js:189 | each month is followed, `DaysInMonth` days later, by the first of the next month, so consecutive dates are consecutive days |
| DateFormat.MarchYearLength | static/script.js:189 | a year is 366 days long exactly in leap years |
| DateFormat.UtcFieldsOf | static/script.js:188-189 | for each time value, the UTC date, hours (0 to 23) and minutes (0 to 59) name the minute that contains it |
| DateFormat.TwoDigitField | static/script.js:189 | a field below 100 prints as exactly two digits that read back as the field |
| DateFormat.YearField | static/script.js:189 | the year part prints as at least two characters that read back as the year less 2000, with a minus sign before 2000 |
| DateFormat.FormatDate | static/script.js:186-190 | `formatDate`: `Still Checking` for 0, the text `new Date(NaN)` yields for a time value outside the `Date` range, otherwise the rendered UTC fields; `FormatDateReadsBack` proves the text reads back as those fields |
| DateFormat.Render | static/script.js:189 | the printed, padded UTC fields of a time value; `RenderReadsBack` proves they read back as the fields |
| DateFormat.Join | static/script.js:189 | the five printed fields joined by `/`, `/`, ` ` and `:`; `Layout` proves where each field and separator sits |
| DateFormat.FormatDateReadsBack | static/script.js:186-190 | every non-zero timestamp in the `Date` range renders as `YY/MM/DD HH:MM`: separators in place, and each field reads back as its UTC field, the month counted from 0; the text for 0 and for an out-of-range value is `FormatDate`'s definition |
| DateFormat.RenderReadsBack | static/script.js:189 | the joined, padded fields read back as the fields |
| DomainItem.ApplyPatch | static/script.js:213-236 | a setter's patch: each sub-field the patch defines replaces the old one; `EmptyPatchKeeps`, `CompletePatchOverwrites` and `PatchesCompose` state its effect |
| DomainItem.EmptyPatchKeeps | static/script.js:214-216 | an undefined patch, and a patch defining neither `state` nor `lastCheck`, leave the value unchanged |
| DomainItem.CompletePatchOverwrites | static/script.js:214-216 | a patch defining both `state` and `lastCheck` makes the value exactly those two, whatever it was before |
| DomainItem.PatchesCompose | static/script.js:213-236 | two setter calls in a row equal one call with the second patch's defined sub-fields laid over the first's |
| DomainItem.ApplyPatchIdempotent | static/script.js:213-236 | applying the same patch twice equals applying it once |
| DomainItem.ColorCode | static/script.js:208-212 | an indicator colour exists iff the state is -1, 0 or 1, and it is a `#` colour code |
| DomainItem.KindOfKey | static/script.js:169-177 | the keys `dns`, `ping` and `http` dispatch to their own setters, and no other key dispatches to a setter |
| DomainItem.RecordPatchKeepsStatus | static/script.js:71-73 | replaying a record onto the values built from it changes nothing |
| DomainItem.RunStart | static/script.js:74 | the start of the longest whitespace-free run ending at a position |
| DomainItem.EndsInSuffixIsEndsWith | static/script.js:74 | the pattern's `ed\.ac\.uk$` tail test is "ends with `ed.ac.uk`" |
| DomainItem.Subdomain | static/script.js:74-80 | whether `domain.match` accepts the name, and its group 2; `SubdomainIsLeftmostMatch` proves it is the leftmost match the pattern defines |
| DomainItem.SubdomainIsLeftmostMatch | static/script.js:74 | the pattern matches iff some alternative matches somewhere. Group 2 is then defined iff the leftmost match took the labelled alternative, and it covers the name from there up to `.ed.ac.uk`; e.g. `a.b.ed.ac.uk` gives `a.b`; `ed.ac.uk` and `fooed.ac.uk` give none |
| DomainItem.SubdomainLabelShape | static/script.js:80 | a defined label is non-empty, free of whitespace, and followed by `.ed.ac.uk` up to the end of the name |
| DomainItem.NewProperty | static/script.js:71-73 | an item's property starts pristine: the record's value, idle, its default callback notified |
| DomainItem.DomainListItem.constructor | static/script.js:69-184 | the item carries the record's name. The properties are distinct and built from the record. A name the pattern rejects is hidden for good, because `show` is `hide`. Ping is refreshed iff never checked or its state is -1 or -2, and likewise HTTP; DNS never is. |
| DomainItem.DomainListItem.Replay | static/script.js:178 | the constructor's `update(record)` leaves the freshly built properties as they were |
| DomainItem.DomainListItem.RefreshAll | static/script.js:179-184 | the closing refreshes leave ping and HTTP as the refresh rule says and DNS untouched |
| DomainItem.DomainListItem.RefreshIfNeeded | static/script.js:179-184 | one property is refreshed iff `lastCheck == 0` or its state is -1 or -2; a started fetch marks it as checking (`{state: -1}`) |
| DomainItem.DomainListItem.Set | static/script.js:213-236 | `setDns`/`setPing`/`setHttp` patch their own property's value and leave the other two untouched |
| DomainItem.DomainListItem.Update | static/script.js:201-207 | `update(fields)` gives each property exactly its own key's patch, and none if its key is absent |
| DomainItem.DomainListItem.Recheck | static/script.js:125 | the Recheck button queues its callback and starts a fetch iff none is in flight and the limit has passed, and then marks the property as checking and logs `startCallback` and the checker. While in flight it only queues; within the limit it drains the queue with the cached value. |
| DomainItem.DomainListItem.Hide | static/script.js:237-240 | the item is hidden |
| DomainItem.DomainListItem.Show | static/script.js:241-244 | the item is shown, except that a name the pattern rejects is hidden |
| DomainItem.DomainListItem.Toggle | static/script.js:245-248 | a hidden item gets `show`, a shown one `hide` |
| DomainRegistry.StrictlySortedIsSorted | static/script.js:318-327 | a strictly ascending name list is sorted and free of duplicates |
| DomainRegistry.InsertKeepsSorted | static/script.js:330-331 | splicing a name in between the smaller and the larger names keeps the list strictly sorted |
| DomainRegistry.DistinctCount | static/script.js:405-409 | a duplicate-free list of the keys has as many elements as there are keys |
| DomainRegistry.SortedInsert | static/script.js:330-331 | the reference insertion of a name into an ascending list, before the first larger name; `SpliceIsSortedInsert` proves the source's splice produces it |
| DomainRegistry.SpliceIsSortedInsert | static/script.js:330-331 | the splice at the found index is the reference sorted insertion |
| DomainRegistry.LabelledAreMatched | static/script.js:420 | every name with a search label is one the pattern accepts |
| DomainRegistry.SearchLabel | static/script.js:420-425 | the text a search filters on: `ed.ac.uk` for the root domain, otherwise group 2 of the name's match; `LabelledAreMatched` proves a labelled name is one the pattern accepts |
| DomainRegistry.SearchedFlag | static/script.js:401-430 | the flag one search pass leaves on an entry with a given label; `SearchedHiddenMeaning` states its cases |
| DomainRegistry.SearchedHidden | static/script.js:401-430 | the flag one search pass leaves on the entry of a name; `SearchedHiddenMeaning` states its cases, `SearchedHiddenIdempotent` that a second pass changes nothing |
| DomainRegistry.SearchedHiddenMeaning | static/script.js:401-430 | one search pass works as follows. An empty search shows every entry the pattern accepts. A search that does not compile leaves each entry alone, and so does any search for an entry without a label. Otherwise an entry ends up shown iff its label matches, where the root domain's label is `ed.ac.uk`. |
| DomainRegistry.SearchedHiddenIdempotent | static/script.js:401-430 | searching twice with the same text is searching once |
| DomainRegistry.SearchCounter | static/script.js:402-428 | the counter a search pass writes, or the old one when the search does not compile; `ShownWithinCounted` proves shown ≤ counted ≤ entries |
| DomainRegistry.Counted | static/script.js:417-428 | the counted number never exceeds the number of entries |
| DomainRegistry.ShownWithinCounted | static/script.js:417-428 | shown ≤ counted ≤ number of entries |
| DomainRegistry.CountStep | static/script.js:421-426 | one more entry adds 1 to the count iff it has a label, and 1 to the shown number iff its label matches |
| DomainRegistry.AddReplyData | static/script.js:393-394 | the record an answer with code 0 carries is one an item can be built from |
| DomainRegistry.NamesOfStep | static/script.js:379-381 | each listing step adds its record's name to the names listed so far |
| DomainRegistry.GrownStep | static/script.js:379-381 | two steps that add names without replacing existing items make one such step |
| DomainRegistry.TagsAreLabels | static/script.js:420 | the labels the items carry are the search labels of the names they are stored under |
| DomainRegistry.SearchSettles | static/script.js:401-430 | an empty search, or a compiling search over a labelled item, sets the flag whatever it was before |
| DomainRegistry.SearchedItemIsSearchedHidden | static/script.js:420 | what a search does to an item is what it does to the item's name |
| DomainRegistry.SearchEntry | static/script.js:406-408 | one loop step: the entry is shown or hidden as the search says; it is counted iff it has a label (always for an empty search) and shown iff its label matches (always for an empty search) |
| DomainRegistry.ShowAllPass | static/script.js:402-410 | the empty-search loop shows every entry and counts all of them as existing and shown |
| DomainRegistry.FilterPass | static/script.js:417-428 | the filtering loop counts the labelled entries and the matched ones, and sets each entry's flag by the search rule |
| DomainRegistry.OrderedInsert | static/script.js:330-331 | splicing a new name in at its position keeps a strictly sorted list that enumerates exactly the keys plus the name |
| DomainRegistry.SpliceCovers | static/script.js:331 | after the splice every key and the new name are listed |
| DomainRegistry.SpliceWithin | static/script.js:331 | after the splice only keys and the new name are listed |
| DomainRegistry.RegistryInsert | static/script.js:329-332 | storing a new item under a new name spliced in at its position keeps the registry invariant: sorted, same names as the keys, each item under its own name |
| DomainRegistry.DomainList.EntriesCount | static/script.js:405-409 | there are as many entries as names in the sorted list |
| DomainRegistry.DomainList.constructor | static/script.js:249-299 | a new registry is empty, with an empty search and no counter, and has asked for the listing (state and banner -2) |
| DomainRegistry.DomainList.SetState | static/script.js:308-311 | the state and the banner both become the code |
| DomainRegistry.DomainList.OnAddInputKey | static/script.js:312-317 | Enter asks about the typed text (when no request is running); other keys change nothing |
| DomainRegistry.DomainList.OnSearchInput | static/script.js:262 | typing sets the search and re-runs the filter with it |
| DomainRegistry.DomainList.FindOrderedIndex | static/script.js:318-327 | on a sorted list it terminates, including the even-width step that moves the left end to the middle. It returns `left <= i <= right`; every name in `[left, i)` does not exceed the domain, and every name in `[i, right)` exceeds it (so 0 on an empty list). |
| DomainRegistry.DomainList.SearchDomainItems | static/script.js:401-430 | the counter becomes `n/n` for an empty search; it is unchanged for a search that does not compile; otherwise it is the matched/labelled counts. Every entry's flag follows the search rule, and the registry invariant holds. |
| DomainRegistry.DomainList.Enumerated | static/script.js:405 | walking the sorted list visits every entry exactly once |
| DomainRegistry.DomainList.AskDomain | static/script.js:345-359 | when `state >= 0`: banner -1 and one add request, with the state unchanged. While `state < 0`: nothing. |
| DomainRegistry.DomainList.GetRemoteDomains | static/script.js:360-375 | when `state >= 0`: state and banner -2, and one listing request. While `state < 0`: nothing. |
| DomainRegistry.DomainList.Splice | static/script.js:330-332 | a new name is stored with its item and spliced into the sorted list at its reference position; nothing else changes |
| DomainRegistry.DomainList.InsertEntry | static/script.js:329-332 | a fresh item built from the record is added under its new name. The list gets the sorted insertion. Existing entries keep their items and flags; the new item keeps its constructor's flag. |
| DomainRegistry.DomainList.AddNewEntry | static/script.js:329-340 | a new name gets a fresh item built from the record at its sorted position, then the search re-runs over all entries (the new one from its constructor's flag) and resets the counter |
| DomainRegistry.DomainList.MergeEntry | static/script.js:341-343 | a known name only has the record replayed through its item's `update`; names, list, counter and flags are unchanged |
| DomainRegistry.DomainList.AddDomainItem | static/script.js:328-344 | a new name is inserted in sorted position, with the list still equal to the key set, and the search is re-run. A known name leaves the list and keys unchanged and only runs that item's `update`. Either way no other entry's item is replaced. |
| DomainRegistry.DomainList.SetRemoteDomains | static/script.js:376-388 | an unparsable or `null` listing only enters state 5. A parsed one adds every record (the keys become the old keys plus the listed names, with existing items kept and new ones fresh), enters state 4 and re-runs the search. |
| DomainRegistry.DomainList.AddListed | static/script.js:380 | one listing step lists the record's name and replaces no item |
| DomainRegistry.DomainList.AddRecords | static/script.js:379-381 | after the loop the keys are the old keys plus all listed names, and existing items are kept |
| DomainRegistry.DomainList.FinishListing | static/script.js:382-383 | state and banner 4; the counter and every entry's flag are what one search pass makes of the flags before it. For an empty search, and for the labelled entries under a compiling one, the flag is set whatever it was |
| DomainRegistry.DomainList.ServerResponseControl | static/script.js:389-399 | an answer `JSON.parse` rejects, or `null`, changes nothing. For an object answer, state and banner become its code. Code 0 adds its record's name and keeps all other items; any other code leaves the entries, list and counter alone. |
| NativeClient.EntryNe | domainatrix-native/mainwindow.cpp:18-21 | `operator !=` on the url; `EqualityOperators` proves it is the negation of `==` |
| NativeClient.EntryEq | domainatrix-native/mainwindow.cpp:23-26 | `operator ==` on the url; `EqualityOperators` proves the flags play no part, `LessIsStrictWeakOrder` that it is incomparability under `<` |
| NativeClient.EntryLess | domainatrix-native/mainwindow.cpp:28-31 | `operator <` on the url; `LessIsStrictWeakOrder` proves it is a strict weak order |
| NativeClient.EqualityOperators | domainatrix-native/mainwindow.cpp:18-26 | `!=` is the negation of `==`, and `==` compares the url only, whatever the flags |
| NativeClient.LessIsStrictWeakOrder | domainatrix-native/mainwindow.cpp:28-31 | `<` is irreflexive, asymmetric and transitive, and two rows are incomparable iff `==` holds |
| NativeClient.NotLessTransitive | domainatrix-native/mainwindow.cpp:28-31 | "does not sort before" is transitive |
| NativeClient.ToInt | domainatrix-native/mainwindow.cpp:186-188 | `toInt()` yields a 32-bit value: the number itself when it is an in-range number, and the default 0 for anything else (a non-number or an out-of-range number) |
| NativeClient.StateOf | domainatrix-native/mainwindow.cpp:186-188 | `obj[key].toObject()["state"].toInt()`, with a non-object read as the empty object and a missing state as 0; `ActiveMeaning` states what it yields |
| NativeClient.Active | domainatrix-native/mainwindow.cpp:186-188 | a flag is the nested state compared with 0; `ActiveMeaning` states for which JSON it holds |
| NativeClient.UrlOf | domainatrix-native/mainwindow.cpp:185 | `obj["domainName"].toString()`: a string's text, otherwise empty; `EntryOf` states the url it gives |
| NativeClient.ActiveMeaning | domainatrix-native/mainwindow.cpp:186-188 | a flag is set iff the nested state reads as 0. So a missing check, a missing state, a non-number or an out-of-range number count as up, and an in-range state counts iff it is 0. |
| NativeClient.EntryOf | domainatrix-native/mainwindow.cpp:184-188 | the url is the record's `domainName` string, or empty when that member is missing or not a string. Each flag is set iff its check's `state` counts as up read off the JSON: missing check or state, non-number or out-of-range state, or an in-range state equal to 0. |
| NativeClient.Kept | domainatrix-native/mainwindow.cpp:177-183 | only objects with a `domainName` member are kept |
| NativeClient.KeptCounts | domainatrix-native/mainwindow.cpp:177-183 | every element that is an object with `domainName` is kept exactly as often as it occurs, and every other element never |
| NativeClient.ConvertedRows | domainatrix-native/mainwindow.cpp:177-190 | the loop appends exactly one row per kept element, built from it, in its position |
| NativeClient.SortedByUrl | domainatrix-native/mainwindow.cpp:192 | the order `qSort` leaves with `operator <`: no row sorts before one ahead of it; `SortByUrl` and `InsertByUrl` establish it |
| NativeClient.InsertByUrl | domainatrix-native/mainwindow.cpp:192 | inserting a row into rows sorted by url keeps them sorted; the result is the old rows plus the row |
| NativeClient.InsertedInOrder | domainatrix-native/mainwindow.cpp:192 | placing a row after the rows it does not sort before, and before the rest, keeps the order |
| NativeClient.SortByUrl | domainatrix-native/mainwindow.cpp:192 | `qSort` leaves the rows in ascending url order and is a permutation of them |
| NativeClient.MainWindow.constructor | domainatrix-native/mainwindow.cpp:115-124 | a new window shows only the placeholder row: "Loading remote entry list", all flags false. It has sent one request, is locked, and its table is disabled. |
| NativeClient.MainWindow.PostAutoUi | domainatrix-native/mainwindow.cpp:126-134 | the table holds only the placeholder row, then a refresh is triggered |
| NativeClient.MainWindow.OnActionRefreshTriggered | domainatrix-native/mainwindow.cpp:141-161 | while locked: nothing happens. Otherwise: lock, disable the table and issue exactly one request. |
| NativeClient.MainWindow.OnReplyFinished | domainatrix-native/mainwindow.cpp:163-201 | every reply unlocks and enables the table. A reply that does not announce JSON, or whose document is null, keeps the rows. Otherwise the rows are one per array element that is an object with `domainName`, sorted by url. |

## Left out

- **Not modelled:**
  - The DOM construction and rendering of items: nodes, colours and text, insertion positions, the feedback texts and
    colours, and `MoreInfo`. The model keeps only the `hidden` flag, the banner code and the counter's two numbers.
  - The `XMLHttpRequest` and Qt network plumbing. A request is a ghost log entry; its answer is a later method
    argument.
  - The Qt model/view calls and the SSL setup.
- **Foreign calls and values:**
  - `JSON.parse` and `QJsonDocument::fromJson` give an `Option`.
  - `RegExp` is the `RegexEngine` parameter.
  - `Date.now()` is the parameter `now`. `getRemote` reads the clock twice, for the limit test and for
    `lastCall` (script.js:21, 23); the model uses one reading for both.
  - JSON numbers are integers, and the native document is `Option<Json>` read through `doc.array()`.
- **Identity versus values:** in `setValue`, `!==` on freshly parsed objects compares identity. The model compares
  values, so `change` runs iff the parsed value differs.
- **Asynchrony and re-entrancy:** each handler is one atomic step. Callbacks that enqueue while the queue drains are
  not modelled.
- **Crash paths and malformed answers.** Both answer handlers catch what they throw. `setRemoteDomains` then
  sets state 5 (script.js:384-386), keeping whatever the loop had already done. `serverResponseControl` only logs
  (script.js:397-398), keeping the state it had already set. The server answers a name outside the pattern with
  code 3 and sends only names it accepted, each as a full record whose three checks carry numeric `state` and
  `lastCheck`. The model covers those answers and differs from the source on the rest:
  - A listing element that throws at index k: elements 0 to k-1 stay added. The failing name, when new, is already
    spliced into `orderedDomains` (script.js:331) with no entry. No final search runs, and the state becomes 5.
    `ListingShape` excludes such listings, and the model constructs an item before splicing its name.
  - A name the pattern rejects: the item constructor's `hide()` (script.js:77) reads `nodes.root` before `nodes`
    exists, so it throws every time. A listing holding such a name therefore ends as above, in state 5. An add
    answer with code 0 for one leaves the name spliced with no entry, in state 0. The model completes construction
    instead: the item is hidden for good (its `show` is `hide`), the name is added, and a listing ends in state 4.
  - `IsRecord`, `StatusValue` and `PatchValue` also exclude records the source accepts without throwing:
    - a check that is an object without `state` or `lastCheck` (`dns: {}`), or not an object at all (`dns: 5`).
      The source stores `undefined` for the missing fields.
    - a `state` that is not a number, such as `"0"`. The source stores it as is and draws no indicator colour.
    - for a name already listed, a record without `dns`, `ping` or `http`. `update` simply skips the missing
      keys (script.js:201-207).
  - `update` with a key outside `updateKey` throws at script.js:204, unless the item already holds a member of
    that name with the same value (script.js:203), such as `domain` set to the item's own name (script.js:70) or
    `hidden` equal to its flag (script.js:75). `UpdatableRecord` excludes the throwing records and also these
    non-throwing ones.
  - `AddReplyShape` excludes three kinds of add answer:
    - an object whose `state` is not a number;
    - an answer with code 0 whose `data` is not a record;
    - a parsed answer that is neither `null` nor an object (a number, string, boolean or array).
    On the last kind, script.js:392 runs `setState(undefined)` without throwing; from then on `this.state >= 0`
    (script.js:346, 361) is false, so both kinds of request are refused for good. The model does not capture this.
  - A `DomainListItem` property's `change` hook is the item's `update` (script.js:71-73). A check answer carries
    keys such as `state` that are not in `updateKey`, so `update` throws at script.js:204 inside `setValue`
    (script.js:33), before the queue is drained at script.js:34 and before the indicator is redrawn.
    `Remote.RemoteProperty.SetValue` models the generic property, whose `change` returns; the item's fetch
    completion, with this throw, is not modelled.
  - `addDomainItem` tests `this.entries[name] === undefined` on an object literal (script.js:263, 329). For a name
    inherited from `Object.prototype`, such as `constructor` or `toString`, that test sees a function, so the
    source calls `.update` on it and throws. The model tests `name !in entries` and inserts such a name like any
    other.
- **Order of iteration:** `for (domain in entries)` visits names in insertion order. The model walks the sorted list,
  which has the same names; no outcome depends on the order.
- **Strings:** the name order is over Unicode scalar values. JavaScript and Qt compare UTF-16 code units, and the two
  orders differ only when characters outside the Basic Multilingual Plane are involved.
- **Sort stability:** `qSort` is modelled as an insertion sort. Its contract leaves rows with equal urls in
  unspecified relative order, as `qSort` does.
- **Weaker contracts:**
  - DomainRegistry.DomainList.ServerResponseControl: the source calls `setState` before `addDomainItem`. Neither step
    reads or writes what the other does, so the model sets the state last. For code 0 its contract states only what
    the name set becomes, that other items are kept and the counter rule. The full effect of the add is
    `AddDomainItem`'s contract.
  - DomainRegistry.DomainList.SetRemoteDomains: the flags are stated only for entries the final search sets
    outright. Those are all entries for an empty search, and the labelled entries for a compiling search. Other
    entries' flags are left unstated. It does not state each record's per-item effect either: that a new item is
    built from its record (`BuiltFrom`), or that an existing item is patched through `update`. That effect is
    `AddDomainItem`'s contract, which the listing loop calls once per record.
  - DomainRegistry.DomainList.AddListed: states only that the record's name is listed, that no item is replaced,
    and that a search which does not compile leaves the counter alone. It does not forward `AddDomainItem`'s
    `InsertedNew` and `MergedKnown` outcomes or the flags the search sets. `AddDomainItem`'s contract states those.
  - DomainRegistry.DomainList.AddRecords: states which names are listed and that items are kept. It does not state
    each record's per-item effect, which is `AddDomainItem`'s.
  - DomainRegistry.DomainList.Valid: the registry invariant does not carry each item's `Classified` fact. Contracts
    state it for the item being added.
