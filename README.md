# DayDotter core, modelled in Dafny

DayDotter prints "day dots" for food products. Each product has a name and a
lifetime. Its expiration is the current instant plus the lifetime, moved back
to the shop's business hours. This project models the logic behind that and
proves properties of it:

- **Business hours.** `TimeOfDay` is a clamped hour and minute with an "HH:MM"
  text form and an hour-first order. `OpenTime` is an opening and closing time
  whose setters repair each other; the repair makes both fields share one
  object. `OpenHours` keeps seven of them, Sunday first, and clips an instant
  to the closing time before or after it.
- **Dates and spans.** `DateTime` is a day number from 0001-01-01 in the
  proleptic Gregorian calendar plus a time of day to the 100 ns tick.
  `TimeSpan` is a signed 64-bit tick count whose components truncate toward
  zero.
- **Binary storage.** The databases (`IndexedDatabase`, `StringDatabase`) are
  stored as a count followed by the items. Readers and writers are token
  streams. `BinarySerializable` has the file helpers `FromFile` and `ToFile`,
  over a file store that maps paths to contents.
- **Products and settings.**
  - `Product`, `ProductList` and `Settings` are XML records. An element is its
    name, its attribute map and its child nodes. A child node is an element
    or some other node, such as a comment or text.
  - A product list never holds two products whose names differ only in letter
    case.
  - Loads that fail part-way keep what they had already changed, as the
    original does.
- **XML plumbing.** `XmlLoadable` loads from the root element or from an XPath
  selection, creates objects from elements, files and strings, builds the
  indented text, and writes files behind the XML header. `Xml` covers
  identifier validation, tab indentation, and the integer vector and rectangle
  text forms and their readers.
- **Utilities.**
  - `Naming` validates and repairs names, and counts fresh names per prefix.
  - `StringTools.Indent` indents text.
  - `Paths` normalises separators, caches the user data and executable paths,
    names the data files and picks each weekday's dot texture.
  - `IntRange` and `UIntRange` are self-repairing clamping intervals, with the
    `IRange` default methods.

Where the source changes objects in place, the model uses classes with
`modifies` frames. Pure computations are functions, and the source's loops are
methods whose loop invariants tie them to those functions. Each method that
loads, saves, searches or merges is proved against a specification function.
The mutators of the databases and the product list also state what the queries
(`Count`, `Get`, `Contains`, `ContainsKey`) answer afterwards. Lemmas state the
round trips, invariants and orderings the code promises.

## Model

| member | source | states |
|---|---|---|
| Times.Clamp | scripts/TimeOfDay.cs:14-15 | Math.Clamp: the result lies in [lo, hi], equals the value inside the bounds, lo below them and hi above them |
| Times.Clamped | scripts/TimeOfDay.cs:12-16 | the clock built from any two integers is in range (0-23, 0-59), and an in-range pair is kept unchanged |
| Times.BeforeIsStrictTotalOrder | scripts/TimeOfDay.cs:88 | hours-then-minutes comparison is irreflexive, asymmetric, transitive and total |
| Times.PadDigits | scripts/TimeOfDay.cs:56-59 | a field below 100 is written as its tens digit followed by its units digit |
| Times.PadTwoDigits | scripts/TimeOfDay.cs:56-64 | a padded field is exactly two digits whose value, and whose int.Parse, is the field |
| Times.FormatShape | scripts/TimeOfDay.cs:52-66 | ToString of an in-range clock is "HH:MM": five characters, ':' in the middle, two zero-padded digit fields |
| Times.ParseIntoFrame | scripts/TimeOfDay.cs:29-51 | FromString keeps hours and minutes in range, a failure never changes the minutes, and blank text or a split that does not give two entries fails with nothing changed |
| Times.ParseIntoPair | scripts/TimeOfDay.cs:34-37 | two trimmed, colon-free, non-empty fields joined by ':' split back into exactly those two fields |
| Times.ParseClampsOutOfRange | scripts/TimeOfDay.cs:41-42 | out-of-range numbers are clamped and accepted, not rejected: "25:99" gives 23:59 and succeeds |
| Times.ParsePartialFailure | scripts/TimeOfDay.cs:39-48 | when the minutes do not parse ("7:xx") FromString fails with the hours already overwritten |
| Times.PaddedPairParses | scripts/TimeOfDay.cs:29-66 | two fields below 100, zero-padded to two digits around a colon, are accepted and give the clamped clock |
| Times.FormatParseRoundTrip | scripts/TimeOfDay.cs:29-66 | FromString(ToString(t)) succeeds and restores the hours and minutes, whatever the clock held before |
| Times.TimeOfDay.constructor | scripts/TimeOfDay.cs:12-16 | the new clock holds the clamped hours and minutes and is in range |
| Times.TimeOfDay.SetHours | scripts/TimeOfDay.cs:18-22 | the Hours setter stores the clamped value, keeps the minutes and keeps the range invariant |
| Times.TimeOfDay.SetMinutes | scripts/TimeOfDay.cs:23-27 | the Minutes setter stores the clamped value, keeps the hours and keeps the range invariant |
| Times.TimeOfDay.FromString | scripts/TimeOfDay.cs:29-51 | the result and the new hours and minutes are those of the parse specification from the old clock, and the range invariant survives |
| Times.TimeOfDay.ToString | scripts/TimeOfDay.cs:52-66 | a valid clock's text has five characters with ':' at index 2 and parses back to the same clock |
| Times.TimeOfDay.Equals | scripts/TimeOfDay.cs:68-71 | true exactly when the other clock is not null and has the same hours and minutes |
| Times.TimeOfDay.CompareTo | scripts/TimeOfDay.cs:81-92 | 0 exactly for equal clocks, negative exactly when this clock is earlier, positive exactly when later, always -1, 0 or 1 |
| Times.TimeOfDay.Less | scripts/TimeOfDay.cs:103-106 | `<` holds exactly when this clock is earlier |
| Times.TimeOfDay.LessOrEqual | scripts/TimeOfDay.cs:108-111 | `<=` holds exactly when the other clock is not earlier |
| Times.TimeOfDay.Greater | scripts/TimeOfDay.cs:113-116 | `>` holds exactly when the other clock is earlier |
| Times.TimeOfDay.GreaterOrEqual | scripts/TimeOfDay.cs:118-121 | `>=` holds exactly when this clock is not earlier |
| Times.TimeOfDay.EqualTo | scripts/TimeOfDay.cs:94-101 | `==` is structural equality of hours and minutes and agrees with CompareTo returning 0 |
| OpenTimes.ParseWindow | scripts/OpenTime.cs:45-59 | when open and close are one shared clock, whatever FromString does leaves them equal |
| OpenTimes.ParseWindowFrame | scripts/OpenTime.cs:45-59 | FromString keeps both clocks in range, and blank text or a split on ',' that does not give two entries fails with nothing changed |
| OpenTimes.ParseWindowKeepsDisorder | scripts/OpenTime.cs:55 | FromString writes the clocks directly, bypassing the setters: "18:00, 08:00" loads a window whose opening is after its closing |
| OpenTimes.FormatIsClean | scripts/OpenTime.cs:61-64 | a clock's text has no ',' and no white space at either end, so it survives the trimmed split |
| OpenTimes.FormatWindowSplits | scripts/OpenTime.cs:50-64 | the text ToString writes splits on ',' into exactly the two clock texts |
| OpenTimes.FormatWindowRoundTrip | scripts/OpenTime.cs:45-64 | FromString(ToString(w)) succeeds and restores both clocks, also when they are one shared clock |
| OpenTimes.SharedParseCollapses | scripts/OpenTime.cs:19-56 | when the constructor made close the same object as open, loading "08:00, 18:00" leaves both at 18:00 |
| OpenTimes.OpenTime.constructor | scripts/OpenTime.cs:11-15 | two fresh, distinct clocks at midnight |
| OpenTimes.OpenTime.Between | scripts/OpenTime.cs:16-20 | open is the given clock; close is the given clock unless it is earlier, in which case it is the opening clock object itself; the window is ordered |
| OpenTimes.OpenTime.SetOpen | scripts/OpenTime.cs:22-32 | the Open setter stores the clock and, when it falls after the closing, makes the closing that same clock; the window ends ordered |
| OpenTimes.OpenTime.SetClose | scripts/OpenTime.cs:33-43 | the Close setter stores the clock and, when it falls before the opening, makes the opening that same clock; the window ends ordered |
| OpenTimes.OpenTime.FromParts | scripts/OpenTime.cs:56-58 | the open clock reads the first part and, only when that succeeds, the close clock reads the second; the result and both clocks are those of the parse specification |
| OpenTimes.OpenTime.FromString | scripts/OpenTime.cs:45-59 | the result and both clocks are those of the parse specification, shared clocks included, and the range invariant survives |
| OpenTimes.OpenTime.ToString | scripts/OpenTime.cs:61-64 | "HH:MM, HH:MM", twelve characters, which FromString reads back to the same window |
| Schedule.PreviousDay | scripts/OpenHours.cs:60-63 | the weekday before day: within 0-6 and one step back modulo seven, Sunday wrapping to Saturday |
| Schedule.ClipUnrestricted | scripts/OpenHours.cs:55-56 | a day whose opening equals its closing is open all day: the instant is returned unchanged |
| Schedule.ClipBeforeOpen | scripts/OpenHours.cs:58-69 | at or before the opening minute the result is the previous day's closing time on the previous date (seconds zero), and nothing when there is no previous date |
| Schedule.ClipSundayWraps | scripts/OpenHours.cs:60-68 | before Sunday's opening the result is Saturday's closing time on the date before |
| Schedule.ClipAfterClose | scripts/OpenHours.cs:70-71 | in a minute after the closing minute the result is the same date at the closing time, seconds zero |
| Schedule.ClipInside | scripts/OpenHours.cs:73 | an instant inside the window is returned unchanged |
| Schedule.ClipKeepsClosingMinute | scripts/OpenHours.cs:70-73 | the seconds of the closing minute are kept: 19:30:45 with a 19:30 closing is not clipped |
| Schedule.ClipNeverLater | scripts/OpenHours.cs:51-74 | with in-range windows the clipped instant is a valid date no later than the given one |
| Schedule.ClipAtClosingTime | scripts/OpenHours.cs:58-73 | an instant exactly at an ordered window's closing minute is left as it is |
| Schedule.ClipIdempotent | scripts/OpenHours.cs:51-74 | with in-range ordered windows, clipping a clipped instant changes nothing |
| Schedule.LoadDays | scripts/OpenHours.cs:94-107 | loading from day i on keeps seven windows, keeps the days before i, and keeps which slots share one clock |
| Schedule.DayNamesDistinct | scripts/OpenHours.cs:98 | the seven Enum.GetName day names are pairwise different attribute names |
| Schedule.HoursElementHasDays | scripts/OpenHours.cs:120-138 | the element ToString describes carries each weekday's attribute with that day's window text |
| Schedule.LoadDayOutcome | scripts/OpenHours.cs:100-103 | one day's step: a failing FromString stops the load with that day's partly loaded window kept, a success moves on |
| Schedule.ParseWrittenDay | scripts/OpenHours.cs:102 | a day attribute holding a window's text loads back to that window, shared clocks included |
| Schedule.LoadWrittenDays | scripts/OpenHours.cs:96-104 | days whose attributes hold window texts load to those windows, in order |
| Schedule.LoadHoursRoundTrip | scripts/OpenHours.cs:94-139 | LoadFromXml of the element ToString writes succeeds and restores all seven windows, whatever the slots held before |
| Schedule.LoadStopsAtMissingDay | scripts/OpenHours.cs:100-101 | a missing day attribute fails the load, with the earlier days already loaded and the later ones untouched |
| Schedule.OpenHours.constructor | scripts/OpenHours.cs:15-24 | seven fresh all-day slots, then the saved hours when the file loads and the default hours (Sunday 08:00-18:00, Saturday 06:00-18:00, weekdays 05:30-19:30) when it does not |
| Schedule.OpenHours.Get | scripts/OpenHours.cs:41-49 | a slot exactly for day 0-6, none (the exception) otherwise, and the slot is the array's own |
| Schedule.OpenHours.ClipToOpenHours | scripts/OpenHours.cs:51-74 | the method computes the clipping function on the seven windows the slots hold |
| Schedule.OpenHours.LoadFromXml | scripts/OpenHours.cs:94-107 | the slots are loaded in place in day order, with the outcome and the new windows of the load specification, and the slots stay separate |
| Schedule.OpenHours.LoadDay | scripts/OpenHours.cs:98-103 | one iteration of the load loop updates slot i in place and agrees with the load specification from day i |
| Schedule.OpenHours.ToString | scripts/OpenHours.cs:108-140 | the StringBuilder loop writes the `<OpenHours .../>` text of the held windows, each day on its own line aligned under the first |
| Schedule.OpenHours.SetDefaults | scripts/OpenHours.cs:142-155 | every slot is replaced by a new OpenTime with the default hours of its day, on separate clocks |
| Dates.DaysInMonth | scripts/Utility/Serializable.cs:150 | the month lengths DateTime checks a day against are 28 to 31 days |
| Dates.CivilOf | scripts/Utility/Serializable.cs:179-181 | every day number up to 9999-12-31 has a valid year, month and day whose day number it is |
| Dates.CivilOfDayNumber | scripts/Utility/Serializable.cs:150-181 | a valid year, month and day map to a day number in range and back to themselves |
| Dates.MaxDayIsLastDay | scripts/Utility/Serializable.cs:150 | the last representable day number is 9999-12-31 |
| Dates.FromTicks | scripts/OpenHours.cs:66 | every tick count in DateTime's range is the tick count of exactly this valid date and time |
| Dates.TicksRoundTrip | scripts/OpenHours.cs:66 | a valid DateTime is recovered from its tick count |
| Dates.DayOfWeek | scripts/OpenHours.cs:53 | DateTime.DayOfWeek is one of the seven weekdays |
| Dates.New | scripts/Utility/Serializable.cs:150 | the seven-field DateTime constructor succeeds exactly on a calendar date with in-range time fields, and gives a valid date with no sub-millisecond ticks |
| Dates.NewFromFields | scripts/Utility/Serializable.cs:150-185 | rebuilding a DateTime from its seven fields gives it back with the ticks below the millisecond dropped |
| Dates.NewOnDay | scripts/OpenHours.cs:68-71 | `new DateTime(d.Year, d.Month, d.Day, h, m, 0)` is the same day at the new time |
| Dates.FieldsOfNew | scripts/Utility/Serializable.cs:150 | the year, month and day of a constructed DateTime are the ones given |
| Dates.Add | scripts/OpenHours.cs:66 | adding a span succeeds exactly when the result stays within DateTime's range, and moves the tick count by the span |
| Dates.SubtractOneDay | scripts/OpenHours.cs:66 | subtracting one day is the previous day at the same time, and fails on 0001-01-01 |
| Dates.PreviousWeekday | scripts/OpenHours.cs:60-66 | the day before falls on the previous weekday, Sunday going back to Saturday |
| Spans.New | scripts/Utility/Serializable.cs:165 | the five-field TimeSpan constructor succeeds exactly when the total milliseconds fit TimeSpan's range, giving a whole number of milliseconds |
| Spans.FromHours | scripts/Product.cs:16-21 | a span of n hours has n / 24 days, n % 24 hours and no smaller parts |
| Spans.WholeMilliseconds | scripts/Utility/Serializable.cs:194-202 | the span truncated toward zero to whole milliseconds, within one millisecond of it |
| Spans.ComponentsOfNonNegative | scripts/Utility/Serializable.cs:198-202 | the components of a non-negative span are in their usual ranges and add back up to its milliseconds |
| Spans.ComponentsOfNegative | scripts/Utility/Serializable.cs:198-202 | every component of a negative span is the negation of the component of its absolute value (truncating division) |
| Spans.ComponentBounds | scripts/Utility/Serializable.cs:198-202 | each component of a 64-bit span fits an Int32 |
| Spans.FieldsRoundTrip | scripts/Utility/Serializable.cs:165-202 | constructing a TimeSpan from a span's five components gives the span truncated to whole milliseconds |
| Binary.IntAt | scripts/Utility/Serializable.cs:150 | the int at a position exists exactly when the stream has an Int32 token there |
| Binary.StrAt | scripts/Utility/Database.cs:166 | the string at a position exists exactly when the stream has a string token there |
| Binary.Reader.constructor | scripts/Utility/Serializable.cs:57 | a reader starts at the front of the stream |
| Binary.Reader.ReadInt32 | scripts/Utility/Serializable.cs:150 | ReadInt32 returns the next int and moves past it, or fails without moving |
| Binary.Reader.ReadString | scripts/Utility/Database.cs:166 | ReadString returns the next string and moves past it, or fails without moving |
| Binary.Writer.constructor | scripts/Utility/Serializable.cs:128 | a writer starts on an empty stream |
| Binary.Writer.WriteInt32 | scripts/Utility/Serializable.cs:179 | Write(int) appends exactly one Int32 token |
| Binary.Writer.WriteString | scripts/Utility/Database.cs:190 | Write(string) appends exactly one string token |
| Binary.LoadAt | scripts/Utility/Database.cs:79-81 | an item load never reads past the end of the stream |
| Binary.LoadItem | scripts/Utility/Database.cs:79-81 | `new T()` then LoadFromStream: the loaded item, moving past it, or a failure |
| Binary.IntRun | scripts/Utility/Serializable.cs:150 | how many Int32 reads succeed in a row before one throws, at most n, and n exactly when n ints follow |
| Binary.DateTimeAt | scripts/Utility/Serializable.cs:144-158 | ReadDateTime succeeds only on seven ints that name a valid date and time, which has no sub-millisecond ticks |
| Binary.TimeSpanAt | scripts/Utility/Serializable.cs:159-173 | ReadTimeSpan succeeds only on five ints whose span fits TimeSpan |
| Binary.DateTimeTokens | scripts/Utility/Serializable.cs:175-193 | Write(DateTime) writes seven Int32 values |
| Binary.TimeSpanTokens | scripts/Utility/Serializable.cs:194-210 | Write(TimeSpan) writes five Int32 values |
| Binary.ReadDateTime | scripts/Utility/Serializable.cs:144-158 | the read result is that of the specification, and the reader has moved past the ints read before the failure or all seven |
| Binary.ReadTimeSpan | scripts/Utility/Serializable.cs:159-173 | the read result is that of the specification, and the reader has moved past the ints read before the failure or all five |
| Binary.WriteDateTime | scripts/Utility/Serializable.cs:175-193 | Write(DateTime) succeeds and appends the seven fields |
| Binary.WriteTimeSpan | scripts/Utility/Serializable.cs:194-210 | Write(TimeSpan) succeeds and appends the five components |
| Binary.DateTimeRoundTrip | scripts/Utility/Serializable.cs:144-193 | reading back a written DateTime gives it with the sub-millisecond ticks dropped, consuming exactly seven ints, whatever surrounds it |
| Binary.TimeSpanRoundTrip | scripts/Utility/Serializable.cs:159-210 | reading back a written TimeSpan gives it truncated to whole milliseconds, consuming exactly five ints |
| Binary.ShortStreamFails | scripts/Utility/Serializable.cs:150-165 | a stream too short for all seven (or five) ints makes the read fail |
| Database.LoadItems | scripts/Utility/Database.cs:77-85 | the item loop never moves the position back or past the stream's end |
| Database.LoadItemsShape | scripts/Utility/Database.cs:74-85 | the loop only appends to what it loaded; on success it has loaded exactly count items |
| Database.LoadSavedItems | scripts/Utility/Database.cs:77-102 | loading the tokens SaveToStream wrote for a list gives that list back and stops right after them |
| Database.LoadItemsStep | scripts/Utility/Database.cs:79-84 | one loop step appends the loaded item and moves past it |
| Database.FirstIndex | scripts/Utility/Database.cs:25-28 | List.IndexOf: the first position holding the item, -1 exactly when it is absent |
| Database.IndexedDatabase.constructor | scripts/Utility/Database.cs:13-16 | a new database is empty |
| Database.IndexedDatabase.Of | scripts/Utility/Database.cs:17-20 | a database built from items holds them in order |
| Database.IndexedDatabase.IndexOf | scripts/Utility/Database.cs:25-28 | the first position of the item, -1 exactly when it is absent |
| Database.IndexedDatabase.Contains | scripts/Utility/Database.cs:29-32 | true exactly when IndexOf finds the item, and then Get at that index gives the item back |
| Database.IndexedDatabase.Set | scripts/Utility/Database.cs:33-43 | the item at an index in range is replaced, so Get there gives it; an index out of range changes nothing; Count and Get at every other index are unchanged |
| Database.IndexedDatabase.Add | scripts/Utility/Database.cs:44-47 | the item is appended: Count grows by one, Get at the old Count gives the item, Contains holds, and Get elsewhere is unchanged |
| Database.IndexedDatabase.Insert | scripts/Utility/Database.cs:48-51 | the item is inserted at the index clamped to [0, Count], so Count grows by one and Contains holds |
| Database.IndexedDatabase.RemoveAt | scripts/Utility/Database.cs:56-62 | the item at an index in range is removed: Count drops by one, Get below the index is unchanged and Get above it shifts down by one; otherwise nothing changes |
| Database.IndexedDatabase.Remove | scripts/Utility/Database.cs:52-55 | the first occurrence of the item is removed, nothing when it is absent; one copy leaves the multiset, and Count drops by one exactly when Contains held |
| Database.IndexedDatabase.Clear | scripts/Utility/Database.cs:63-66 | the database is empty: Count is 0 and Contains holds for no item |
| Database.IndexedDatabase.LoadFromStream | scripts/Utility/Database.cs:68-93 | without a count nothing changes; otherwise the items and the result are those of the load specification, the items loaded before a failure kept |
| Database.IndexedDatabase.SaveToStream | scripts/Utility/Database.cs:94-110 | writes the count and then each item in order; the result says whether every item saved |
| Database.IndexedRoundTrip | scripts/Utility/Database.cs:68-110 | LoadFromStream of what SaveToStream wrote succeeds with the same items in the same order, whatever the database held before |
| Database.LoadEntries | scripts/Utility/Database.cs:164-173 | the entry loop never moves the position back or past the stream's end |
| Database.LoadEntriesStep | scripts/Utility/Database.cs:166-172 | one step reads a key and an item and adds the entry |
| Database.SaveEntriesSnoc | scripts/Utility/Database.cs:188-194 | writing one more entry appends its key and its item's tokens |
| Database.Restrict | scripts/Utility/Database.cs:188-194 | the entries of the map whose keys the enumeration has reached |
| Database.EntriesArePairs | scripts/Utility/Database.cs:182-194 | writing and adding the entries in key order is writing and adding the list of key-value pairs in that order, and fresh keys stay fresh |
| Database.LoadSavedPairs | scripts/Utility/Database.cs:156-176 | loading the written key-value pairs adds exactly those pairs and stops right after them |
| Database.LoadSavedEntries | scripts/Utility/Database.cs:164-194 | loading the written entries adds exactly those entries and stops right after them |
| Database.DuplicateKeyFails | scripts/Utility/Database.cs:172 | Dictionary.Add throws on a key already loaded, so a stream with one key twice fails to load |
| Database.StringDatabase.constructor | scripts/Utility/Database.cs:116-119 | a new database is empty |
| Database.StringDatabase.Contains | scripts/Utility/Database.cs:132-135 | true exactly when Get gives the item for some present key |
| Database.StringDatabase.Add | scripts/Utility/Database.cs:128-143 | a new key is added with its item: true exactly when ContainsKey did not hold, then ContainsKey holds, Get gives the item and Count grows by one; a key already present is refused (Dictionary.Add throws) and nothing changes; Get under every other key is unchanged |
| Database.StringDatabase.Remove | scripts/Utility/Database.cs:136-150 | the key and its item are gone: ContainsKey fails, Get gives none, Count drops by one exactly when the key was present, and Get under every other key is unchanged |
| Database.StringDatabase.Clear | scripts/Utility/Database.cs:151-154 | the database is empty: Count is 0 and ContainsKey holds for no key |
| Database.StringDatabase.LoadFromStream | scripts/Utility/Database.cs:156-181 | without a count nothing changes; otherwise the entries and the result are those of the load specification |
| Database.StringDatabase.LoadEntry | scripts/Utility/Database.cs:166-172 | one loop iteration agrees with the load specification |
| Database.StringDatabase.SaveToStream | scripts/Utility/Database.cs:182-202 | writes the count and then key and item for each entry in some enumeration order that lists every key once |
| Database.DistinctCount | scripts/Utility/Database.cs:186-188 | an enumeration with no repeated key is as long as the set of its keys, so the count written is the number of entries |
| Database.StringRoundTrip | scripts/Utility/Database.cs:156-202 | LoadFromStream of what SaveToStream wrote succeeds with exactly the same entries, whatever the database held before |
| Serializable.IndexedFromFile | scripts/Utility/Serializable.cs:50-68 | FromFile<T>(path): null when the file cannot be read or does not load, otherwise a new database holding what loaded |
| Serializable.IndexedLoadFile | scripts/Utility/Serializable.cs:81-97 | FromFile(val, path): false with nothing changed when the file cannot be read, otherwise the load's result and items |
| Serializable.IndexedToFile | scripts/Utility/Serializable.cs:115-139 | an existing file without replace fails and is untouched; otherwise the file holds what SaveToStream wrote and the result is its result |
| Serializable.IndexedFileRoundTrip | scripts/Utility/Serializable.cs:50-139 | loading the file ToFile wrote gives the same items back |
| Serializable.StringFromFile | scripts/Utility/Serializable.cs:50-68 | FromFile<T>(path) for the string database, as above |
| Serializable.StringLoadFile | scripts/Utility/Serializable.cs:81-97 | FromFile(val, path) for the string database, as above |
| Serializable.StringToFile | scripts/Utility/Serializable.cs:115-139 | ToFile for the string database, as above |
| Serializable.StringFileRoundTrip | scripts/Utility/Serializable.cs:50-139 | loading the file ToFile wrote gives the same entries back |
| Products.LoadRecord | scripts/Product.cs:47-64 | without a Name or a Lifetime attribute the load fails with nothing changed; otherwise the name is taken, and the lifetime too when it parses, the load failing with the new name kept when it does not |
| Products.RecordRoundTrip | scripts/Product.cs:47-82 | LoadFromXml of the element ToString describes succeeds and restores name and lifetime, whatever the product held before |
| Products.RecordTextJoined | scripts/Product.cs:66-82 | with LF as terminator, ToString is the Name line, LF, and the Lifetime line indented by nine spaces, and neither line holds a line feed |
| Products.RecordTextLines | scripts/Product.cs:66-82 | ToString writes two lines: `<Product Name="...">` and the Lifetime attribute aligned under it, closing the element |
| Products.Product.constructor | scripts/Product.cs:13-17 | an empty name and a 24-hour lifetime |
| Products.DefaultLifetimeIsADay | scripts/Product.cs:16 | the default lifetime of 864,000,000,000 ticks is TimeSpan.FromHours(24): one day and no hours |
| Products.Product.Named | scripts/Product.cs:18-22 | the given name, and the given lifetime or 24 hours when none is given |
| Products.Product.Copy | scripts/Product.cs:23-27 | the copy has the same name and lifetime |
| Products.Product.GetExpiration | scripts/Product.cs:42-45 | now plus the lifetime, clipped to the open hours; nothing when the sum leaves DateTime's range; never later than now plus the lifetime |
| Products.Product.LoadFromXml | scripts/Product.cs:47-64 | the result and the new name and lifetime are those of the load specification from the old values |
| Products.Product.Clone | scripts/Product.cs:84-87 | a fresh product, distinct from this one, with the same name and lifetime |
| Products.ExpirationUnrestricted | scripts/Product.cs:42-45 | when the expiry day is open all day the expiry is exactly now plus the lifetime |
| Products.NamedValidity | scripts/Product.cs:29-32 | a product with the default lifetime is valid exactly when its name is not blank, so a new product is not valid |
| ProductLists.NamesOf | scripts/ProductList.cs:59 | the names of the products, position by position |
| ProductLists.FindFromMeaning | scripts/ProductList.cs:57-65 | the search from position i finds a name equal up to case (or exactly, when case-sensitive) with no match between i and it, or -1 when there is none |
| ProductLists.FindFromFirst | scripts/ProductList.cs:57-65 | the first match from i, or -1 when none, is what the search returns |
| ProductLists.Find | scripts/ProductList.cs:50-66 | IndexOf(name) is -1 or a position, and -1 for a blank name |
| ProductLists.FindMeaning | scripts/ProductList.cs:50-66 | IndexOf(name) is the first position whose name matches (up to case unless case-sensitive), -1 exactly when none matches or the name is blank |
| ProductLists.AddRecordCases | scripts/ProductList.cs:89-105 | a valid product with a new name is appended; with a present name it replaces the first product of that name when replace is set and is refused otherwise |
| ProductLists.ReplaceKeepsUnique | scripts/ProductList.cs:99 | replacing a product by one of the same name up to case keeps names unique up to case |
| ProductLists.AppendKeepsUnique | scripts/ProductList.cs:102 | appending a name not present up to case keeps names unique up to case |
| ProductLists.AddRecordUnique | scripts/ProductList.cs:89-105 | Add never creates two products whose names are equal up to case |
| ProductLists.LoadChildrenUnique | scripts/ProductList.cs:145-163 | LoadFromXml keeps product names unique up to case |
| ProductLists.PresentFound | scripts/ProductList.cs:94 | for a name that is not blank, Contains(name) holds exactly when some product has that name up to case |
| ProductLists.AddKeeps | scripts/ProductList.cs:89-105 | Add with replace never loses a name that was present |
| ProductLists.LoadChildrenKeeps | scripts/ProductList.cs:145-163 | loading never loses a name that was present |
| ProductLists.NonElementStopsLoad | scripts/ProductList.cs:147-149 | a comment or other non-element child stops the load with false; what the children before it merged stays, and the children after it are not read |
| ProductLists.AddRecordCount | scripts/ProductList.cs:89-105 | Add grows the list by one exactly for a valid product whose name is not present up to case, and keeps the count otherwise |
| ProductLists.OpenedStep | scripts/ProductList.cs:178-179 | each loop step appends the next product's text indented by one tab, and a newline |
| ProductLists.RecordsOf | scripts/ProductList.cs:185 | the values of the held products, position by position |
| ProductLists.PutRecords | scripts/ProductList.cs:99 | replacing in place at the index of the product's name is what Add with replace specifies, and keeps names unique |
| ProductLists.AppendRecords | scripts/ProductList.cs:102 | appending a product with a new name is what Add specifies, and keeps names unique |
| ProductLists.ProductList.constructor | scripts/ProductList.cs:14-18 | the list starts empty, before Load fills it |
| ProductLists.ProductList.IndexOfProduct | scripts/ProductList.cs:39-49 | -1 for an invalid product; otherwise the first position holding this very object, -1 exactly when it is not held |
| ProductLists.ProductList.IndexOf | scripts/ProductList.cs:50-66 | -1 for a blank name, otherwise the scan's answer: the search specification's index |
| ProductLists.ProductList.Scan | scripts/ProductList.cs:55-65 | the loop answers the first position whose name matches, compared as given or lower-cased, or -1 when none does |
| ProductLists.ProductList.ContainsProduct | scripts/ProductList.cs:68-71 | true exactly when the product is valid and held |
| ProductLists.ProductList.Contains | scripts/ProductList.cs:72-75 | true exactly when IndexOf(name, casesense) finds a product |
| ProductLists.ProductList.Get | scripts/ProductList.cs:77-83 | the product at an index in range, null otherwise |
| ProductLists.ProductList.GetByName | scripts/ProductList.cs:84-87 | the first product whose name matches up to case, null when none does |
| ProductLists.ProductList.Add | scripts/ProductList.cs:89-105 | null or an invalid product is refused with nothing changed; otherwise the result and new products are those of the Add specification: the product appended, put in place of the first of its name, or refused; Count is the length of the specification's list |
| ProductLists.ProductList.AddValid | scripts/ProductList.cs:94-104 | for a valid product, Add past its validity test appends, replaces in place or refuses as specified |
| ProductLists.ProductList.Replace | scripts/ProductList.cs:96-99 | the product takes the place of the first product of its name up to case; the list is what the Add specification gives with replacement, and names stay unique |
| ProductLists.ProductList.Put | scripts/ProductList.cs:99 | the product is stored at the index of its name, nothing else changes, and names stay unique |
| ProductLists.ProductList.Append | scripts/ProductList.cs:102 | the product is appended, and names stay unique |
| ProductLists.ProductList.RemoveAt | scripts/ProductList.cs:114-121 | true and the product removed exactly for an index in range, Count dropping by one; false with nothing changed otherwise |
| ProductLists.ProductList.RemoveProduct | scripts/ProductList.cs:106-109 | true exactly when the valid product is held; its first occurrence is removed |
| ProductLists.ProductList.Remove | scripts/ProductList.cs:110-113 | true exactly when IndexOf(name, casesense) finds a product, which is removed, Count dropping by one |
| ProductLists.ProductList.Clear | scripts/ProductList.cs:122-125 | the list is empty |
| ProductLists.ProductList.LoadFromXml | scripts/ProductList.cs:145-163 | the result and the new products are those of the load specification over the element's child nodes, where a node that is not an element fails the cast and the load; names stay unique |
| ProductLists.ProductList.LoadChild | scripts/ProductList.cs:151-159 | one child: a Product that loads is merged with Add(p, true); one that does not stops the load |
| ProductLists.ProductList.LoadedProduct | scripts/ProductList.cs:155-158 | a new product, loaded from the element, holds what the Product load specification gives from an empty name and a 24-hour lifetime |
| ProductLists.ProductList.ToString | scripts/ProductList.cs:164-183 | `<ProductList>`, each product's text indented by one tab on its own line, then `</ProductList>` |
| ProductLists.ProductList.LoadFromFile | scripts/Utility/XmlLoadable.cs:43-111 | false with nothing changed when the file yields no target element; otherwise LoadFromXml on it |
| ProductLists.ProductList.Load | scripts/ProductList.cs:127-134 | a missing file is first filled from the downloaded preset, failing when the download fails; then the file is loaded |
| ProductLists.ProductList.Save | scripts/ProductList.cs:135-138 | the products file is replaced by the XML header and the list's text |
| XmlLoadable.NoRootNoTarget | scripts/Utility/XmlLoadable.cs:85-88 | a document without a root element gives no element to load |
| XmlLoadable.BlankXPathIsRoot | scripts/Utility/XmlLoadable.cs:82-92 | with a blank XPath the root element is the one loaded |
| XmlLoadable.XPathSelects | scripts/Utility/XmlLoadable.cs:94-100 | with an XPath the node it selects is the one loaded, none when it selects nothing |
| XmlLoadable.FromFileIsFileTarget | scripts/Utility/XmlLoadable.cs:43-57 | the generic FromFile and the instance LoadFromFile pick the same target element |
| AppSettings.SettingsFileRoundTrip | scripts/Utility/XmlLoadable.cs:185-199 | FromFile<Settings> on the file Save wrote gives the saved option back, with no XPath or a blank one, given a parser that reads the written text as the element ToString describes |
| AppSettings.SettingsFromXmlRefuses | scripts/Utility/XmlLoadable.cs:218-232 | FromXml<Settings> gives null when the document element's option is missing or not a boolean |
| Products.ProductFromXmlRoundTrip | scripts/Utility/XmlLoadable.cs:218-232 | FromXml<Product> on ToString's text gives the product back, with no XPath or a blank one |
| Products.ProductFromElementRefuses | scripts/Utility/XmlLoadable.cs:158-166 | FromElement<Product> gives null for an element without Name or Lifetime, or whose Lifetime does not parse |
| XmlLoadable.LinesOf | scripts/Utility/XmlLoadable.cs:129-130 | the text with "\r\n" made "\n", split into at least one line |
| XmlLoadable.ToIndentedString | scripts/Utility/XmlLoadable.cs:125-144 | the loop as written: the first half of the lines are followed by a line break and the rest are run together, then the whole is indented |
| XmlLoadable.JoinSnoc | scripts/Utility/XmlLoadable.cs:135-141 | joining one more line adds a separator and the line |
| XmlLoadable.JoinedIsJoin | scripts/Utility/XmlLoadable.cs:135-141 | the corrected loop joins the (end-trimmed) lines back with "\n" |
| XmlLoadable.ToIndentedStringFixed | scripts/Utility/XmlLoadable.cs:125-144 | with a line break after every line but the last, lines without trailing white space come back as the text (with "\r\n" made "\n"), indented |
| XmlLoadable.SplitCons | scripts/Utility/XmlLoadable.cs:130 | splitting a one-character line and the rest gives that line and the rest's lines |
| XmlLoadable.FourLines | scripts/Utility/XmlLoadable.cs:129-130 | "a\nb\nc\nd" splits into four lines |
| XmlLoadable.MergesLines | scripts/Utility/XmlLoadable.cs:137-140 | on four lines the written guard `i + i < n` gives "a\nb\ncd", the intended one gives the lines back |
| XmlLoadable.ToIndentedStringMergesLines | scripts/Utility/XmlLoadable.cs:125-144 | for "a\nb\nc\nd" the written loop loses a line break that the corrected loop keeps |
| XmlLoadable.ToFile | scripts/Utility/XmlLoadable.cs:253-268 | an existing file without overwrite fails and is untouched; otherwise the file holds the XML header, "\r\n" and the text |
| XmlLoadable.ToFileReadsBack | scripts/Utility/XmlLoadable.cs:253-268 | the file ToFile wrote reads back as the header followed by the text |
| Xml.NameCharsFrom | scripts/Utility/Xml.cs:37-39 | the scan from position i succeeds exactly when every later character is a letter, digit or '_' |
| Xml.IsValid | scripts/Utility/Xml.cs:32-42 | an identifier is valid exactly when it is not empty, starts with a letter or '_', and has only letters, digits and '_' |
| Xml.NameOr | scripts/Utility/Xml.cs:74-75 | the element name used is the given one when valid and the type name otherwise; either way a valid identifier |
| Xml.ExpandAppend | scripts/Utility/Xml.cs:843 | the line-break rewriting works piece by piece over a concatenation |
| Xml.ExpandChar | scripts/Utility/Xml.cs:843 | each "\n" becomes "\r\n" followed by the tabs; any other character is kept |
| Xml.ExpandBreaks | scripts/Utility/Xml.cs:843 | the three Replace calls together put the tabs after every line break, whether written "\n" or "\r\n", and write every break as "\r\n" |
| Xml.IndentBreaksLines | scripts/Utility/Xml.cs:832-844 | Indent prefixes the tabs and puts them after every line break; an empty text gives just the tabs |
| Xml.IndentOneLine | scripts/Utility/Xml.cs:832-844 | a single line is indented by prefixing the tabs only |
| Xml.IntTextChars | scripts/Utility/Xml.cs:491-492 | an int's text is a '-' and digits, so it has no ',' to split on |
| Xml.IntListSplits | scripts/Utility/Xml.cs:649 | numbers joined by ", " split back into their texts, one piece each |
| Xml.IntListRoundTrip | scripts/Utility/Xml.cs:647-676 | each piece of a ", " list of Int32 values parses back to its value |
| Xml.ToVec2I | scripts/Utility/Xml.cs:258-278 | a vector exactly when X and Y are present and both parse as Int32 |
| Xml.ToVec3I | scripts/Utility/Xml.cs:322-355 | a vector exactly when X, Y and Z are present and all parse as Int32 |
| Xml.ToVec2IAttr | scripts/Utility/Xml.cs:647-676 | a value that does not split into two pieces on ", " gives nothing; a result is an Int32 vector |
| Xml.ToVec3IAttr | scripts/Utility/Xml.cs:706-735 | a value that does not split into three pieces gives nothing; a result is an Int32 vector |
| Xml.ToRect2IAttr | scripts/Utility/Xml.cs:766-796 | a value that does not split into four pieces gives nothing; a result is an Int32 rectangle |
| Xml.ToRect2I | scripts/Utility/Xml.cs:391-417 | a rectangle only when Position and Size are present and each reads as a two-piece vector, which are its position and size |
| Xml.Vec2INodeRoundTrip | scripts/Utility/Xml.cs:72-84 | ToVec2I of the element ToNodeString(Vector2I) writes gives the vector back |
| Xml.Vec3INodeRoundTrip | scripts/Utility/Xml.cs:100-114 | ToVec3I of the element ToNodeString(Vector3I) writes gives the vector back |
| Xml.NodeString2IShape | scripts/Utility/Xml.cs:72-84 | ToNodeString(Vector2I) is the indent tabs followed by `<name X="x" Y="y"/>` on one line |
| Xml.Vec2IAttributeRoundTrip | scripts/Utility/Xml.cs:487-494 | the value ToAttributeString(Vector2I) writes reads back as the vector |
| Xml.Vec3IAttributeRoundTrip | scripts/Utility/Xml.cs:530-538 | the value ToAttributeString(Vector3I) writes reads back as the vector |
| Xml.NamedTextFails | scripts/Utility/Xml.cs:766-785 | a piece that starts with a name (a letter) does not parse as an int |
| Xml.AttributeString2IStartsWithName | scripts/Utility/Xml.cs:487-494 | ToAttributeString(Vector2I) with no name starts with `Vector2I="` |
| Xml.RectAttributeUnreadable | scripts/Utility/Xml.cs:574-582 | the value ToAttributeString(Rect2I) writes as written (`Vector2I="x, y", Vector2I="w, h"`) never reads back as a rectangle |
| Xml.RectNodeUnreadable | scripts/Utility/Xml.cs:166-186 | the element ToNodeString(Rect2I) writes as written never reads back: its Position and Size values carry a name |
| Xml.RectAttributeRoundTrip | scripts/Utility/Xml.cs:574-582 | with the value "x, y, w, h" the rectangle reads back |
| Xml.RectNodeRoundTrip | scripts/Utility/Xml.cs:166-186 | with Position="x, y" and Size="w, h" the element reads back as the rectangle |
| StringTools.IndentMeaning | scripts/Utility/StringTools.cs:11-24 | a non-positive indent returns the text; otherwise the result starts with that many tabs, gains that many tabs per "\n", and removing the tabs after each "\n" gives the text back |
| StringTools.ReplaceLength | scripts/Utility/StringTools.cs:23 | replacing each "\n" by "\n" plus the tabs adds the tabs' length once per line break |
| StringTools.RemoveInserted | scripts/Utility/StringTools.cs:23 | deleting the tabs after every "\n" undoes the replacement |
| StringTools.KeepsCarriageReturn | scripts/Utility/StringTools.cs:23 | a "\r" before a "\n" is kept, with the tabs going after the "\n" |
| AppSettings.ParseBool | scripts/Settings.cs:67 | bool.Parse accepts exactly "True" or "False" in any letter case with white space around, and gives that value |
| AppSettings.LowerBoolText | scripts/Settings.cs:67-88 | the two texts of a boolean differ once lower-cased |
| AppSettings.TrimBoolText | scripts/Settings.cs:88 | the text ToString writes for a boolean has no surrounding white space |
| AppSettings.BoolRoundTrip | scripts/Settings.cs:67-88 | the text ToString writes for a boolean parses back to it |
| AppSettings.LoadSettings | scripts/Settings.cs:60-75 | the load succeeds exactly when the Use24HourClock attribute is present and parses; then the option is its value; otherwise the option is unchanged |
| AppSettings.SettingsRoundTrip | scripts/Settings.cs:60-91 | LoadFromXml of the element ToString describes succeeds and restores the option, whatever it was before |
| AppSettings.ConstructedDefaults | scripts/Settings.cs:11-20 | the option after construction is false when the file gives no element or the element does not load, and the loaded value otherwise |
| AppSettings.Settings.constructor | scripts/Settings.cs:11-20 | with no settings file the defaults are set and written to the file; otherwise the file is loaded, the defaults being kept when that fails, and no file is written |
| AppSettings.Settings.SetDefaults | scripts/Settings.cs:55-58 | the option is false: times shown on a 12-hour clock |
| AppSettings.Settings.LoadFromXml | scripts/Settings.cs:60-75 | the result and the new option are those of the load specification from the old option |
| AppSettings.Settings.Load | scripts/Settings.cs:44-50 | false with the option unchanged when there is no file or it does not parse; otherwise LoadFromXml of its element |
| AppSettings.Settings.Save | scripts/Settings.cs:51-54 | always succeeds and replaces the settings file with the XML header and the ToString text |
| Ranges.DefaultApply | scripts/Utility/Range.cs:43-51 | IRange.Apply: the minimum below it, the maximum above it (when not below the minimum), the value itself inside, and within the range whenever Min <= Max |
| Ranges.DefaultApplyIdempotent | scripts/Utility/Range.cs:43-51 | clamping twice is clamping once |
| Ranges.DefaultWithinRange | scripts/Utility/Range.cs:52-55 | IRange.WithinRange as written holds for every value once Min <= Max |
| Ranges.DefaultInRange | scripts/Utility/Range.cs:52-55 | the intended test holds exactly for the values Apply keeps |
| Ranges.DefaultWithinRangeAcceptsAbove | scripts/Utility/Range.cs:52-55 | the written test accepts Max + 1, which the intended one rejects |
| Ranges.IntRange.Full | scripts/Utility/Range.cs:60-64 | the whole int range, on which Apply changes nothing |
| Ranges.IntRange.constructor | scripts/Utility/Range.cs:65-69 | the given minimum, and the given maximum raised to the minimum when below it |
| Ranges.IntRange.SetMin | scripts/Utility/Range.cs:72-82 | the new minimum is stored and the maximum raised to it when below; Min <= Max holds after |
| Ranges.IntRange.SetMax | scripts/Utility/Range.cs:84-94 | the new maximum is stored and the minimum lowered to it when above; Min <= Max holds after |
| Ranges.IntRange.Apply | scripts/Utility/Range.cs:96-104 | the IRange clamp on ints: within [Min, Max] for a valid range, and the value itself inside it |
| Ranges.IntRange.WithinRange | scripts/Utility/Range.cs:105-108 | the written test, true for every value of a valid range |
| Ranges.IntRange.InRange | scripts/Utility/Range.cs:105-108 | the intended test: exactly the values Apply keeps |
| Ranges.IntApplyIdempotent | scripts/Utility/Range.cs:96-104 | clamping into an IntRange twice is clamping once |
| Ranges.IntWithinRangeAcceptsAbove | scripts/Utility/Range.cs:105-108 | an IntRange whose Max is below int.MaxValue accepts Max + 1 in WithinRange |
| Ranges.UIntRange.Full | scripts/Utility/Range.cs:115-119 | the whole uint range, on which Apply changes nothing |
| Ranges.UIntRange.constructor | scripts/Utility/Range.cs:120-124 | the given minimum, and the given maximum raised to the minimum when below it |
| Ranges.UIntRange.SetMin | scripts/Utility/Range.cs:127-137 | the new minimum is stored and the maximum raised to it when below; Min <= Max holds after |
| Ranges.UIntRange.SetMax | scripts/Utility/Range.cs:139-149 | the new maximum is stored and the minimum lowered to it when above; Min <= Max holds after |
| Ranges.UIntRange.Apply | scripts/Utility/Range.cs:151-159 | the IRange clamp on uints: within [Min, Max] for a valid range, and the value itself inside it |
| Ranges.UIntRange.WithinRange | scripts/Utility/Range.cs:160-163 | the written test, true for every value of a valid range |
| Ranges.UIntRange.InRange | scripts/Utility/Range.cs:160-163 | the intended test: exactly the values Apply keeps |
| Ranges.UIntApplyIdempotent | scripts/Utility/Range.cs:151-159 | clamping into a UIntRange twice is clamping once |
| Ranges.UIntWithinRangeAcceptsAbove | scripts/Utility/Range.cs:160-163 | a UIntRange whose Max is below uint.MaxValue accepts Max + 1 in WithinRange |
| Naming.ReplOf | scripts/Utility/Nameable.cs:80-83 | the replacement character used is always a visible one: the given one, or '_' |
| Naming.AsValidText | scripts/Utility/Nameable.cs:77-96 | a valid name is returned as it is; any other non-blank name is trimmed and each character that is neither visible nor a space is replaced, the length kept |
| Naming.AsValidTextIsValid | scripts/Utility/Nameable.cs:73-97 | what AsValid returns for a non-blank name is a valid name |
| Naming.TrimBeforeDigits | scripts/Utility/Nameable.cs:126-128 | a fresh name is the prefix trimmed at the front, followed by the count's digits |
| Naming.TrimBeforeText | scripts/Utility/Nameable.cs:128 | trimming a non-blank prefix followed by text that ends in a visible character trims only the prefix's front |
| Naming.TrimStartBefore | scripts/Utility/Nameable.cs:128 | the leading white space of a non-blank prefix is all that trimming at the front removes |
| Naming.NameForInjective | scripts/Utility/Nameable.cs:118-129 | two counts give the same name under one prefix only when they are equal |
| Naming.DefaultNameValid | scripts/Utility/Nameable.cs:120-128 | every "New Name" followed by a count is a valid name |
| Naming.NewNamesDistinct | scripts/Utility/Nameable.cs:118-129 | successive NewName calls with one prefix give different names |
| Naming.Namer.constructor | scripts/Utility/Nameable.cs:131 | the counter dictionary starts empty |
| Naming.Namer.IsValid | scripts/Utility/Nameable.cs:35-46 | the scan answers exactly whether the name is valid: not blank, not starting with white space, and made of letters, digits, punctuation, symbols and spaces |
| Naming.Namer.AllVisible | scripts/Utility/Nameable.cs:40-45 | true exactly when every character is a letter, digit, punctuation mark, symbol or space |
| Naming.Namer.NextName | scripts/Utility/Nameable.cs:121-128 | for a resolved prefix, the name is the prefix followed by its count, trimmed; that count goes up by one and no other count changes |
| Naming.Namer.NewDefaultName | scripts/Utility/Nameable.cs:75-76 | the NewName() of AsValid: the next default name, which is valid, with only the default prefix's count advanced |
| Naming.Namer.NewName | scripts/Utility/Nameable.cs:118-129 | the name is the prefix ("New Name" for a missing or blank one) followed by its count, trimmed; that count goes up by one and no other count changes |
| Naming.Namer.AsValid | scripts/Utility/Nameable.cs:73-97 | the result is always a valid name: a fresh default name for a blank name (advancing its count), otherwise the repaired name with the counter unchanged |
| Naming.Namer.AsValidNonBlank | scripts/Utility/Nameable.cs:77-96 | past the blank test, the result is the repaired name and is valid |
| Naming.Namer.Sanitize | scripts/Utility/Nameable.cs:86-96 | the StringBuilder loop keeps the length and puts the replacement for each character that is neither visible nor a space |
| Paths.Normalize | scripts/Utility/Paths.cs:60 | every '\\' and '/' becomes the platform separator and every other character is kept, so only one kind of separator remains |
| Paths.NormalizeIdempotent | scripts/Utility/Paths.cs:60 | normalising twice is normalising once |
| Paths.WithTrailing | scripts/Utility/Paths.cs:65 | the path with a separator appended unless it already ends with one |
| Paths.WithTrailingIdempotent | scripts/Utility/Paths.cs:65 | adding the trailing separator twice adds it once |
| Paths.GetUserData | scripts/Utility/Paths.cs:58-66 | empty exactly when the reported folder is empty; otherwise the normalised folder followed by one separator added only when it lacked one |
| Paths.GetUserDataIdempotent | scripts/Utility/Paths.cs:58-66 | the user data folder is left as it is by a second pass |
| Paths.GetExecutable | scripts/Utility/Paths.cs:137-161 | empty exactly when reading the location throws or the normalised path is empty or a lone separator; otherwise it ends with the separator |
| Paths.ExecutableFromFileUrl | scripts/Utility/Paths.cs:155-156 | a "file:" location with three separators loses those 8 characters |
| Paths.ExecutableFromHostUrl | scripts/Utility/Paths.cs:157-158 | a "file:" location with exactly two separators loses those 7 characters |
| Paths.ExecutableFromPlainPath | scripts/Utility/Paths.cs:152-160 | any other location is only normalised and given its trailing separator |
| Paths.NotStartsWithLonger | scripts/Utility/Paths.cs:155-158 | a path that does not start with "file:" does not start with either URL prefix |
| Paths.PathCache.constructor | scripts/Utility/Paths.cs:68-69 | nothing is cached at start-up |
| Paths.PathCache.UserData | scripts/Utility/Paths.cs:37-51 | the result is always GetUserData of the reported folder; the first access caches it and later accesses return the cached value unchanged |
| Paths.PathCache.Executable | scripts/Utility/Paths.cs:80-94 | the result is always GetExecutable of the location; the first access caches it and later accesses return the cached value unchanged |
| Paths.PathCache.SettingsPath | scripts/Utility/Paths.cs:98-104 | the user data folder followed by "settings.xml" |
| Paths.PathCache.OpenTimesPath | scripts/Utility/Paths.cs:108-114 | the user data folder followed by "times.xml" |
| Paths.PathCache.ProductsPath | scripts/Utility/Paths.cs:118-124 | the user data folder followed by "products.xml" |
| Paths.PathCache.LogPath | scripts/Utility/Paths.cs:129-135 | the user data folder followed by "log.txt" |
| Paths.AppendCancel | scripts/Utility/Paths.cs:98-135 | one folder followed by two names gives one path only for one name |
| Paths.FilePathsDistinct | scripts/Utility/Paths.cs:98-135 | the four data files lie in the user data folder and are four different paths, whatever the folder |
| Paths.DayDotTextureAsWritten | scripts/Utility/Paths.cs:175-185 | as written: null for an index below 0 or above 7, the texture for 0-6, and an index fault for 7, which passes the guard |
| Paths.DayDotTexture | scripts/Utility/Paths.cs:175-185 | corrected guard: a texture exactly for the indexes 0-6, always in the dots folder and ending in ".png" |
| Paths.DayDotTextureFault | scripts/Utility/Paths.cs:181-184 | index 7 faults as written and gives null with the corrected guard |
| Paths.DayDotTextureAgrees | scripts/Utility/Paths.cs:175-185 | apart from index 7 the written and corrected versions agree |
| Paths.DayDotTextureInjective | scripts/Utility/Paths.cs:184 | each weekday has its own texture path |

## Left out

- The XML parser, the DOM and XPath evaluation are library code. A document is the root element it parsed to plus a selection function, and parsing text is a parameter. Escaping of XML-special characters in attribute values is therefore not modelled.
- TimeSpan.ToString and TimeSpan.Parse are a parameter pair (`Products.SpanText`). Round trips through the product text assume the pair round-trips.
- `Environment.NewLine`, which `StringBuilder.AppendLine` writes, is a parameter.
- Downloading the preset files (`Utility.DownloadFile`, the `DownloadPaths` URLs) is an input: the downloaded text, or None when the download fails.
- `Logger` calls only log a message and pass a value through, so the model keeps the value and drops the message.
- The double-checked-lock singletons (`Settings.Instance`, `OpenHours.Instance`, `ProductList.Instance`) and their locks are left out. So is the locking in the cached paths. The model is sequential.
- Each instance is a plain object that the caller creates and passes in.
- The float types are left out: `Vector2`, `Vector3`, `Rect2`, `Color`, their Xml text forms and readers, and `FloatRange`. The model has no floating point.
- IntRange and UIntRange are C# structs, so assignment copies them. They are modelled as classes holding the two bounds, and the model does not capture copy-on-assignment.
- Naming.Namer.NewName: the `ulong` counter is an unbounded `nat`, so the wrap-around after 2^64 names is not modelled.
- AppSettings.ParseBool: bool.Parse also trims '\0' characters. Only white space is trimmed here.
- Character classes (`char.IsLetter`, `IsPunctuation`, `IsSymbol`, `IsWhiteSpace`) and `ToLower` are modelled over ASCII only, with the culture-invariant rules.
- The `INameable` overloads `Naming.IsValid(INameable)` and `Naming.AsValid(INameable)` only forward the object's name to the string versions, which are modelled.
- `FolderPaths.Executable` depends on `Path.GetDirectoryName`, which is not part of this model. `ResourcePaths.ProductEntry` is a scene constant used only by the UI.
- The Godot UI scripts (`DayDot`, `DotManager`, `ProductEntry`, `ProductEntryList`) are not part of this model.
- The assembly location and the operating system's user data folder are parameters of `Paths.PathCache`.
- `OS.GetUserDataDir()` is assumed never to return null.
- XmlLoadable.FromElement: unlike FromXmlDoc it has no `catch`, so an exception inside LoadFromXml (such as ProductList's cast of a non-element child) escapes to the caller instead of giving null. The model gives none either way.
- Files hold either typed tokens or text. So `BinarySerializable.FromFile(val, path)` (the model's `Serializable.IndexedLoadFile` and `StringLoadFile`) on a text file fails before `_items.Clear()` and leaves the items unchanged. The source reads the text's bytes as Int32 values and clears the list first.
- Database.IndexedDatabase.LoadFromStream: `_items.Capacity = count` throws OutOfMemoryException on a huge count, and the source then returns false with an empty list. The model has no memory bound, so it returns false with the items read before the stream ran out.
- Write failures that `XmlLoadable.ToFile` and `BinarySerializable.ToFile` catch and report as false are not modelled. Writing to the file store always succeeds, which is why `Settings.Save` and the `ToFile` members never fail once the existing-file check passes.
- Times.TimeOfDay.CompareTo: `CompareTo(null)` throws ArgumentNullException, and the comparison operators dereference a null left operand. The model's parameters are never null, so that error path is not modelled; the same goes for Less, LessOrEqual, Greater and GreaterOrEqual.

## Findings

| source | as written | input that shows it | evidently intended | confidence | as-written member | corrected member |
|---|---|---|---|---|---|---|
| scripts/Utility/Paths.cs:181 | `index > names.Length` lets index 7 through to `names[7]`, which throws | a `DayOfWeek` value of 7 | `index >= names.Length`: null for every index outside 0-6 | high, not executed | Paths.DayDotTextureAsWritten, Paths.DayDotTextureFault | Paths.DayDotTexture |
| scripts/Utility/XmlLoadable.cs:137 | a line break follows line i only when `i + i < lines.Length`, so the later half of the lines run together | an object whose text is "a\nb\nc\nd" gives "a\nb\ncd" before indenting | `i + 1 < lines.Length`: a line break between every two lines | high, not executed | XmlLoadable.ToIndentedString, XmlLoadable.ToIndentedStringMergesLines | XmlLoadable.ToIndentedStringFixed |
| scripts/Utility/Xml.cs:166-186 | the Position and Size attributes of a Rect2I node hold a whole `Vector2I="x, y"` attribute string, quotes included, which ToRect2I cannot parse back | any Rect2I, e.g. position (0, 0) and size (1, 1) | attribute values "x, y" that ToRect2I reads back | high, not executed | Xml.RectNodeUnreadable | Xml.RectNodeRoundTrip |
| scripts/Utility/Xml.cs:574-582 | the Rect2I attribute string embeds the two Vector2I attribute strings, names and quotes included, which the four-part reader rejects | any Rect2I | "x, y, w, h", which ToRect2I reads back | high, not executed | Xml.RectAttributeUnreadable | Xml.RectAttributeRoundTrip |
| scripts/Utility/Range.cs:52-55 | WithinRange returns `!(val < Min && val > Max)`, which is true for every value once Min <= Max | Min = 0, Max = 10, val = 11 | `Min <= val && val <= Max` | high, not executed | Ranges.DefaultWithinRangeAcceptsAbove | Ranges.DefaultInRange |
| scripts/Utility/Range.cs:105-108 | IntRange.WithinRange has the same test | Min = 0, Max = 10, val = 11 | `Min <= val && val <= Max` | high, not executed | Ranges.IntWithinRangeAcceptsAbove | Ranges.IntRange.InRange |
| scripts/Utility/Range.cs:160-163 | UIntRange.WithinRange has the same test | Min = 0, Max = 10, val = 11 | `Min <= val && val <= Max` | high, not executed | Ranges.UIntWithinRangeAcceptsAbove | Ranges.UIntRange.InRange |
