# Postmortem: verified models of the decoding and correlation core

Postmortem explains why a Windows machine crashed. It decodes firmware error records, groups
hardware errors into incidents, lays out a timeline of boots and crashes, and can change a few
power and crash-dump settings in a way it promises to be able to undo. This project models the
parts of it whose correctness is not obvious from one function, and proves what they promise.

- **JSON** (`JsonWriter`, `JsonReader`, `JsonRoundTrip`, `JsonGrammar`, `JsonLayout`): the streaming
  writer as a class with its frame stack, the recursive-descent parser as a class with its cursor,
  each proved equal to a specification; that the one undoes the other; exactly which texts the
  reader accepts; and how the writer's two layouts are related.
- **Snapshots and mitigations** (`StateStore`, `Mitigate`): the file of saved settings, and
  `mitigate apply` and `revert` as steps of a machine, over whole runs and every pattern of failed
  reads, writes and saves.
- **Time** (`Calendar`, `Timestamps`): the era arithmetic against stepping one day at a time, and
  the timestamp formatter and parser.
- **Incidents and the timeline** (`Whea`, `CrashTimeline`, `Grouping`, `Trends`): one-pass
  algorithms against what they summarise.
- **CPER records** (`Cper`, `CperTrace`, `CperRoundTrip`): the decoder of UEFI Specification
  Appendix N, with and without a trace, against the bytes each field is laid out in.
- **Typed values** (`Integers`, `Blobs`, `Durations`), **XML** (`Xml`, `XmlText`, `XmlRoundTrip`,
  `XmlExact`), **SMBIOS** (`Smbios`): parsers and their inverses, and exactly which markup is read.
- **Kernel trace counting** (`Etw`): counters and stack samples under every interleaving of the
  callback with the thread that takes them.
- **Word wrap** (`Wrap`): the greedy line filling and its optimality.
- `Text`, `Arithmetic`, `Splits` and `Sorting` hold what the others share.

Text is a `string` whose characters stand for the octets of a `std::string`; bytes are numbers
below 256. A loop or an object that changes state in the source is a method or a class here, and
its contract equates it with a recursive function; the lemmas speak of that function. Functions
and values that have the same name but for a short wrapper ("a name that does not unfold") are
the same thing: the wrapper only keeps definitions folded in proofs. Calls into the operating
system are parameters: the settings a machine has, the outcome of a read or a write, the answer to a
prompt, the clock, the events that arrive and when.

## Model

| member | source | states |
|---|---|---|
| JsonWriter.EscapeText | postmortem/src/core/json/writer.cpp:22-48 | the escaping loop appends exactly the specification's escape of each character |
| JsonWriter.StepRepresents | postmortem/src/core/json/writer.cpp:50-157 | every legal call keeps the writer's frames, pending key and text in step with the partly built document |
| JsonWriter.CompleteRunWritesDocument | postmortem/src/core/json/writer.cpp:50-157 | any legal call sequence that closes what it opens has written the text of exactly one document, the one its calls describe, pretty or compact |
| JsonWriter.WriterWritesEveryDocument | postmortem/src/core/json/writer.cpp:50-157 | for every document there is a legal call sequence that writes its text |
| JsonLayout.EscapeTells | postmortem/src/core/json/writer.cpp:22-48 | a character stands for itself unless it is a quote, a backslash or a control character; those have a letter or the four digits of their code |
| JsonLayout.PrettyIsSpread | postmortem/src/core/json/writer.cpp:50-125 | the pretty text of a document is its compact text with each child on a line of its own, two spaces in for each container around it, closing brackets below their children and a space after each colon, put in by a scan that knows only the characters |
| JsonLayout.CompactIsSqueezed | postmortem/src/core/json/writer.cpp:50-125 | the compact text has no white space outside its strings, and dropping that of the pretty text leaves the compact one |
| JsonWriter.Writer.BeginValue | postmortem/src/core/json/writer.cpp:57-71 | a value takes its separator and line break unless a key already did; the object stays the state its calls lead to |
| JsonWriter.Writer.Begin | postmortem/src/core/json/writer.cpp:73-97 | opening a container leaves the writer in the state its longer call history leads to |
| JsonWriter.Writer.End | postmortem/src/core/json/writer.cpp:80-107 | closing the innermost container does so too, with a line break only if it is not empty |
| JsonWriter.Writer.Key | postmortem/src/core/json/writer.cpp:109-125 | a key leaves the writer waiting for the value of that key |
| JsonWriter.Writer.Value | postmortem/src/core/json/writer.cpp:127-133 | a string value is one call of the history |
| JsonWriter.Writer.ValueInt | postmortem/src/core/json/writer.cpp:135-139 | an integer value is one call of the history |
| JsonWriter.Writer.ValueBool | postmortem/src/core/json/writer.cpp:147-151 | a boolean value is one call of the history |
| JsonWriter.Writer.ValueNull | postmortem/src/core/json/writer.cpp:153-157 | a null value is one call of the history |
| JsonWriter.Writer.MemberText | postmortem/src/core/json/writer.cpp:159-161 | a text member is a key and a value |
| JsonWriter.Writer.MemberInt | postmortem/src/core/json/writer.cpp:163-165 | an integer member is a key and a value |
| JsonWriter.Writer.MemberBool | postmortem/src/core/json/writer.cpp:171-173 | a boolean member is a key and a value |
| JsonReader.Parser.DoEscape | postmortem/src/core/json/reader.cpp:193-234 | an escape is replaced by what the specification says, or the first error is kept with its offset |
| JsonReader.Parser.DoString | postmortem/src/core/json/reader.cpp:177-237 | the string loop reads what the specification reads, whatever follows the quote |
| JsonReader.Parser.DoNumber | postmortem/src/core/json/reader.cpp:239-272 | a number is the longest lexeme of sign, digits, fraction and exponent, with the reader's own leniency |
| JsonReader.Parser.DoValue | postmortem/src/core/json/reader.cpp:77-106 | a value at a depth is what the specification reads there, or its first error; nothing past depth 64 is entered |
| JsonReader.Parser.DoArray | postmortem/src/core/json/reader.cpp:147-175 | the element loop reads what the specification reads |
| JsonReader.Parser.DoObject | postmortem/src/core/json/reader.cpp:108-145 | the member loop reads what the specification reads; a repeated key keeps its last value |
| JsonReader.ParseText | postmortem/src/core/json/reader.cpp:33-53 | the whole parser, on every text, gives the specification's value or its error text |
| JsonRoundTrip.IntegerRoundTrip | postmortem/src/core/json/writer.cpp:135-145 | every integer reads back from the lexeme it is written as |
| JsonRoundTrip.DocumentRoundTrip | postmortem/src/core/json/reader.cpp:33-270 | the text of a document, white space around it, is accepted exactly when no value is inside more than 64 containers, and then gives back exactly that document's value |
| JsonRoundTrip.WriterReaderRoundTrip | postmortem/src/core/json/writer.cpp:22-157 | whatever complete call sequence the writer saw, the reader gives back the value the calls describe, or refuses it for its nesting alone |
| JsonGrammar.TextReadsAs | postmortem/src/core/json/reader.cpp:33-272 | a text of a value (RFC 8259, and what the reader allows beyond it), with any white space between its parts, any escapes in its strings and any shape of its numbers, is accepted exactly when no value is inside more than 64 containers, and then gives what it means |
| JsonGrammar.AcceptedIsText | postmortem/src/core/json/reader.cpp:33-272 | whatever the reader accepts is such a text of a value nested no deeper, and what it gives is what the text means |
| JsonGrammar.AcceptsExactly | postmortem/src/core/json/reader.cpp:33-272 | so the reader accepts exactly the texts of values with at most 64 containers around any value |
| JsonGrammar.PiecesRead | postmortem/src/core/json/reader.cpp:177-237 | the characters of a string, each itself, by an escape letter or by four hexadecimal digits, are read as what they stand for |
| JsonGrammar.NumberReads | postmortem/src/core/json/reader.cpp:239-272 | a number with any sign, digits, fraction and exponent is read whole |
| JsonGrammar.Utf8ReadsBack | postmortem/src/core/json/reader.cpp:212-229 | the octets of a code of four digits stand for that code (RFC 3629) |
| JsonGrammar.SkipsWhite | postmortem/src/core/json/reader.cpp:63-69 | skipping white space skips all of it and nothing else |
| StateStore.LoadSave | postmortem/src/platform/state.cpp:86-162 | every saved file loads, to the entries that name a mitigation, in order, each unchanged but for its time having passed through a double |
| StateStore.LoadsWhatIsUnchanged | postmortem/src/platform/state.cpp:86-162 | loading a saved list gives the list back exactly when every entry names a mitigation and its time survives the conversion to a double and back |
| StateStore.LoadAfterSave | postmortem/src/platform/state.cpp:86-162 | it does so however numbers past 2^53 are rounded exactly when every time is within 2^53 in magnitude |
| StateStore.LoadAfterSaveDoubles | postmortem/src/core/json/reader.cpp:349-352 | with round-half-even to 53 bits it does so exactly when every time is a double of 64 bits |
| StateStore.ToDoubleExact | postmortem/src/core/json/reader.cpp:268-269 | that rounding leaves alone exactly the products of a number up to 2^53 and a power of two |
| StateStore.NearestTells | postmortem/src/core/json/reader.cpp:268-269 | it takes the nearest multiple, of two as near the even one |
| StateStore.PastTheLimit | postmortem/src/core/json/reader.cpp:268-269 | 2^53 + 1 is read as 2^53, 2^53 + 2 as itself |
| StateStore.Store.Load | postmortem/src/platform/state.cpp:86-126 | an absent file is no error, a file that is not JSON leaves the entries alone, any other replaces them |
| StateStore.Store.Add | postmortem/src/platform/state.cpp:164-175 | an entry is added only if its mitigation, scope and key have none, so the first value survives |
| StateStore.Store.Remove | postmortem/src/platform/state.cpp:177-183 | all entries of the mitigation go, the others stay in order |
| StateStore.Store.EntriesFor | postmortem/src/platform/state.cpp:185-191 | exactly the entries of the mitigation, in order |
| StateStore.AddedTells | postmortem/src/platform/state.cpp:164-175 | no two entries ever have one mitigation, scope and key |
| StateStore.PartsTell | postmortem/src/platform/state.cpp:177-191 | the entries of a mitigation and those of the others are in the order of the list, wherever they stand in it |
| StateStore.Store.Save | postmortem/src/platform/state.cpp:128-162 | a successful save leaves the text the load lemmas speak of, a failed one the old file |
| Mitigate.RunRemembersOriginals | postmortem/src/commands/mitigate.cpp:340-526 | over every run and every pattern of failed reads, writes and saves, the stored entry of a mitigation and cell is what was read of the cell before the first recorded apply since the records were last dropped, by a recorded revert or by an apply that saved over a state file it could not read |
| Mitigate.RevertsWhenRecorded | postmortem/src/commands/mitigate.cpp:341-349 | a revert finds a snapshot exactly when something is so recorded and the state file can be read |
| Mitigate.RevertPutsBack | postmortem/src/commands/mitigate.cpp:358-405 | a revert rewrites every recorded cell from that original and no other cell |
| Mitigate.RevertRestores | postmortem/src/commands/mitigate.cpp:358-390 | a cell of which a value was so recorded has that value again exactly when its write succeeds, it already had it, or the half that was written made it so |
| Mitigate.SuccessMeansWritten | postmortem/src/commands/mitigate.cpp:358-411 | a confirmed revert reports success exactly when every write it had to make went through |
| Mitigate.SuccessMeansRestored | postmortem/src/commands/mitigate.cpp:358-411 | when it reports success, every cell of which a value was recorded has that value again |
| Mitigate.OneOwner | postmortem/src/commands/mitigate.cpp:46-71 | no two mitigations may touch one cell |
| Mitigate.CommandKeepsOtherCells | postmortem/src/commands/mitigate.cpp:340-526 | no command changes a cell of another mitigation |
| Mitigate.ApplyReachesWanted | postmortem/src/commands/mitigate.cpp:319-330 | an apply changes a power setting only of a scheme that is there and whose identifier or name `--scheme` gives, or of any when it gives none or "all" |
| Mitigate.ApplyReachesAllWanted | postmortem/src/commands/mitigate.cpp:431-460 | and of every such scheme whose setting can be read and written it sets it to the target |
| Mitigate.RevertIgnoresSchemes | postmortem/src/commands/mitigate.cpp:341-390 | a revert restores what is recorded, whatever schemes are asked for |
| Mitigate.ExitCodesTell | postmortem/src/commands/mitigate.cpp:307-330 | a known, elevated command is refused for its usage exactly when the scheme it asks for is not "all" and no scheme has that identifier or name; it needs elevation exactly when it is known and not elevated; neither changes anything |
| Mitigate.TurnedDown | postmortem/src/commands/mitigate.cpp:341-356 | a revert the user turns down is a success exactly when there was something to restore |
| Mitigate.ApplySucceeds | postmortem/src/commands/mitigate.cpp:414-526 | an apply is a success exactly when it goes through or would have had the user not turned it down; turned down, nothing changes |
| Mitigate.RunKeepsFirstValue | postmortem/src/commands/mitigate.cpp:340-526 | along runs of commands whose reads, writes and saves all succeed, a cell present at the start has its first value or its owner's snapshot has |
| Mitigate.AllRevertedRestoresStart | postmortem/src/commands/mitigate.cpp:340-526 | along such runs, once nothing is left to revert, every setting present at the start is as it was |
| Mitigate.ApplySetsAndRecords | postmortem/src/commands/mitigate.cpp:414-526 | an apply sets each cell whose write succeeds to its target; saved, it leaves what the file it read had of the cell, or else what it read of the cell; unsaved, it leaves the records alone |
| Mitigate.RecordSurvives | postmortem/src/platform/state.cpp:93-99 | an apply keeps a record, of any mitigation, exactly when it is not saved, or the state file could be read, or what it records instead is the same |
| Mitigate.AppliedTwice | postmortem/src/platform/state.cpp:164-174 | applied twice, the first value stays recorded if the file could be read the second time; if not, the value the first apply set is recorded |
| Mitigate.AppliedAfter | postmortem/src/platform/state.cpp:93-99 | an apply of another mitigation forgets the record exactly when it could not read the file |
| Mitigate.UnreadApplyForgets | postmortem/src/platform/state.cpp:93-99 | on one machine: the original of a dump setting is 1 if the second apply could read the file, 2 if not |
| Mitigate.UnreadApplyForgetsOthers | postmortem/src/platform/state.cpp:93-99 | on one machine: a record of another mitigation is gone if the second apply could not read the file |
| Mitigate.AppliedThenReverted | postmortem/src/commands/mitigate.cpp:414-526 | applied and reverted with every write successful, a cell is as it was exactly when it was read as it was, or could not be read and was at the target already |
| Mitigate.BlindRevert | postmortem/src/commands/mitigate.cpp:494-498 | on one machine: a registry value that could not be read is recorded as absent and stays as the apply set it |
| Mitigate.NothingToPutBack | postmortem/src/commands/mitigate.cpp:515-526 | a cell changed by an unsaved apply and not recorded before is changed by no revert |
| Mitigate.SecondRevertRuns | postmortem/src/commands/mitigate.cpp:400-405 | whether or not its writes succeeded, a revert can be repeated exactly when it was not saved and the second session is ready, confirmed and can read the file |
| Mitigate.FailedRevertStays | postmortem/src/commands/mitigate.cpp:400-405 | on one machine: no write of a revert succeeds, the setting stays changed, and the second revert does nothing |
| Mitigate.Computer.Restore | postmortem/src/commands/mitigate.cpp:358-390 | the restoring loop is the fold the lemmas speak of, and knows whether every write succeeded |
| Mitigate.Computer.ApplyToSchemes | postmortem/src/commands/mitigate.cpp:431-460 | each readable scheme is recorded and written, an unreadable one is skipped |
| Mitigate.Computer.ApplyToRegistry | postmortem/src/commands/mitigate.cpp:481-512 | each value is recorded, present or not, and written |
| Mitigate.Computer.RunMitigate | postmortem/src/commands/mitigate.cpp:296-526 | the command is one step of the machine, with the exit code of that step |
| Calendar.CivilOfDays | postmortem/src/core/text/format.cpp:70-94 | the date of a valid date's day number is that date |
| Calendar.NextDayNumber | postmortem/src/core/text/format.cpp:70-79 | the day after a valid date has the next number, across months, leap years and eras |
| Calendar.CivilIsStepped | postmortem/src/core/text/format.cpp:81-94 | for every integer, the era arithmetic gives the date reached by stepping that many days from 1970-01-01, and its number is that integer |
| Calendar.DaysAreSteps | postmortem/src/core/text/format.cpp:70-79 | stepping a valid date's day number of days from 1970-01-01 reaches the date |
| Calendar.YearReadsBack | postmortem/src/core/text/format.cpp:81-94 | the divisions by 1460, 36524 and 146096 recover the year of the era from every day of it |
| Timestamps.StampParses | postmortem/src/core/text/format.cpp:115-175 | a timestamp with any fraction and offset parses exactly when its fields are in range, to its calendar seconds less the offset and its first nine fraction digits (RFC 3339, section 5.6) |
| Timestamps.BillionthsBound | postmortem/src/core/text/format.cpp:142-156 | any digits give less than a second |
| Timestamps.BillionthsTell | postmortem/src/core/text/format.cpp:142-156 | up to nine digits denote their fraction of a second; further ones do not matter |
| Timestamps.FormatParses | postmortem/src/core/text/format.cpp:177-192 | parsing a formatted time gives it back with no fraction exactly when its year is 0 to 9999, and fails otherwise |
| Timestamps.TakeDigits | postmortem/src/core/text/format.cpp:96-105 | exactly the asked-for digits, or nothing |
| Timestamps.DoPad | postmortem/src/core/text/format.cpp:107-113 | the padding loop gives the filled numeral |
| Timestamps.NineDigits | postmortem/src/core/text/format.cpp:146-155 | the scaled sum of the first nine digits |
| Timestamps.Parse | postmortem/src/core/text/format.cpp:115-175 | the parser with its cursor gives the specification's instant on every text |
| Wrap.FillGood | postmortem/src/core/text/table.cpp:126-162 | the filled lines hold the words in order, only a one-word line exceeds the width, and no line could have taken the next word |
| Wrap.StaysAhead | postmortem/src/core/text/table.cpp:126-162 | after any number of lines the greedy layout has placed at least as many words as any other acceptable one |
| Wrap.FewestLines | postmortem/src/core/text/table.cpp:126-162 | no acceptable layout of the same words, indents and width has fewer lines |
| Wrap.WrappedReadsSame | postmortem/src/core/text/table.cpp:126-162 | the words of the wrapped text are the words of the text |
| Wrap.BodyTells | postmortem/src/core/text/table.cpp:126-162 | the first line is indented by the first indent and every later one by the hanging indent |
| Wrap.WrapText | postmortem/src/core/text/table.cpp:126-162 | the loop over column, first word and first line writes that layout |
| Wrap.Paragraph | postmortem/src/core/text/table.cpp:166-168 | a paragraph is the layout with one indent throughout |
| Wrap.Bullet | postmortem/src/core/text/table.cpp:170-177 | a bullet is the layout indented by two more, the first blank after its indent replaced by a dash |
| Whea.SameBlockWhenLinked | postmortem/src/core/events/whea.cpp:111-145 | two records of the sorted log share an incident exactly when a chain of records with gaps within the window links them |
| Whea.InOrderTells | postmortem/src/core/events/whea.cpp:112-115 | the sorted log is in order of time, and of record identifiers where the time is the same |
| Whea.OrderDoesNotMatter | postmortem/src/core/events/whea.cpp:111-145 | two orderings of one log give the same incidents: the same records, times, lists and flags |
| Whea.ClusterConserves | postmortem/src/core/events/whea.cpp:111-145 | the incidents hold every record of the log, once |
| Whea.BitTells | postmortem/src/core/events/whea.cpp:35-45 | a record overflowed exactly when bit 62 of its status register is set; without a decoded status it is uncorrected or has its context corrupt exactly when bit 61 or 57 is |
| Whea.Cluster | postmortem/src/core/events/whea.cpp:111-145 | each incident gathers its block: first and last time, sorted sets of APICs and banks, flags that hold exactly if they do of some record |
| Whea.Mark | postmortem/src/core/events/whea.cpp:155-165 | one incident is marked harvested exactly when some boot lies within the window before it, with the distance to the latest one |
| Whea.UpperBound | postmortem/src/core/events/whea.cpp:156-158 | binary search finds how many boots are at or before a time |
| Whea.MarkPostBootHarvest | postmortem/src/core/events/whea.cpp:147-166 | every incident is so marked, in place |
| CrashTimeline.CollapsedRows | postmortem/src/core/events/crash_timeline.cpp:206-236 | the repeats add up to the entries, no two neighbours still collapse, and collapsing again changes nothing |
| CrashTimeline.GroupsShape | postmortem/src/core/events/crash_timeline.cpp:214-236 | the rows stand for consecutive groups of the entries, in order, none lost |
| CrashTimeline.RowFields | postmortem/src/core/events/crash_timeline.cpp:216-234 | a row is its first entry, counted, with exactly the notes of its group |
| CrashTimeline.GroupsTell | postmortem/src/core/events/crash_timeline.cpp:214-220 | the entries of one row are of one kind, say the same and lie within five seconds of the first; the next row is of another kind, says something else or begins later |
| CrashTimeline.RowNotes | postmortem/src/core/events/crash_timeline.cpp:222-231 | a row has the notes of its first entry and then each further note once, in the order in which they first come |
| CrashTimeline.RepeatsAddUp | postmortem/src/core/events/crash_timeline.cpp:216-234 | nothing is lost by collapsing |
| CrashTimeline.CutShape | postmortem/src/core/events/crash_timeline.cpp:238-274 | after the rows before the first boot marker come blocks that begin with boot markers more than 60 seconds apart and hold no later one |
| CrashTimeline.SessionTells | postmortem/src/core/events/crash_timeline.cpp:238-274 | each session's start, end, flags and WHEA count are those of the rows of its block, and it points at the block's first row |
| CrashTimeline.NamedAt | postmortem/src/core/events/crash_timeline.cpp:255-256 | each row names the session open when it is reached, if any |
| CrashTimeline.RowInBlock | postmortem/src/core/events/crash_timeline.cpp:239-256 | and that is the session whose block the row lies in |
| CrashTimeline.AssignSessions | postmortem/src/core/events/crash_timeline.cpp:238-274 | the in-place loop gives every row its session and builds those sessions |
| CrashTimeline.CollapseRows | postmortem/src/core/events/crash_timeline.cpp:214-236 | the collapsing loop gives those rows |
| CrashTimeline.CountResets | postmortem/src/core/events/crash_timeline.cpp:276-290 | the headline counts are the number of unexpected shutdowns without a bugcheck code or with code 0, and of those with another code; together they are all unexpected shutdowns |
| CrashTimeline.BuildTimeline | postmortem/src/core/events/crash_timeline.cpp:206-290 | sorting, collapsing, cutting and counting compose to all of the above, and the headline counts are those of the rows of the timeline |
| Grouping.OrderDoesNotMatter | postmortem/src/core/events/grouping.cpp:141-183 | a summary of the same records in another order has the same rows in the same order |
| Grouping.CountsAddUp | postmortem/src/core/events/grouping.cpp:141-183 | the counts sum to the records that are there |
| Grouping.OneOrder | postmortem/src/core/events/grouping.cpp:176-181 | rows with given contents have one order by falling count, then key |
| Grouping.RankTells | postmortem/src/core/events/grouping.cpp:176-181 | of two rows the one with more records comes first, and of two with as many the one whose key is smaller at the first text where they differ |
| Grouping.TextTells | postmortem/src/core/events/grouping.cpp:176-181 | where one text is smaller than another when it is its beginning or has the smaller character where they first differ |
| Grouping.KeyTells | postmortem/src/core/events/grouping.cpp:149-156 | a key has one text for each chosen field, in the order they were chosen |
| Sorting.OneRanking | postmortem/src/core/events/analysis.cpp:12-21 | so have elements under any comparison that never holds both ways |
| Grouping.GroupRecords | postmortem/src/core/events/grouping.cpp:141-183 | one row for each key there is, with how many records have it and the earliest and latest of their times, ranked |
| Trends.MedianPermuted | postmortem/src/core/events/analysis.cpp:23-29 | the median does not depend on the order of the values |
| Trends.MedianBetween | postmortem/src/core/events/analysis.cpp:23-29 | and lies between any bounds of them |
| Trends.MedianTells | postmortem/src/core/events/analysis.cpp:23-29 | and is, of the values in ascending order, the one in the middle or half the sum of the two in the middle, without its fraction |
| Trends.Median | postmortem/src/core/events/analysis.cpp:23-29 | sorting and taking the middle computes it |
| Trends.ClassifyTrend | postmortem/src/core/events/analysis.cpp:33-51 | the trend compares the medians of the halves by the 25 percent rule |
| Trends.TrendTells | postmortem/src/core/events/analysis.cpp:33-51 | errors accelerate when every interval of the later half is shorter than three quarters of every one of the earlier half, decelerate when it is the other way round, and are steady when no two are that far apart; fewer than four intervals say nothing |
| Trends.ZeroesSayNothing | postmortem/src/core/events/analysis.cpp:41-44 | nor does an earlier half that took no time |
| Trends.BackwardsIsOpposite | postmortem/src/core/events/analysis.cpp:33-51 | an even number of non-negative intervals, reversed, has the opposite trend |
| Trends.TimesBackwards | postmortem/src/core/events/analysis.cpp:134-147 | so have the intervals of an odd number of incidents in time order |
| Trends.IntervalsTelescope | postmortem/src/core/events/analysis.cpp:134-145 | the intervals add up to the span, so their mean is the span over one less than the incidents |
| Trends.MeanTells | postmortem/src/core/events/analysis.cpp:134-147 | the mean is the span over the number of intervals, without its fraction |
| Trends.AnalyseSpacing | postmortem/src/core/events/analysis.cpp:134-147 | the loop gives those intervals, with their median, mean and trend |
| Trends.OneTally | postmortem/src/core/events/analysis.cpp:12-21 | values have one tally: each once, with its count, most frequent first and then the smaller |
| Trends.TallyTells | postmortem/src/core/events/analysis.cpp:12-21 | of two values of a tally the one that occurs more often comes first, and the smaller of two that occur as often |
| Trends.PerApic | postmortem/src/core/events/analysis.cpp:116-131 | counting the incidents' APIC identifiers and listing the counts gives it |
| Trends.SomePageTwice | postmortem/src/core/events/analysis.cpp:53-80 | with fewer pages than samples, two samples share a page |
| Trends.PageTells | postmortem/src/core/events/analysis.cpp:53-66 | the page of an address is its bits 12 to 55, unless its 56 low bits are zero |
| Trends.AnalyseAddresses | postmortem/src/core/events/analysis.cpp:53-80 | samples, distinct pages and the largest page are exact, and addresses called clustered include a page with at least two samples |
| Cper.LittleEndianReadsBack | postmortem/src/core/cper/reader.hpp:119-127 | a number is read back from its bytes |
| Cper.DoLittleEndian | postmortem/src/core/cper/reader.hpp:119-127 | the shifting loop reads it, and nothing outside the buffer |
| Cper.TimestampReadsBack | postmortem/src/core/cper/record.cpp:32-73 | every time of the years 1998 to 2200 comes back from its eight bytes, plausible |
| Cper.TruncationStable | postmortem/src/core/cper/record.cpp:158-327 | cutting a record anywhere after its header keeps the verdict, the header, every section whose descriptor still fits, with its descriptor, and every section whose body is still there |
| Cper.FitsBefore | postmortem/src/core/cper/record.cpp:253-266 | the number of descriptors that fit is the quotient of the room by their size |
| Cper.CheckReadsBack | postmortem/src/core/cper/sections.cpp:109-241 | a check structure packed from its fields decodes to exactly the fields whose validation bit is set, with their values |
| CperRoundTrip.CheckFieldsTell | postmortem/src/core/cper/sections.cpp:67-241 | a check word shows of every field its name and value exactly if the field's validation bit is set |
| Cper.ErrorInfoExact | postmortem/src/core/cper/sections.cpp:407-475 | the error-info structures are exactly the declared ones that fit, each read at its place |
| CperRoundTrip.ErrorInfoReadsBack | postmortem/src/core/cper/sections.cpp:364-381 | a structure laid out byte by byte (GUID, validation bits, check word, target, requestor, responder, instruction pointer) is read back wherever it lies in a body, the last four and the check only if their bits are set |
| CperRoundTrip.Ia32X64ReadsBack | postmortem/src/core/cper/sections.cpp:407-475 | an IA32/X64 body is read back with its structures: bits 2 to 7 count them, bits 8 to 13 count the contexts, and the first CPUID word is shown if bit 1 is set |
| CperRoundTrip.GenericReadsBack | postmortem/src/core/cper/sections.cpp:289-327 | so is a Processor Generic body, its brand only if bit 7 is set |
| CperRoundTrip.MemoryReadsBack | postmortem/src/core/cper/sections.cpp:503-555 | so is a Platform Memory body, each field only if its own validation bit is set |
| CperRoundTrip.HeaderReadsBack | postmortem/src/core/cper/record.cpp:158-205 | a header of 128 bytes is read back, whatever follows it (UEFI Specification, Appendix N, Table N-1) |
| CperRoundTrip.TimestampExact | postmortem/src/core/cper/record.cpp:32-73 | its timestamp is plausible exactly when seven of its bytes are the decimal digits of a time of the years 1998 to 2200 |
| CperRoundTrip.SeverityReads | postmortem/src/core/cper/record.cpp:13-21 | severities are the codes 0 to 3, any other is unknown |
| CperRoundTrip.DescriptorReadsBack | postmortem/src/core/cper/record.cpp:99-127 | a descriptor of 72 bytes is read back wherever it lies (Table N-2) |
| CperRoundTrip.RecordReadsBack | postmortem/src/core/cper/record.cpp:158-327 | a record decodes to its header and one section for each of its descriptors, whatever they point at |
| CperRoundTrip.RejectedExactly | postmortem/src/core/cper/record.cpp:158-181 | a record is refused exactly when it is shorter than a header or does not start with CPER |
| CperRoundTrip.WarningsTell | postmortem/src/core/cper/record.cpp:231-325 | it has a warning exactly for a signature end, a declared length or a timestamp that is wrong, for each body out of range, for descriptors that are missing and for having no sections |
| CperRoundTrip.KnownGuids | postmortem/src/core/cper/guid.cpp:53-72 | the octets by which a record names the section types and the check types |
| Cper.DoErrorInfos | postmortem/src/core/cper/sections.cpp:454-465 | the loop that stops at the first one that does not fit reads them |
| Cper.DoSections | postmortem/src/core/cper/record.cpp:253-320 | the descriptor loop gives the sections that fit and a warning for each body out of range and for missing descriptors |
| Cper.DecodeRecord | postmortem/src/core/cper/record.cpp:158-327 | the decode of every buffer is the specification's record |
| CperTrace.BodyNotesWithin | postmortem/src/core/cper/sections.cpp:289-355 | the fields noted of a body lie inside it exactly when it has at least 192 bytes (Processor Generic) or 64 (IA32/X64) |
| CperTrace.HeaderNotesTell | postmortem/src/core/cper/record.cpp:207-229 | each field of the header is what the bytes of its span hold |
| CperTrace.DescriptorNotesTell | postmortem/src/core/cper/record.cpp:274-289 | so is each field of a descriptor |
| CperTrace.ErrorInfoNotesTell | postmortem/src/core/cper/sections.cpp:383-405 | of an error-info structure the optional fields are noted exactly when they were read, at the bytes that hold them |
| CperTrace.Ia32NotesTell | postmortem/src/core/cper/sections.cpp:407-475 | an IA32/X64 body is noted with its head and each structure where it stands |
| CperTrace.GenericNotesTell | postmortem/src/core/cper/sections.cpp:329-360 | the numbers of a Processor Generic body are what their spans hold, and the brand is noted when there is one |
| CperTrace.SectionSpansInside | postmortem/src/core/cper/record.cpp:300-316 | with the trace moved to a section's body, the noted spans lie in that body exactly then |
| CperTrace.RoomForNotes | postmortem/src/core/cper/sections.cpp:289-355 | the fields noted of a body lie in the room from its start on exactly when that room has those many bytes, however short the body |
| CperTrace.BodySpansInRecord | postmortem/src/core/cper/record.cpp:300-316 | the spans of a section's body lie in the record exactly when what its type needs ends there |
| CperTrace.TraceInside | postmortem/src/core/cper/record.cpp:200-316 | every span of a record lies inside it exactly when that is so of every section whose body was read |
| CperTrace.ShortRecordLeaves | postmortem/src/core/cper/record.cpp:300-316 | a record of 200 bytes that decodes and whose spans pass its end |
| CperTrace.Trace.Add | postmortem/src/core/cper/reader.hpp:41-46 | a span is appended at the trace's base and depth |
| CperTrace.NoteNested | postmortem/src/core/cper/record.cpp:303-313 | base and depth are moved for a body's fields and are back afterwards |
| CperTrace.DecodeTraced | postmortem/src/core/cper/record.cpp:335-340 | a traced decode gives the record of the untraced one, and exactly the spans of its header, descriptors and bodies |
| Integers.GuardExact | postmortem/src/core/input/values.cpp:205-213 | the dividing guard refuses exactly the digits that would reach 2^64 |
| Integers.TakesWhatFits | postmortem/src/core/input/values.cpp:197-214 | digits are taken exactly when all are valid and their value is below 2^64, without wrapping on the way |
| Integers.ParsesWhatFits | postmortem/src/core/input/values.cpp:161-220 | a text is accepted exactly when its digits are valid in the radix it chooses and denote less than 2^64, and gives that number |
| Integers.HexReadsBack | postmortem/src/core/text/format.cpp:14-26 | every 64-bit value reads back from its hexadecimal text at any padding |
| Integers.HexShape | postmortem/src/core/text/format.cpp:14-26 | that text is "0x" and at least as many digits as asked for, filled up with zeros |
| Integers.FormatHex | postmortem/src/core/text/format.cpp:14-26 | digits from the low end, padded and reversed, are that text |
| Integers.Parse | postmortem/src/core/input/values.cpp:161-220 | the parsing loops compute the specification's number or problem |
| Blobs.HexPasteReads | postmortem/src/core/input/values.cpp:23-56 | hex digits of a byte string, with any separators and 0x prefixes between them, are read as hex and as that byte string |
| Blobs.Base64Reads | postmortem/src/core/input/values.cpp:69-96 | base64 text with any white space in it gives its byte string, although the accumulator wraps (RFC 4648, section 4) |
| Blobs.Base64PasteReads | postmortem/src/core/input/values.cpp:105-159 | base64 of anything that starts with CPER is read as base64, although hex is tried too |
| Blobs.Base64Wins | postmortem/src/core/input/values.cpp:123-149 | base64 of any nonempty bytes is read as base64 exactly when the bytes start with CPER or the text is not an even number of hex digits too; otherwise as those |
| Blobs.Base64LooksLikeHex | postmortem/src/core/input/values.cpp:123-149 | base64 text made of hex digits only is read as those |
| Blobs.ShortBase64IsHex | postmortem/src/core/input/values.cpp:123-149 | three bytes whose base64 text is abcd |
| Blobs.Base64Needs | postmortem/src/core/input/values.cpp:69-96 | only whole groups of four characters are read as base64, all of its alphabet but for the last two |
| Blobs.RefusalTells | postmortem/src/core/input/values.cpp:105-159 | a value is empty exactly when it is all blank; otherwise it is refused as hex digits that do not pair up or as text of neither form |
| Blobs.CperStartsWithQ | postmortem/src/core/input/values.cpp:98-103 | because such text holds a Q, which is no hex digit |
| Blobs.DoCompactHex | postmortem/src/core/input/values.cpp:23-37 | the loop that drops separators and prefixes |
| Blobs.DoHexBytes | postmortem/src/core/input/values.cpp:39-48 | the loop over pairs of digits |
| Blobs.DoSextets | postmortem/src/core/input/values.cpp:69-96 | the loop over the 32-bit accumulator gives the bytes of unbounded arithmetic |
| Blobs.Parse | postmortem/src/core/input/values.cpp:105-159 | the choice between the readings is the specification's, on every text |
| Durations.DurationReads | postmortem/src/core/input/values.cpp:222-302 | digits and a unit, in either case, days when there is none, with white space anywhere, are the product of the two in milliseconds, unless the digits but the last denote more than the guard lets through |
| Durations.ParsedIsDuration | postmortem/src/core/input/values.cpp:222-302 | nothing else is a duration |
| Durations.FitsExactly | postmortem/src/core/input/values.cpp:288-299 | what the guard lets through fits 64 bits exactly when the unit is the millisecond or there are no more units than fit, and exceeds them by less than ten units; the number itself always fits |
| Durations.YearsOverflow | postmortem/src/core/input/values.cpp:288-299 | 292471209 years are let through and do not fit |
| Durations.DoDecimals | postmortem/src/core/input/values.cpp:281-295 | the loop over the digits takes what the specification takes |
| Durations.Parse | postmortem/src/core/input/values.cpp:222-302 | the whole parser gives the specification's duration or problem on every text |
| Xml.DoDecodeEntities | postmortem/src/core/xml/parse.cpp:235-297 | the index loop replaces entities and character references as the specification does, on every text |
| Xml.Parser.DoAttribute | postmortem/src/core/xml/parse.cpp:148-165 | an attribute is read as the specification says or fails with its first problem |
| Xml.Parser.DoElement | postmortem/src/core/xml/parse.cpp:134-173 | an element is what the specification reads at the parser's depth, and the depth is back afterwards |
| Xml.Parser.DoContent | postmortem/src/core/xml/parse.cpp:174-220 | so is the content loop, whatever mixture of text, comments, CDATA and children it meets; it ends on every input |
| Xml.Parser.DoSkipPrologue | postmortem/src/core/xml/parse.cpp:91-123 | declarations, comments and instructions before the root are skipped or the first failure kept |
| Xml.ParseText | postmortem/src/core/xml/parse.cpp:50-70 | the whole parser gives the specification's tree or failure |
| XmlText.SpellingReadsBack | postmortem/src/core/xml/parse.cpp:235-297 | text whose characters are spelled as they are, by one of the five entities or by their number decodes to what is meant |
| XmlText.ReferenceExact | postmortem/src/core/xml/parse.cpp:263-287 | a character reference stands for the code point its decimal or hexadecimal digits denote if there is one, and for nothing otherwise |
| XmlText.Utf8ReadsBack | postmortem/src/core/xml/parse.cpp:22-38 | the octets of a code point stand for it (RFC 3629) |
| XmlText.AmpersandStays | postmortem/src/core/xml/parse.cpp:245-250 | an ampersand stays when no semicolon follows within twelve characters or what stands before it is no entity |
| XmlRoundTrip.DocumentReads | postmortem/src/core/xml/parse.cpp:50-220 | a document reads as what its root means exactly when the root has at most 64 levels below it: names with prefixes, values in either quote, blanks wherever they may be, empty-element tags, comments, CDATA and children in any order, and any prologue (XML 1.0, sections 2.4 to 2.8 and 3.1) |
| XmlRoundTrip.MarkupReads | postmortem/src/core/xml/parse.cpp:134-220 | so does an element anywhere, at any depth |
| XmlRoundTrip.TextIsMeant | postmortem/src/core/xml/parse.cpp:174-220 | however the text of an element is divided among characters and CDATA sections, where it is spelled with entities and references it is what these stand for |
| XmlRoundTrip.ValueIsMeant | postmortem/src/core/xml/parse.cpp:154-165 | so is the value of an attribute |
| XmlRoundTrip.MismatchRefused | postmortem/src/core/xml/parse.cpp:179-187 | a closing tag with another local name is refused where it stands |
| XmlExact.AcceptedIsMarkup | postmortem/src/core/xml/parse.cpp:50-220 | whatever is accepted is a prologue, such markup with at most 64 levels below its root, and anything after it, and is read as what the markup means |
| XmlExact.AcceptsExactly | postmortem/src/core/xml/parse.cpp:50-220 | so the reader accepts exactly such documents |
| XmlRoundTrip.EscapeReadsBack | postmortem/src/core/xml/parse.cpp:235-297 | decoding undoes escaping, for every text |
| XmlRoundTrip.ElementRoundTrip | postmortem/src/core/xml/parse.cpp:134-220 | every element tree with names without a colon, serialised with text and attributes escaped, is read back as itself exactly when it has at most 64 levels below the root (XML 1.0, sections 2.4, 3.1 and 4.6) |
| XmlRoundTrip.CDataReads | postmortem/src/core/xml/parse.cpp:198-206 | an element around any CDATA section reads as the section's text with its entities replaced (XML 1.0, section 2.7) |
| XmlRoundTrip.EscapedCData | postmortem/src/core/xml/parse.cpp:189-206 | so a section that holds escaped text reads as the text, not as its escape |
| XmlRoundTrip.CDataIsDecoded | postmortem/src/core/xml/parse.cpp:189-206 | a section that holds the reference for < reads as < |
| Smbios.WalkInside | postmortem/src/platform/smbios.cpp:80-137 | on every table the walk ends with structures whose areas lie inside it, in order, apart from one another, with NUL-free strings; only the last can be the end of the table |
| Smbios.CutKeepsStructures | postmortem/src/platform/smbios.cpp:80-137 | a table cut short yields the beginning of the same structures, only the last of them perhaps with other strings |
| Smbios.AreaAtEnd | postmortem/src/platform/smbios.cpp:86-101 | a structure whose formatted area ends with the table is found, without strings |
| Smbios.TableReadsBack | postmortem/src/platform/smbios.cpp:80-137 | a well-formed stream gives exactly its structures up to and with the first of type 127 (DSP0134, sections 6.1.2 and 6.1.3) |
| Smbios.FieldReadsBack | postmortem/src/platform/smbios.cpp:48-58 | a field with a string's number names that string |
| Smbios.DoTail | postmortem/src/platform/smbios.cpp:102-128 | the nested string loops read the specification's strings |
| Smbios.ParseStructures | postmortem/src/platform/smbios.cpp:80-137 | the walk with its offsets gives the specification's structures |
| Etw.NothingLost | postmortem/src/platform/etw.cpp:224-258 | however callbacks and exchanges interleave, what was taken from a slot and what is in it are what it began with and the events delivered to it |
| Etw.ExchangeCatchesUp | postmortem/src/platform/etw.cpp:425-434 | an exchange leaves nothing of its slot unreported |
| Etw.TakingIsRun | postmortem/src/platform/etw.cpp:417-436 | a take is a run of such steps |
| Etw.TakeConserves | postmortem/src/platform/etw.cpp:417-436 | each slot's report and residue are what was in it and what arrived while the take went on |
| Etw.TakeCountsEvents | postmortem/src/platform/etw.cpp:224-258 | of each processor, the context switches, deferred procedure calls and interrupts a take reports and leaves are what was there and the events of that provider, opcode and processor that arrived |
| Etw.TakeCountsStray | postmortem/src/platform/etw.cpp:242-249 | unattributed are those of the three kinds whose processor is past the count |
| Etw.TotalsAndUnattributed | postmortem/src/platform/etw.cpp:426-434 | everything a take took is in the three totals or unattributed |
| Etw.TotalsComplete | postmortem/src/platform/etw.cpp:426-434 | the totals of a take are everything it took exactly when nothing was unattributed before it and no counted event of a processor past the count arrives while it goes on |
| Etw.StrayNotInTotals | postmortem/src/platform/etw.cpp:242-245 | one such event: taken with the rest, in no total |
| Etw.BucketsExact | postmortem/src/platform/etw.cpp:207-222 | at most 4096 buckets, each with the first stack of its hash and how often the hash came; a hash without one never came or found the buckets in use |
| Etw.DroppedExact | postmortem/src/platform/etw.cpp:212-215 | exactly the samples without a bucket are counted as dropped |
| Etw.SampleTells | postmortem/src/platform/etw.cpp:155-188 | an event is a sample exactly when sampling is on, it is a profile event of the kernel and its first stack is not empty; the sample is that stack's first 48 addresses |
| Etw.KernelExact | postmortem/src/platform/etw.cpp:200-205 | the kernel samples are those whose first address is in the upper half of the address space |
| Etw.XorIs | postmortem/src/platform/etw.cpp:193-196 | each bit of the exclusive or is set exactly when the two bits differ |
| Etw.HashTells | postmortem/src/platform/etw.cpp:190-198 | samples that differ in one address, or only in their process, have different hashes |
| Etw.AllBalanced | postmortem/src/platform/etw.cpp:200-222 | the total is the kernel and the user samples, and the bucket counts and the dropped |
| Etw.IntervalsFlatten | postmortem/src/platform/etw.cpp:438-457 | swaps cut the samples into consecutive intervals |
| Etw.ReportsExact | postmortem/src/platform/etw.cpp:438-457 | each report is the aggregate of its own interval |
| Etw.NoSampleLost | postmortem/src/platform/etw.cpp:438-457 | over every run the totals reported and held are the samples |
| Etw.Session.Gather | postmortem/src/platform/etw.cpp:200-222 | one sample updates the totals and its bucket, or the dropped count |
| Etw.Session.OnEvent | postmortem/src/platform/etw.cpp:224-258 | an event is counted in its slot, gathered as a sample, or ignored |
| Etw.Session.Take | postmortem/src/platform/etw.cpp:417-436 | the exchange loop, with events arriving before every exchange, reports exactly what each exchange took, and the totals are the sums over processors |
| Etw.Session.TakeStacks | postmortem/src/platform/etw.cpp:438-472 | everything gathered is reported once and reset, most frequent first, cut at the limit |

## Findings

Properties the code meets only under a condition. Each is proved in both directions, and most
also at one input that shows the property fail.

| property | source | holds exactly when | member |
|---|---|---|---|
| what the JSON writer writes, the reader accepts | postmortem/src/core/json/reader.cpp:56 | no value is inside more than 64 containers; the writer itself sets no bound | JsonRoundTrip.DocumentRoundTrip |
| an element tree reads back from its serialisation | postmortem/src/core/xml/parse.cpp:208 | it has at most 64 levels below the root | XmlRoundTrip.ElementRoundTrip |
| a formatted time parses | postmortem/src/core/text/format.cpp:124 | its year is 0 to 9999: a later year has five digits and an earlier one a sign, and neither parses | Timestamps.FormatParses |
| a saved snapshot loads unchanged | postmortem/src/core/json/reader.cpp:268 | every entry names a mitigation and its time is a double: numbers are read as doubles, so 2^53 + 1 seconds come back as 2^53 | StateStore.LoadAfterSaveDoubles, StateStore.PastTheLimit |
| an applied cell is recorded for a revert | postmortem/src/commands/mitigate.cpp:518-523 | the snapshot was saved, or the cell was recorded before: the settings are written first, so a failed save leaves a change that no revert undoes | Mitigate.ApplySetsAndRecords, Mitigate.NothingToPutBack |
| re-applying keeps the recorded original | postmortem/src/platform/state.cpp:94-99 | the apply is not saved, or the state file can be read: a failed read is taken for the first run, and the save then replaces the file, with the records of every mitigation | Mitigate.RecordSurvives, Mitigate.AppliedTwice, Mitigate.UnreadApplyForgets, Mitigate.UnreadApplyForgetsOthers |
| an apply and a revert leave a cell as it was | postmortem/src/commands/mitigate.cpp:494-498 | the apply read what the cell held: a registry value it could not read is recorded as absent, and an unread half of a power setting as zero | Mitigate.AppliedThenReverted, Mitigate.BlindRevert |
| a revert restores a cell | postmortem/src/commands/mitigate.cpp:358-390 | the write succeeds, or the cell already had the value, or it is a power setting whose AC half was written and whose DC half was right | Mitigate.RevertRestores |
| a failed revert can be repeated | postmortem/src/commands/mitigate.cpp:400 | its own save failed too, and the second session can read the file: the snapshot is dropped even where a restore failed | Mitigate.SecondRevertRuns, Mitigate.FailedRevertStays |
| traced fields of a section lie inside its body | postmortem/src/core/cper/sections.cpp:434 | the body has the bytes its type needs: a shorter one is noted in full | CperTrace.BodyNotesWithin, CperTrace.SectionSpansInside |
| the trace of a record lies inside it | postmortem/src/core/cper/record.cpp:303-313 | every body that was read starts far enough from the end of the record for what its type needs | CperTrace.TraceInside, CperTrace.ShortRecordLeaves |
| the totals of a take are all the events taken | postmortem/src/platform/etw.cpp:430-434 | nothing was unattributed before, and no counted event of a processor past the count arrives | Etw.TotalsComplete, Etw.StrayNotInTotals |
| CDATA reads as it stands | postmortem/src/core/xml/parse.cpp:189 | replacing the entities in it changes nothing | XmlRoundTrip.CDataReads, XmlRoundTrip.CDataIsDecoded |
| the milliseconds of a duration fit 64 bits | postmortem/src/core/input/values.cpp:290 | the unit is the millisecond, or there are no more units than fit: the guard leaves room for a last digit, not for a last digit of units | Durations.FitsExactly, Durations.YearsOverflow |
| base64 text is read as base64 | postmortem/src/core/input/values.cpp:133-143 | its bytes start with CPER, or it is not an even number of hex digits too | Blobs.Base64Wins, Blobs.ShortBase64IsHex |

Where the code and its comments differ, the model follows the code:

- `postmortem/src/platform/etw.hpp:31-32` says the totals include unattributed events; the totals
  summed at `postmortem/src/platform/etw.cpp:430-432` do not include them (`Etw.TotalsComplete`).
- `postmortem/src/core/xml/parse.cpp:202` says CDATA is never entity-decoded; it is, with the rest
  of the text, at `postmortem/src/core/xml/parse.cpp:189` (`XmlRoundTrip.CDataReads`).
- `postmortem/src/core/input/values.cpp:288-289` says too long a span is clamped; it is refused
  (`Durations.DurationReads`).
- `postmortem/src/platform/state.cpp:95` speaks of an absent file; the branch takes any failed
  read for one (`Mitigate.RecordSurvives`).
- `postmortem/src/platform/etw.cpp:190` names FNV-1a; the start value at
  `postmortem/src/platform/etw.cpp:192` is not that of FNV, only its multiplier is, which is what
  keeps samples apart (`Etw.HashTells`).
- `postmortem/src/platform/etw.cpp:123-125` says a mutex guards the hand-over of the stacks; only
  the taking side holds it, at `postmortem/src/platform/etw.cpp:446`. The model takes recording and swapping as atomic steps.

## Left out

- The operating system: registry, power, event-log, ETW session, DbgHelp, console and file calls; their results are parameters.
- `pm live`, `pm watch` and all rendering: display only.
- Texts of headlines, caveats, meanings, warnings and usage: a warning is a tag here, and the XML reader's messages are a problem and an offset.
- Numbers other than integers in JSON: the reader keeps the lexeme; what `strtod` makes of them, and of integers past 2^53 where the rounding of doubles is not assumed, is an arbitrary parameter.
- JSON and XML conformance beyond the round trips: both readers accept more than their standards; what they accept is exactly what `JsonGrammar` and `XmlExact` say.
- The typed accessors of JSON values, `member_hex` and `member_uint`: one branch each.
- The list action, the exit texts and the effects of re-applying a power scheme in `mitigate`.
- Reuse of a state file written by another program: runs start without one.
- Mapping of raw events to timeline entries and WHEA records, field by field: the timeline and the clustering start from the classified records.
- `field_value` and `parse_group_fields` in grouping: the text of a field is a parameter of grouping.
- The tally of banks, the histogram of hours, the findings and the verdict of the analysis: the tally is that of the APICs, the rest is display.
- Locking, and wrap-around of 64-bit counters: 2^64 events are out of reach.
- Sizes inside extended event data: an event carries its call stack as a list of addresses.
- `read_smbios_table` and the firmware summary: a system call and field lookups.
- Text widths of more than one column a character in wrapping: the source counts octets there too.
- ValidRows: lists the valid fields of a check in the order of their bits, where the source keeps numeric fields and flags in two lists, so the rows of a bus check come in another order than they are shown.
- The family, model and stepping of a CPUID leaf and other register decodings: single-value lookups; a section keeps the leaf itself.
- CperTrace.DecodeTraced: notes where fields lie and how deep, not their texts.
- Etw.BucketsExact: speaks of hashes, as the code does; two stacks with one hash share a bucket.
- Whea.Cluster: does not promise which of equal records comes first, as `std::sort` does not; OrderDoesNotMatter says that nothing visible depends on it.
