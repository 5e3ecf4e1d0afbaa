# vtlc post-processing, modelled in Dafny

This project models the post-processing stage of the VTuber live chat
dataset builder, `vtlc/postprocess.py`. That stage does two things.

It reduces monthly partitions of raw chat, super chat, ban and deletion
events into public datasets:
- it keeps a fixed subset of columns;
- it replaces each author identifier by its salted hash;
- it classifies membership labels as True, False or missing;
- it replaces message bodies by their length.

It also computes two statistics files:
- `chat_stats.csv`, with chats, member chats, distinct chatters, distinct
  members, banned chatters and deleted chats per channel and month;
- `superchat_stats.csv`, with super chat counts, senders, amounts, message
  lengths and the most frequent currency and colour per channel and month.

The modules follow the program's structure:

- `Cells`: cell values and the per-cell conversions `binMember` and body
  length.
- `Frames`: a dataframe as a table value, and a `Frame` class whose
  methods change a table in place, as pandas column assignment, `apply`
  and `drop(..., inplace=True)` do.
- `Reducers`: the four `generate_reduced_*` functions.
  - Pure specification functions say what a reduced table is.
  - Methods build it by changing a `Frame` step by step.
  - Loop methods walk the sorted partitions.
- `GroupBy`, `Sorting`, `Join`: the pandas operations the statistics rely
  on.
  - A group-by with `size` and `nunique`, as a map accumulator, checked
    against a per-key reference.
  - Python string order and `sorted`.
  - A left merge.
- `ChatStats`, `SuperchatStats`, `Moderation`: `load_chat`,
  `load_superchat` and `load_moderation_events`, each proved against the
  statistics of one channel read straight off its records.
- `Partitions`: parsing the period out of a partition file name, and
  rebuilding the path from it.
- `Csv`: `to_csv` rendering and a `CsvFile` class, a file as a sequence of
  lines that is overwritten or appended to.
- `Pipeline`: `generate_chat_stats` and `generate_superchat_stats`.
  - A loop over the sorted partitions.
  - The moderation merges and the zero-fill.
  - The write.

A few things outside the model enter as parameters:
- the salted SHA-1 `anonymize`, as `anon: string -> string`;
- the yen conversion and its sum and mean, as `money`;
- the partition files, as maps from file name to records;
- the glob, as the list of matched names.

## Model

| member | source | states |
|---|---|---|
| Cells.BinMember | vtlc/postprocess.py:20-23 | "unknown" gives missing; "non-member" gives False; every other value gives True. Each case holds in both directions. |
| Cells.BodyLengthOf | vtlc/postprocess.py:395 | bodyLength is the string's length, or 0 for a missing body; it is never negative. |
| Frames.WithoutContents | vtlc/postprocess.py:392 | Dropping a column removes exactly that column and keeps the rest distinct. |
| Frames.WithoutAt | vtlc/postprocess.py:396 | Dropping the column at position k closes the gap; the other columns keep their order. |
| Frames.Select | vtlc/postprocess.py:369-383 | Reading with `columns=` succeeds iff every listed column exists. The result holds exactly those columns, unchanged, with the same row count. |
| Frames.Frame.Apply | vtlc/postprocess.py:391 | `apply` cell by cell: the output is the function applied to every cell of the column. |
| Frames.Frame.ApplyAnonymize | vtlc/postprocess.py:388 | Hashing a column succeeds iff every cell is a string; the result is the hash of each cell. |
| Frames.Frame.Assign | vtlc/postprocess.py:391 | Assigning a column replaces it, or appends it last; the frame stays well formed. |
| Frames.Frame.Drop | vtlc/postprocess.py:392 | In-place drop: the column leaves both the order and the contents, and the frame stays well formed. |
| Reducers.ChatColumnSteps | vtlc/postprocess.py:387-396 | The chat reducer's column edits, in source order, leave the layout timestamp, authorChannelId, videoId, channelId, isMember, bodyLength. |
| Reducers.SuperchatColumnSteps | vtlc/postprocess.py:430-435 | The superchat reducer's edits leave its layout, ending in the lower-case `bodylength`. |
| Reducers.ReducedChats | vtlc/postprocess.py:362-396 | A reduced chat table exists iff the partition has every chat column and every author is a string. It keeps the row count. |
| Reducers.ReducedChatsColumns | vtlc/postprocess.py:387-396 | A reduced chat table holds exactly the six reduced columns. |
| Reducers.ReducedChatsPassThrough | vtlc/postprocess.py:369-383 | timestamp, videoId and channelId are the partition's own. |
| Reducers.ReducedChatsDerived | vtlc/postprocess.py:387-396 | authorChannelId is the hashed author, isMember is binMember of membership, and bodyLength is the body length. |
| Reducers.ReducedSuperchats | vtlc/postprocess.py:405-435 | A reduced superchat table exists iff the partition has every superchat column and every author is a string. It keeps the row count. |
| Reducers.ReducedSuperchatsColumns | vtlc/postprocess.py:412-435 | A reduced superchat table holds exactly the reduced columns. |
| Reducers.ReducedSuperchatsPassThrough | vtlc/postprocess.py:412-426 | Amount, currency, significance, timestamp, videoId and channelId pass through unchanged. |
| Reducers.ReducedSuperchatsDerived | vtlc/postprocess.py:430-435 | The author is hashed, and bodylength is the body length. |
| Reducers.ReducedBans | vtlc/postprocess.py:444-463 | Exists iff the ban columns exist and the authors are strings. It holds exactly those columns, the author is hashed, and the rest is unchanged. |
| Reducers.ReducedDeletions | vtlc/postprocess.py:472-490 | Exists iff the deletion columns exist; those columns pass through unchanged. |
| Reducers.ReduceChats | vtlc/postprocess.py:369-396 | The in-place edits on a Frame yield exactly the reduced chat table, and the frame ends with the reduced column order. |
| Reducers.ReduceSuperchats | vtlc/postprocess.py:412-435 | The in-place edits yield exactly the reduced superchat table and its column order. |
| Reducers.ReduceBans | vtlc/postprocess.py:452-463 | The in-place edits yield exactly the reduced ban table and the ban column order. |
| Reducers.GenerateReducedChats | vtlc/postprocess.py:362-402 | Partitions are written in order, each as its reduced table. The first partition that cannot be reduced stops the loop. |
| Reducers.GenerateReducedSuperchats | vtlc/postprocess.py:405-441 | The same, for superchat partitions. |
| GroupBy.Group | vtlc/postprocess.py:154-155 | A group holds only records with its key, and is non-empty iff some record has the key. |
| GroupBy.GroupAll | vtlc/postprocess.py:154-155 | A property holds for every record of a key's group iff it holds for every input record with that key. |
| GroupBy.GroupMembers | vtlc/postprocess.py:154-155 | A group holds only input records. |
| GroupBy.Distinct | vtlc/postprocess.py:155 | `nunique`'s value set holds exactly the values of the group's records. |
| GroupBy.DistinctBounds | vtlc/postprocess.py:155 | nunique is at most size, and at least 1 for a non-empty group. |
| GroupBy.Tally | vtlc/postprocess.py:154-155 | Every tallied key has at least 1 and at most size distinct values. |
| GroupBy.GroupSnoc | vtlc/postprocess.py:154-155 | A new record extends only its own key's group, and its value set. |
| GroupBy.TallyAt | vtlc/postprocess.py:154-155 | The accumulated tally has a key iff its group is non-empty, with the group's size and distinct values. |
| GroupBy.TallyDomain | vtlc/postprocess.py:154-155 | The tally's keys are exactly the keys that occur. |
| GroupBy.Keys | vtlc/postprocess.py:107 | The group keys: no key twice, every occurring key, and nothing else. |
| GroupBy.KeysFirstAppearance | vtlc/postprocess.py:107 | Keys come in order of first appearance (`sort=False`). If key i precedes key j, a record with key i comes before every record with key j. |
| GroupBy.SizeNUnique | vtlc/postprocess.py:107-111 | One group-by row per key, in key order, each with 1 <= nunique <= size. |
| GroupBy.SizeNUniqueGroups | vtlc/postprocess.py:107-111 | Row i belongs to key i. Its size and nunique are those of the key's group, with 1 <= nunique <= size. |
| GroupBy.First | vtlc/postprocess.py:209-216 | A lookup finds a record iff one has the key, and what it returns has that key. |
| GroupBy.GroupUnique | vtlc/postprocess.py:209-216 | With unique keys, a group is the looked-up record or empty. |
| GroupBy.FirstSnoc | vtlc/postprocess.py:209-216 | A lookup after appending finds the earlier match, else the new record if its key matches. |
| GroupBy.FindStatGroups | vtlc/postprocess.py:167-168 | Looking up a key in the group-by rows gives its group's size and nunique, or nothing. |
| GroupBy.SizeNUniqueUnique | vtlc/postprocess.py:167-170 | Group-by rows have unique keys. |
| GroupBy.FirstUnique | vtlc/postprocess.py:176 | With unique keys, looking up a record's key finds that record. |
| GroupBy.NUnique | vtlc/postprocess.py:58-60 | One nunique row per key, in key order. Each count is at least 1, and no key has two rows. |
| GroupBy.NUniqueGroups | vtlc/postprocess.py:58-60 | Looking up a key in the nunique rows gives its group's distinct count, or nothing when the key does not occur. |
| GroupBy.Filter | vtlc/postprocess.py:57 | Filtering keeps only records that satisfy the predicate. |
| GroupBy.GroupFilter | vtlc/postprocess.py:165-168 | Filtering and then grouping equals grouping and then filtering. |
| GroupBy.FilterBounds | vtlc/postprocess.py:165-168 | A filtered group has no more records, and no more distinct values. |
| GroupBy.FilterMember | vtlc/postprocess.py:165-166 | Every filtered record comes from the input. |
| GroupBy.FilterKeeps | vtlc/postprocess.py:165-166 | Every input record that satisfies the predicate survives. |
| Sorting.StrLeTotal | vtlc/postprocess.py:185 | Python string order is total. |
| Sorting.StrLeTrans | vtlc/postprocess.py:185 | Python string order is transitive. |
| Sorting.StrLeAntisym | vtlc/postprocess.py:185 | Python string order is antisymmetric. |
| Sorting.StrLeCommonPrefix | vtlc/postprocess.py:185-186 | A common directory prefix does not change the order, so sorting full paths sorts the base names. |
| Sorting.Insert | vtlc/postprocess.py:185 | Insertion adds exactly the element, as a multiset. |
| Sorting.InsertSorted | vtlc/postprocess.py:185 | Insertion keeps a sequence sorted. |
| Sorting.InsertUnique | vtlc/postprocess.py:154 | Insertion of a new key keeps keys unique. |
| Sorting.SortBy | vtlc/postprocess.py:185 | `sorted` returns a permutation of its input in ascending key order. |
| Sorting.SortUnique | vtlc/postprocess.py:154 | Sorting keeps keys unique. |
| Sorting.SortMembers | vtlc/postprocess.py:185 | A sorted sequence has exactly the original elements. |
| Sorting.SortedSizeNUnique | vtlc/postprocess.py:154-157 | The sorted group-by (`sort=True`) has one row per key, no key twice, in ascending key order. |
| Sorting.SortedSizeNUniqueRow | vtlc/postprocess.py:154-157 | Each sorted row is an occurring key with its group's size and nunique. |
| Sorting.SortedSizeNUniqueCovers | vtlc/postprocess.py:154-157 | Every occurring key has a row. |
| Join.LeftJoin | vtlc/postprocess.py:176 | A left merge has at least as many rows as its left side. |
| Join.LeftJoinOrigin | vtlc/postprocess.py:176 | Every merged row's left part is a left record. Its right part, when present, is a right record with the same key. |
| Join.LeftJoinUnique | vtlc/postprocess.py:209-216 | With unique right keys, the merge keeps every left row once and in order, paired with its match or none. |
| Join.LeftJoinDuplicates | vtlc/postprocess.py:176 | A left row with several matches is repeated once per match. |
| Moderation.BannedChatters | vtlc/postprocess.py:64-74 | Looking up a (channel, month) in the ban rows gives the number of distinct banned authors. A key without bans has no row. |
| Moderation.DeletedChats | vtlc/postprocess.py:54-60 | Looking up a (channel, month) in the deletion rows gives the number of distinct ids among non-retracted deletions. A key with only retracted deletions has no row. |
| Moderation.RetractedIgnored | vtlc/postprocess.py:57 | Adding a retracted deletion changes nothing. |
| Moderation.BanStats | vtlc/postprocess.py:62-74 | One ban row per (channel, period) that has bans, in order of first appearance. Each has at least one distinct banned author, and no key has two rows. |
| Moderation.DeletionStats | vtlc/postprocess.py:50-60 | No key has two deletion rows. Every row counts at least one distinct id, and its key has a non-retracted deletion. |
| ChatStats.IsMemberChat | vtlc/postprocess.py:165-166 | A chat counts as a member chat iff binMember classifies its membership as True. |
| ChatStats.MemberStats | vtlc/postprocess.py:165-175 | A channel's member row is the size and nunique of its member chats, or absent when it has none. |
| ChatStats.LoadChat | vtlc/postprocess.py:141-178 | load_chat gives one row per channel with chats, no channel twice, in ascending channel order. |
| ChatStats.ChatRowsShape | vtlc/postprocess.py:154-176 | Merging the member rows onto the sorted channel rows keeps one row per channel, unique and ascending. |
| ChatStats.LoadChatJoined | vtlc/postprocess.py:176 | Row i is sorted channel row i with the channel's member row merged on. |
| ChatStats.LoadChatChannels | vtlc/postprocess.py:176 | The channels of load_chat's rows are those of the sorted group-by. |
| ChatStats.LoadChatRow | vtlc/postprocess.py:141-178 | Every row equals the channel's statistics read straight off its records, and the channel has chats. |
| ChatStats.LoadChatCovers | vtlc/postprocess.py:154-157 | Every channel with chats has a row. |
| ChatStats.ChatStatBounds | vtlc/postprocess.py:154-175 | At least 1 and at most chats distinct chatters. Member counts are present together, and 1 <= uniqueMembers <= memberChats <= chats. uniqueMembers <= uniqueChatters. |
| ChatStats.ChatHasMembers | vtlc/postprocess.py:165-176 | A channel has member counts iff one of its chats has membership classified True. |
| SuperchatStats.Count | vtlc/postprocess.py:105 | A value's count is bounded by the length, and positive iff the value occurs. |
| SuperchatStats.BeatsTrans | vtlc/postprocess.py:105 | The mode preference (more frequent, then smaller) is transitive. |
| SuperchatStats.ModeOfFirst | vtlc/postprocess.py:105 | The scanned mode is absent iff every value is missing; otherwise it occurs and beats every present value. |
| SuperchatStats.Mode | vtlc/postprocess.py:105 | The intended mode is None iff every value is missing. Otherwise it is the mode: most frequent, and the smallest among ties. |
| SuperchatStats.ModeCharacterized | vtlc/postprocess.py:105 | Mode is v iff v occurs, is most frequent, and is the smallest of the most frequent (as `mode()[0]`). None iff all values are missing. |
| SuperchatStats.ModeAsWritten | vtlc/postprocess.py:105 | The helper as written raises exactly on a non-empty all-missing column, and otherwise equals the mode. |
| SuperchatStats.ModeAsWrittenRaises | vtlc/postprocess.py:105 | A one-value group with no currency: as written it raises; the intended mode is None. |
| SuperchatStats.TextBodies | vtlc/postprocess.py:120 | At most one body length per record. |
| SuperchatStats.TotalLengthWithoutText | vtlc/postprocess.py:120 | With no string body, totalMessageLength is 0. |
| SuperchatStats.AverageLength | vtlc/postprocess.py:120 | averageMessageLength is the truncated mean over bodies that have a length (avg*n <= total < (avg+1)*n), and 0 when none has. |
| SuperchatStats.LoadSuperchat | vtlc/postprocess.py:80-137 | One row per channel, in order of first appearance. Row i is that channel's statistics read off its records. |
| SuperchatStats.SuperchatSenders | vtlc/postprocess.py:108-111 | A channel with super chats has between 1 and superChats distinct senders. |
| SuperchatStats.GroupModeFails | vtlc/postprocess.py:105-119 | The helper raises on a channel's currency (colour) column iff none of its super chats has a currency (colour). |
| SuperchatStats.SomeModeFails | vtlc/postprocess.py:105-121 | Some channel's helper raises iff some super chat belongs to a channel with no currency at all, or no colour at all. |
| SuperchatStats.LoadSuperchatAsWritten | vtlc/postprocess.py:80-137 | load_superchat as written raises iff some channel has no currency at all, or no colour at all. Otherwise it equals the intended table. |
| SuperchatStats.LoadSuperchatAsWrittenRaises | vtlc/postprocess.py:105-121 | A partition whose only super chat has a currency but no colour makes load_superchat as written raise. The intended table gives no most frequent colour. |
| Partitions.LastDot | vtlc/postprocess.py:187 | Finds the last '.'; nothing follows it but non-dots. |
| Partitions.SplitextRoot | vtlc/postprocess.py:187 | splitext's root is the name, or the part before its last dot. |
| Partitions.PeriodOf | vtlc/postprocess.py:187 | A parsed period holds no '_'. |
| Partitions.LastDotAfter | vtlc/postprocess.py:187 | A dot-free tail does not move the last dot. |
| Partitions.PartitionRoot | vtlc/postprocess.py:187 | The root of `<prefix>_<period>.parquet` is `<prefix>_<period>`. |
| Partitions.PeriodRoundTrip | vtlc/postprocess.py:187-191 | For a period without '_', the parsed period is that period, and the rebuilt path is the matched file. |
| Partitions.PeriodStopsAtUnderscore | vtlc/postprocess.py:187-191 | A period holding '_' parses as its text up to the '_', so a different file is read back. |
| Partitions.PeriodMissing | vtlc/postprocess.py:187 | A name without '_' raises (IndexError). |
| Strings.Split | vtlc/postprocess.py:187 | `split` gives at least one field, and no field holds the separator. |
| Strings.SplitNoSeparator | vtlc/postprocess.py:187 | A string without the separator is one field. |
| Strings.SplitAtSeparator | vtlc/postprocess.py:187 | `a + sep + b` splits into `a`, then b's fields. |
| Strings.JoinSplit | vtlc/postprocess.py:187 | Joining a split restores the string. |
| Strings.SplitJoin | vtlc/postprocess.py:238-241 | Splitting a join of separator-free fields restores the fields. |
| Strings.NatToString | vtlc/postprocess.py:238-241 | A count is written as at least one decimal digit. |
| Strings.ParseNatToString | vtlc/postprocess.py:238-241 | A written count reads back as the count. |
| Csv.DoubleQuotes | vtlc/postprocess.py:238-241 | Doubling quotes never shortens a field. |
| Csv.UndoubleDouble | vtlc/postprocess.py:238-241 | Undoubling inverts doubling. |
| Csv.QuoteField | vtlc/postprocess.py:238-241 | A QUOTE_MINIMAL field reads back as its text. It is left bare iff it needs no quotes, and a bare field holds no ',' or '"'. |
| Csv.DoubleQuotesKeepsComma | vtlc/postprocess.py:238-241 | Doubling adds no separator. |
| Csv.RenderedCommaFree | vtlc/postprocess.py:238-241 | A field whose text holds no ',' renders without ','. |
| Csv.RenderRecord | vtlc/postprocess.py:238-241 | A record of comma-free fields splits at ',' into exactly its rendered fields, one part per field, in order. |
| Csv.RecordRoundTrip | vtlc/postprocess.py:238-241 | A record whose text fields hold no ',' splits back into its fields: text unquotes, a count parses, a missing value is empty. |
| Csv.Header | vtlc/postprocess.py:238-241 | A header of names without ',' splits back into those names. |
| Csv.AfterWrite | vtlc/postprocess.py:238-241 | Append mode adds the records after the old lines and no header. Write mode replaces the file with the header and the records. |
| Csv.OverwriteThenAppend | vtlc/postprocess.py:238-241 | An overwriting run followed by appending runs leaves one header at the top, then every run's records in order. |
| Csv.CsvFile.Write | vtlc/postprocess.py:238-241 | The file's new lines are exactly what the write mode prescribes. |
| Csv.CsvFile.constructor | vtlc/postprocess.py:238 | A file starts with its given lines. |
| Pipeline.Visit | vtlc/postprocess.py:185-186 | Partitions are visited as a sorted permutation of the matched names. |
| Pipeline.ReadChatPartition | vtlc/postprocess.py:187-197 | A partition reads iff its period parses and the rebuilt path exists. Every row gets that period, and no (channel, period) has two rows. |
| Pipeline.ChatPartitions | vtlc/postprocess.py:185-205 | Every period in the concatenated statistics is a token without '_'. |
| Pipeline.ChatPartitionsPeriods | vtlc/postprocess.py:185-205 | Every concatenated row carries the period of one of the visited names. |
| Pipeline.ChatPartitionsFailure | vtlc/postprocess.py:185-205 | A failed run has a visited name whose partition fails to read. |
| Pipeline.ReadChatPartitionPeriod | vtlc/postprocess.py:187-194 | `chats_<P>.parquet` with P free of '_' is read from itself; its rows are its statistics tagged P; a missing file raises. |
| Pipeline.ChatPartitionsErr | vtlc/postprocess.py:185-205 | A partition that raises ends the run with its error, whatever follows. |
| Pipeline.FillRow | vtlc/postprocess.py:209-221 | A merged row keeps its channel, period, chats and uniqueChatters. A missing ban or deletion count becomes 0. |
| Pipeline.MergeModeration | vtlc/postprocess.py:209-216 | The two left merges never lose a statistics row. |
| Pipeline.MergeModerationKeys | vtlc/postprocess.py:209-216 | Every merged row's (channel, period) is that of a statistics row. |
| Pipeline.ReadChatPartitions | vtlc/postprocess.py:185-205 | The loop's result is exactly the concatenation, in visiting order, of the tagged partition statistics, or the first error raised. |
| Pipeline.MergeModerationLength | vtlc/postprocess.py:209-216 | The two merges keep the number of statistics rows. |
| Pipeline.MergeModerationRow | vtlc/postprocess.py:209-226 | Merged row i is statistics row i with: missing member counts as 0; distinct banned chatters of its (channel, period), or 0; distinct standing deleted chats, or 0. |
| Pipeline.ChatStatsTable | vtlc/postprocess.py:183-233 | The intended table exists iff every visited partition reads, and then has one row per concatenated statistics row. With no matched name it is empty. |
| Pipeline.ChatStatsTableAsWritten | vtlc/postprocess.py:183-216 | The run as written raises iff no name matched or the intended run raises; otherwise it gives the intended table. No matched name stands for the column-less `pd.DataFrame()` of line 183, which the merge on channelId and period cannot use. |
| Pipeline.ChatStatsAsWrittenRaises | vtlc/postprocess.py:209-212 | With no matched partition the run as written raises KeyError; the intended table is empty. |
| Pipeline.ChatRecord | vtlc/postprocess.py:224-233 | A chat stats record has one field per output column. |
| Pipeline.ChatLines | vtlc/postprocess.py:238-241 | One CSV line per row. |
| Pipeline.ChatRecordRoundTrip | vtlc/postprocess.py:224-241 | A chat statistics line whose channel and period hold no ',' splits back into its eight fields in column order. Channel and period unquote to their text, and the six counts parse back to their values. |
| Pipeline.GenerateChatStats | vtlc/postprocess.py:181-241 | The loop over sorted partitions succeeds iff the specified table exists. On success the file holds exactly the write-mode result for that table; a run that raises leaves the file unchanged. |
| Pipeline.ReadSuperchatPartition | vtlc/postprocess.py:250-261 | With the intended load_superchat, a partition reads iff its period parses and the rebuilt path exists. Every row gets that period, and no (channel, period) has two rows. |
| Pipeline.SuperchatPartitions | vtlc/postprocess.py:248-269 | Every period in the concatenated statistics is a token without '_'. |
| Pipeline.SuperchatPartitionsPeriods | vtlc/postprocess.py:248-269 | Every concatenated row carries the period of one of the visited names. |
| Pipeline.SuperchatPartitionsFailure | vtlc/postprocess.py:248-269 | A failed run has a visited name whose partition fails to read. |
| Pipeline.ReadSuperchatPartitionPeriod | vtlc/postprocess.py:250-257 | `superchats_<P>.parquet` is read from itself, and its rows are tagged P. |
| Pipeline.SuperchatPartitionsErr | vtlc/postprocess.py:248-269 | A partition that raises ends the run with its error, whatever follows. |
| Pipeline.ReadSuperchatPartitions | vtlc/postprocess.py:248-269 | The loop's result is exactly the concatenation of the tagged partition statistics, or the first error raised. |
| Pipeline.SuperchatStatsTable | vtlc/postprocess.py:246-287 | With no matched name the table is empty, and every period in it is a token without '_'. |
| Pipeline.SuperchatRecord | vtlc/postprocess.py:276-287 | A superchat stats record has one field per output column. |
| Pipeline.SuperchatLines | vtlc/postprocess.py:290-295 | One CSV line per row. |
| Pipeline.SuperchatRecordRoundTrip | vtlc/postprocess.py:276-295 | A super chat statistics line whose text fields hold no ',' splits back into its ten fields in column order. Text unquotes, counts and amounts parse back, and a missing currency or colour is an empty field. |
| Pipeline.GenerateSuperchatStats | vtlc/postprocess.py:244-295 | The corrected run, which uses the intended load_superchat. The loop over sorted partitions succeeds iff the specified table exists; on success the file holds exactly the write-mode result for that table; a run that raises leaves the file unchanged. |

## Left out

- File-system work is not modelled: globbing, `read_parquet`, `to_parquet` paths, `shutil.copy` and the `normalize_*` functions. Partitions enter as maps from file name to records, and matched names as a list.
- `load_channels` and the command-line driver (`argparse`, `__main__`) are not modelled; the core never calls them.
- `anonymize` is the parameter `anon`. SHA-1 and `ANONYMIZATION_SALT` are not modelled. A cell that is not a string raises, as `s + salt` does.
- `applyJPY` is not part of this model. `totalSC` and `averageSC` come from the parameter `money`, which stands for the yen sum and the truncated yen mean of a channel's super chats. Float arithmetic is not modelled.
- The period of a ban or deletion event is a field of the event; `strftime('%Y-%m')` on timestamps is not modelled.
- `print`, `info()` and `gc.collect()` are not modelled; they do not change the data.
- Integer widths (`int32` / `int`) are unbounded here; counts in a month do not come near the limits.
- Moderation.BanStats, Moderation.DeletionStats: the pandas group-by there sorts its keys. The model keeps first-appearance order, because these tables are only looked up by key in the merges.
- Missing `channelId` or `authorChannelId` values are not modelled. pandas drops NaN keys from groups and `nunique` ignores NaN; here ids are strings.
- Missing deletion `id` and `retracted` values are not modelled either. Here an id is a string and `retracted` an integer, so `query('retracted == 0')` and `nunique` never meet NaN.
- The membership filter in `load_chat` compares a missing membership unequal to both labels, so a missing membership counts as a member chat. The model keeps that reading.
- Pipeline.ReadSuperchatPartition, Pipeline.GenerateSuperchatStats: use the corrected SuperchatStats.LoadSuperchat. As written, the run also raises whenever SuperchatStats.LoadSuperchatAsWritten does, that is, when some channel of a partition has no currency at all or no colour at all.
- Pipeline.GenerateSuperchatStats: `fillna(0)` on the super chat numeric columns never applies here, because every numeric aggregate is total in the model. For a channel without a string body, averageMessageLength is 0.
- Csv: the line terminator and file encoding are not modelled; a file is a sequence of lines.
- Frames.Frame: the frame holds its columns as a map plus an order. pandas dtypes and indexes are not modelled.
- Reducers.GenerateReducedChats, Reducers.GenerateReducedSuperchats: the output path is not modelled. The loop returns the written tables in partition order.

## Findings

| source | as written | input that shows it | evidently intended | confidence | as-written member | corrected member |
|---|---|---|---|---|---|---|
| vtlc/postprocess.py:183-216 | `channel_stats` starts as `pd.DataFrame()`. With no matched partition, the merge `on=['channelId', 'period']` raises KeyError. | `generate_chat_stats` with a matcher that matches no file | An empty table, as `generate_superchat_stats` produces | not executed | Pipeline.ChatStatsAsWrittenRaises | Pipeline.GenerateChatStats |
| vtlc/postprocess.py:105 | `x.mode()[0] if len(x) > 0 else None`. The guard is always true for a group. When every currency (or colour) of a channel is missing, `mode()` is empty and `[0]` raises. | a partition whose only super chat has a currency but no colour | None for that channel's most frequent colour | not executed | SuperchatStats.LoadSuperchatAsWrittenRaises | SuperchatStats.Mode, Pipeline.GenerateSuperchatStats |
