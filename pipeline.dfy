/** The two statistics runs: visit the matched monthly partitions in sorted
    order, compute each partition's per-channel statistics, tag them with
    the period taken from the file name, concatenate them, merge the
    moderation counts onto the chat statistics (missing counts become 0),
    and write the table to its CSV file, overwriting it with a header or
    appending to it without one. */
module Pipeline {
  import opened Cells
  import opened GroupBy
  import opened Sorting
  import opened Join
  import opened Moderation
  import opened ChatStats
  import opened SuperchatStats
  import opened Partitions
  import opened Csv

  function Identity(s: string): string
  {
    s
  }

  /** The partition names in the order the loop visits them: `sorted(...)`. */
  function Visit(names: seq<string>): (r: seq<string>)
    ensures multiset(r) == multiset(names) && SortedBy(r, Identity)
  {
    SortBy(names, Identity)
  }

  // ----- chat statistics -----

  /** A row of one partition's chat statistics with its period column. */
  datatype PeriodChat = PeriodChat(stat: ChatStat, period: string)

  function PeriodChatKey(r: PeriodChat): Key
  {
    (r.stat.channelId, r.period)
  }

  function TagChats(stats: seq<ChatStat>, period: string): seq<PeriodChat>
  {
    seq(|stats|, i requires 0 <= i < |stats| => PeriodChat(stats[i], period))
  }

  /** One pass of the loop: the period from the matched name, the partition
      read back from `chats_<period>.parquet` (a missing file raises), its
      statistics tagged with the period. It fails exactly when the name
      has no period or the file is missing; its rows all carry the period,
      one row per channel. */
  function ReadChatPartition(name: string, files: map<string, seq<ChatEvent>>): (r: Result<seq<PeriodChat>>)
    ensures r.Ok? <==> PeriodOf(name).Ok? && PartitionName("chats", PeriodOf(name).value) in files
    ensures r.Ok? ==> forall i :: 0 <= i < |r.value| ==> r.value[i].period == PeriodOf(name).value
    ensures r.Ok? ==> UniqueKeys(r.value, PeriodChatKey)
  {
    match PeriodOf(name)
    case Err(e) => Err(e)
    case Ok(period) =>
      var path := PartitionName("chats", period);
      if path in files then Ok(TagChats(LoadChat(files[path]), period))
      else Err("FileNotFoundError")
  }

  /** The concatenated statistics of the partitions `names`, in that order;
      the first partition that raises stops the run. Every period column
      holds a period token, without '_'. */
  function ChatPartitions(names: seq<string>, files: map<string, seq<ChatEvent>>): (r: Result<seq<PeriodChat>>)
    ensures r.Ok? ==> forall i :: 0 <= i < |r.value| ==> '_' !in r.value[i].period
    decreases |names|
  {
    if names == [] then Ok([])
    else
      var prev := ChatPartitions(names[..|names| - 1], files);
      if prev.Err? then prev
      else
        var part := ReadChatPartition(names[|names| - 1], files);
        if part.Err? then part else Ok(prev.value + part.value)
  }

  /** Every row of a run carries the period of one of the names. */
  lemma {:induction false} ChatPartitionsPeriods(names: seq<string>, files: map<string, seq<ChatEvent>>)
    ensures ChatPartitions(names, files).Ok? ==> forall i :: 0 <= i < |ChatPartitions(names, files).value| ==>
      exists n :: n in names && PeriodOf(n) == Ok(ChatPartitions(names, files).value[i].period)
    decreases |names|
  {
    if names != [] {
      var prev, last := names[..|names| - 1], names[|names| - 1];
      ChatPartitionsPeriods(prev, files);
      var p, part := ChatPartitions(prev, files), ReadChatPartition(last, files);
      if p.Ok? && part.Ok? {
        var rows := p.value + part.value;
        assert ChatPartitions(names, files).value == rows;
        forall i | 0 <= i < |rows| ensures exists n :: n in names && PeriodOf(n) == Ok(rows[i].period) {
          if i < |p.value| {
            assert rows[i] == p.value[i];
            var n :| n in prev && PeriodOf(n) == Ok(p.value[i].period);
            assert n in names;
          } else {
            assert rows[i] == part.value[i - |p.value|];
            assert last in names && PeriodOf(last) == Ok(rows[i].period);
          }
        }
      }
    }
  }

  /** A failed run has a name whose partition fails. */
  lemma {:induction false} ChatPartitionsFailure(names: seq<string>, files: map<string, seq<ChatEvent>>)
    ensures ChatPartitions(names, files).Err? ==> exists n :: n in names && ReadChatPartition(n, files).Err?
    decreases |names|
  {
    if names != [] {
      var prev, last := names[..|names| - 1], names[|names| - 1];
      ChatPartitionsFailure(prev, files);
      if ChatPartitions(prev, files).Err? {
        var n :| n in prev && ReadChatPartition(n, files).Err?;
        assert n in names;
      } else {
        assert last in names;
      }
    }
  }


  /** A partition named after a period without '_' is read from its own file,
      and every row it contributes carries that period. */
  lemma ReadChatPartitionPeriod(period: string, files: map<string, seq<ChatEvent>>)
    requires '_' !in period
    ensures var name := PartitionName("chats", period);
      ReadChatPartition(name, files) ==
        if name in files then Ok(TagChats(LoadChat(files[name]), period)) else Err("FileNotFoundError")
  {
    PeriodRoundTrip("chats", period);
  }

  /** A row of chat_stats.csv, its fields in the output column order. */
  datatype ChatStatsRow = ChatStatsRow(
    channelId: string, period: string, chats: nat, memberChats: nat, uniqueChatters: nat,
    uniqueMembers: nat, bannedChatters: nat, deletedChats: nat)

  function BanJoinedKey(r: (PeriodChat, Option<(Key, nat)>)): Key
  {
    PeriodChatKey(r.0)
  }

  function CountOf(r: Option<(Key, nat)>): Option<nat>
  {
    if r.Some? then Some(r.value.1) else None
  }

  /** One merged row after `fillna(0).astype('int')` and the reindex: the
      key columns and counts of the partition row, and a moderation count
      that found no match is 0. */
  function FillRow(r: ((PeriodChat, Option<(Key, nat)>), Option<(Key, nat)>)): (row: ChatStatsRow)
    ensures (row.channelId, row.period) == PeriodChatKey(r.0.0)
    ensures row.chats == r.0.0.stat.chats && row.uniqueChatters == r.0.0.stat.uniqueChatters
    ensures r.0.1.None? ==> row.bannedChatters == 0
    ensures r.1.None? ==> row.deletedChats == 0
  {
    var ((pc, ban), deletion) := r;
    ChatStatsRow(pc.stat.channelId, pc.period, pc.stat.chats, OrZero(pc.stat.memberChats),
      pc.stat.uniqueChatters, OrZero(pc.stat.uniqueMembers), OrZero(CountOf(ban)), OrZero(CountOf(deletion)))
  }

  /** The two left merges on (channelId, period), then the zero-fill. No
      chat statistics row is lost. */
  function MergeModeration(rows: seq<PeriodChat>, bans: seq<(Key, nat)>, deletions: seq<(Key, nat)>): (merged: seq<ChatStatsRow>)
    ensures |merged| >= |rows|
  {
    var withBans := LeftJoin(rows, PeriodChatKey, bans, PairKey);
    var withDeletions := LeftJoin(withBans, BanJoinedKey, deletions, PairKey);
    seq(|withDeletions|, i requires 0 <= i < |withDeletions| => FillRow(withDeletions[i]))
  }

  /** Every merged row has the (channelId, period) key of a chat statistics
      row: the merges add no key. */
  lemma MergeModerationKeys(rows: seq<PeriodChat>, bans: seq<(Key, nat)>, deletions: seq<(Key, nat)>)
    ensures forall i :: 0 <= i < |MergeModeration(rows, bans, deletions)| ==>
      var m := MergeModeration(rows, bans, deletions)[i]; (m.channelId, m.period) in KeysOf(rows)
  {
    var withBans := LeftJoin(rows, PeriodChatKey, bans, PairKey);
    var withDeletions := LeftJoin(withBans, BanJoinedKey, deletions, PairKey);
    LeftJoinOrigin(rows, PeriodChatKey, bans, PairKey);
    LeftJoinOrigin(withBans, BanJoinedKey, deletions, PairKey);
    assert forall i :: 0 <= i < |withDeletions| ==> withDeletions[i].0 in withBans && withDeletions[i].0.0 in rows;
  }

  /** The (channelId, period) keys of chat statistics rows. */
  function KeysOf(rows: seq<PeriodChat>): set<Key>
  {
    set r | r in rows :: PeriodChatKey(r)
  }

  /** What a merged row holds: the partition row's counts, a missing member
      count as 0, and the number of distinct banned chatters and of
      distinct standing deleted chats of its (channel, period), 0 when
      there are none. */
  function ExpectedRow(r: PeriodChat, bans: seq<BanEvent>, deletions: seq<DeletionEvent>): ChatStatsRow
  {
    var k := PeriodChatKey(r);
    ChatStatsRow(r.stat.channelId, r.period, r.stat.chats, OrZero(r.stat.memberChats),
      r.stat.uniqueChatters, OrZero(r.stat.uniqueMembers),
      |Distinct(Group(bans, BanKey, k), BanAuthor)|,
      |Distinct(Filter(Group(deletions, DeletionKey, k), Standing), DeletionId)|)
  }

  /** The merges keep every chat statistics row once and in order. */
  lemma MergeModerationLength(rows: seq<PeriodChat>, bans: seq<BanEvent>, deletions: seq<DeletionEvent>)
    ensures |MergeModeration(rows, BanStats(bans), DeletionStats(deletions))| == |rows|
  {
    var banStats, deletionStats := BanStats(bans), DeletionStats(deletions);
    BannedChatters(bans, ("", ""));
    DeletedChats(deletions, ("", ""));
    LeftJoinUnique(rows, PeriodChatKey, banStats, PairKey);
    LeftJoinUnique(LeftJoin(rows, PeriodChatKey, banStats, PairKey), BanJoinedKey, deletionStats, PairKey);
  }

  /** The i-th merged row is the i-th chat statistics row with its
      moderation counts filled in. */
  lemma MergeModerationRow(rows: seq<PeriodChat>, bans: seq<BanEvent>, deletions: seq<DeletionEvent>, i: nat)
    requires i < |rows|
    ensures i < |MergeModeration(rows, BanStats(bans), DeletionStats(deletions))|
    ensures MergeModeration(rows, BanStats(bans), DeletionStats(deletions))[i] == ExpectedRow(rows[i], bans, deletions)
  {
    var k := PeriodChatKey(rows[i]);
    BannedChatters(bans, k);
    DeletedChats(deletions, k);
    MergeRow(rows, BanStats(bans), DeletionStats(deletions), i);
  }

  /** Merging onto tables with unique keys keeps row `i` at `i`, with the
      counts of its key. */
  lemma MergeRow(rows: seq<PeriodChat>, banStats: seq<(Key, nat)>, deletionStats: seq<(Key, nat)>, i: nat)
    requires i < |rows| && UniqueKeys(banStats, PairKey) && UniqueKeys(deletionStats, PairKey)
    ensures i < |MergeModeration(rows, banStats, deletionStats)|
    ensures var k := PeriodChatKey(rows[i]);
      MergeModeration(rows, banStats, deletionStats)[i] ==
        FillRow(((rows[i], First(banStats, PairKey, k)), First(deletionStats, PairKey, k)))
  {
    var withBans := LeftJoin(rows, PeriodChatKey, banStats, PairKey);
    var k := PeriodChatKey(rows[i]);
    LeftJoinUnique(rows, PeriodChatKey, banStats, PairKey);
    assert withBans[i] == (rows[i], First(banStats, PairKey, k));
    assert BanJoinedKey(withBans[i]) == k;
    LeftJoinUnique(withBans, BanJoinedKey, deletionStats, PairKey);
  }

  /** The chat statistics table the run writes: it fails exactly when a
      partition fails, has one row per partition row, and with no
      partition it is empty. */
  function ChatStatsTable(names: seq<string>, files: map<string, seq<ChatEvent>>,
                          bans: seq<BanEvent>, deletions: seq<DeletionEvent>): (r: Result<seq<ChatStatsRow>>)
    ensures r.Ok? <==> ChatPartitions(Visit(names), files).Ok?
    ensures r.Ok? ==> |r.value| == |ChatPartitions(Visit(names), files).value|
    ensures names == [] ==> r == Ok([])
  {
    var rows := ChatPartitions(Visit(names), files);
    if rows.Err? then Err(rows.error)
    else
      MergeModerationLength(rows.value, bans, deletions);
      Ok(MergeModeration(rows.value, BanStats(bans), DeletionStats(deletions)))
  }

  /** The run as written: with no matching partition the accumulated table
      is still the initial frame without columns, and merging it on
      'channelId' raises; otherwise the run is the intended one. */
  function ChatStatsTableAsWritten(names: seq<string>, files: map<string, seq<ChatEvent>>,
                                   bans: seq<BanEvent>, deletions: seq<DeletionEvent>): (r: Result<seq<ChatStatsRow>>)
    ensures r.Err? <==> names == [] || ChatStatsTable(names, files, bans, deletions).Err?
    ensures r.Ok? ==> r == ChatStatsTable(names, files, bans, deletions)
  {
    if names == [] then Err("KeyError: 'channelId'")
    else ChatStatsTable(names, files, bans, deletions)
  }

  /** With no partition, the run as written raises where the intended run
      yields an empty table. */
  lemma ChatStatsAsWrittenRaises(files: map<string, seq<ChatEvent>>, bans: seq<BanEvent>, deletions: seq<DeletionEvent>)
    ensures ChatStatsTableAsWritten([], files, bans, deletions).Err?
    ensures ChatStatsTable([], files, bans, deletions) == Ok([])
  {
  }

  const ChatStatsColumns: seq<string> := ["channelId", "period", "chats", "memberChats", "uniqueChatters",
    "uniqueMembers", "bannedChatters", "deletedChats"]

  function ChatRecord(r: ChatStatsRow): (fields: seq<Field>)
    ensures |fields| == |ChatStatsColumns|
  {
    [Str(r.channelId), Str(r.period), Count(r.chats), Count(r.memberChats), Count(r.uniqueChatters),
     Count(r.uniqueMembers), Count(r.bannedChatters), Count(r.deletedChats)]
  }

  function ChatLines(rows: seq<ChatStatsRow>): (lines: seq<string>)
    ensures |lines| == |rows|
  {
    seq(|rows|, i requires 0 <= i < |rows| => RenderRecord(ChatRecord(rows[i])))
  }

  /** A chat statistics line whose channel and period hold no ',' splits
      back into its fields in the header's column order: the channel and
      the period read back as text, the six counts as numbers. */
  lemma ChatRecordRoundTrip(r: ChatStatsRow)
    requires ',' !in r.channelId && ',' !in r.period
    ensures var parts := Strings.Split(RenderRecord(ChatRecord(r)), ',');
      && |parts| == |ChatStatsColumns|
      && UnquoteField(parts[0]) == r.channelId && UnquoteField(parts[1]) == r.period
      && CountReadsAs(parts[2], r.chats) && CountReadsAs(parts[3], r.memberChats)
      && CountReadsAs(parts[4], r.uniqueChatters) && CountReadsAs(parts[5], r.uniqueMembers)
      && CountReadsAs(parts[6], r.bannedChatters) && CountReadsAs(parts[7], r.deletedChats)
  {
    ChatTextParts(r);
    ChatCountParts(r);
  }

  /** The channel and the period of a chat statistics line read back as text. */
  lemma ChatTextParts(r: ChatStatsRow)
    requires ',' !in r.channelId && ',' !in r.period
    ensures var parts := Strings.Split(RenderRecord(ChatRecord(r)), ',');
      && |parts| == |ChatStatsColumns|
      && UnquoteField(parts[0]) == r.channelId && UnquoteField(parts[1]) == r.period
  {
    var fields := ChatRecord(r);
    assert forall i :: 0 <= i < |fields| ==> CommaFree(fields[i]);
    var parts := Strings.Split(RenderRecord(fields), ',');
    assert parts[0] == QuoteField(r.channelId) && parts[1] == QuoteField(r.period);
  }

  /** The six counts of a chat statistics line read back as numbers. */
  lemma ChatCountParts(r: ChatStatsRow)
    requires ',' !in r.channelId && ',' !in r.period
    ensures var parts := Strings.Split(RenderRecord(ChatRecord(r)), ',');
      && |parts| == |ChatStatsColumns|
      && CountReadsAs(parts[2], r.chats) && CountReadsAs(parts[3], r.memberChats)
      && CountReadsAs(parts[4], r.uniqueChatters) && CountReadsAs(parts[5], r.uniqueMembers)
      && CountReadsAs(parts[6], r.bannedChatters) && CountReadsAs(parts[7], r.deletedChats)
  {
    var fields := ChatRecord(r);
    assert forall i :: 0 <= i < |fields| ==> CommaFree(fields[i]);
    var parts := Strings.Split(RenderRecord(fields), ',');
    CountReadsBack(parts[2], r.chats);
    CountReadsBack(parts[3], r.memberChats);
    CountReadsBack(parts[4], r.uniqueChatters);
    CountReadsBack(parts[5], r.uniqueMembers);
    CountReadsBack(parts[6], r.bannedChatters);
    CountReadsBack(parts[7], r.deletedChats);
  }

  /** A rendered count parses back to the count. */
  lemma CountReadsBack(part: string, n: nat)
    requires part == RenderField(Count(n))
    ensures CountReadsAs(part, n)
  {
    Strings.ParseNatToString(n);
  }

  /** A field that reads back as the count `n`: all digits, of value `n`. */
  predicate CountReadsAs(part: string, n: nat)
  {
    (forall i :: 0 <= i < |part| ==> Strings.IsDigit(part[i])) && Strings.ParseNat(part) == n
  }

  /** The loop of `generate_chat_stats`: the partitions are read in turn
      and their statistics concatenated; the first one that raises ends
      the loop. */
  method ReadChatPartitions(visit: seq<string>, files: map<string, seq<ChatEvent>>) returns (r: Result<seq<PeriodChat>>)
    ensures r == ChatPartitions(visit, files)
  {
    var stats: seq<PeriodChat> := [];
    var i := 0;
    while i < |visit|
      invariant 0 <= i <= |visit|
      invariant ChatPartitions(visit[..i], files) == Ok(stats)
    {
      var part := ReadChatPartition(visit[i], files);
      ChatPartitionsStep(visit, files, i);
      if part.Err? {
        ChatPartitionsErr(visit, files, i + 1);
        return part;
      }
      stats := stats + part.value;
      i := i + 1;
    }
    assert visit[..i] == visit;
    r := Ok(stats);
  }

  /** One more partition extends the run by its rows, or ends it with its
      error. */
  lemma ChatPartitionsStep(visit: seq<string>, files: map<string, seq<ChatEvent>>, i: nat)
    requires i < |visit| && ChatPartitions(visit[..i], files).Ok?
    ensures var part := ReadChatPartition(visit[i], files);
      ChatPartitions(visit[..i + 1], files) ==
        if part.Err? then part else Ok(ChatPartitions(visit[..i], files).value + part.value)
  {
    assert visit[..i + 1][..i] == visit[..i];
  }

  /** A run that has raised on a prefix of the partitions raises with the
      same error on all of them. */
  lemma {:induction false} ChatPartitionsErr(names: seq<string>, files: map<string, seq<ChatEvent>>, k: nat)
    requires k <= |names| && ChatPartitions(names[..k], files).Err?
    ensures ChatPartitions(names, files) == ChatPartitions(names[..k], files)
    decreases |names| - k
  {
    if k < |names| {
      var prev := names[..|names| - 1];
      assert prev[..k] == names[..k];
      ChatPartitionsErr(prev, files, k);
    } else {
      assert names[..k] == names;
    }
  }

  /** `generate_chat_stats`: the loop over the sorted partitions, the
      merges, and the write. A run that raises writes nothing. */
  method GenerateChatStats(names: seq<string>, files: map<string, seq<ChatEvent>>,
                           bans: seq<BanEvent>, deletions: seq<DeletionEvent>,
                           out: CsvFile, appendOnly: bool) returns (r: Result<()>)
    modifies out
    ensures r.Ok? <==> ChatStatsTable(names, files, bans, deletions).Ok?
    ensures r.Ok? ==> out.lines == AfterWrite(old(out.lines), Header(ChatStatsColumns),
                                              ChatLines(ChatStatsTable(names, files, bans, deletions).value), appendOnly)
    ensures r.Err? ==> out.lines == old(out.lines)
  {
    var stats := ReadChatPartitions(Visit(names), files);
    if stats.Err? {
      return Err(stats.error);
    }
    var table := MergeModeration(stats.value, BanStats(bans), DeletionStats(deletions));
    out.Write(Header(ChatStatsColumns), ChatLines(table), appendOnly);
    r := Ok(());
  }

  // ----- super chat statistics -----

  /** A row of one partition's super chat statistics with its period. */
  datatype PeriodSuperchat = PeriodSuperchat(stat: SuperchatStat, period: string)

  function PeriodSuperchatKey(r: PeriodSuperchat): Key
  {
    (r.stat.channelId, r.period)
  }

  function TagSuperchats(stats: seq<SuperchatStat>, period: string): seq<PeriodSuperchat>
  {
    seq(|stats|, i requires 0 <= i < |stats| => PeriodSuperchat(stats[i], period))
  }

  /** One pass of the super chat loop: fails exactly when the name has no
      period or the file is missing; its rows all carry the period, one
      row per channel. */
  function ReadSuperchatPartition(name: string, files: map<string, seq<SuperchatEvent>>,
                                  money: seq<SuperchatEvent> -> (int, int)): (r: Result<seq<PeriodSuperchat>>)
    ensures r.Ok? <==> PeriodOf(name).Ok? && PartitionName("superchats", PeriodOf(name).value) in files
    ensures r.Ok? ==> forall i :: 0 <= i < |r.value| ==> r.value[i].period == PeriodOf(name).value
    ensures r.Ok? ==> UniqueKeys(r.value, PeriodSuperchatKey)
  {
    match PeriodOf(name)
    case Err(e) => Err(e)
    case Ok(period) =>
      var path := PartitionName("superchats", period);
      if path in files then Ok(TagSuperchats(LoadSuperchat(files[path], money), period))
      else Err("FileNotFoundError")
  }

  /** The concatenated super chat statistics of the partitions `names`;
      every period column holds a period token, without '_'. */
  function SuperchatPartitions(names: seq<string>, files: map<string, seq<SuperchatEvent>>,
                               money: seq<SuperchatEvent> -> (int, int)): (r: Result<seq<PeriodSuperchat>>)
    ensures r.Ok? ==> forall i :: 0 <= i < |r.value| ==> '_' !in r.value[i].period
    decreases |names|
  {
    if names == [] then Ok([])
    else
      var prev := SuperchatPartitions(names[..|names| - 1], files, money);
      if prev.Err? then prev
      else
        var part := ReadSuperchatPartition(names[|names| - 1], files, money);
        if part.Err? then part else Ok(prev.value + part.value)
  }

  /** Every row of a super chat run carries the period of one of the
      names, and a failed run has a name whose partition fails. */
  lemma {:induction false} SuperchatPartitionsPeriods(names: seq<string>, files: map<string, seq<SuperchatEvent>>,
                                                      money: seq<SuperchatEvent> -> (int, int))
    ensures SuperchatPartitions(names, files, money).Ok? ==> forall i :: 0 <= i < |SuperchatPartitions(names, files, money).value| ==>
      exists n :: n in names && PeriodOf(n) == Ok(SuperchatPartitions(names, files, money).value[i].period)
    decreases |names|
  {
    if names != [] {
      var prev, last := names[..|names| - 1], names[|names| - 1];
      SuperchatPartitionsPeriods(prev, files, money);
      var p, part := SuperchatPartitions(prev, files, money), ReadSuperchatPartition(last, files, money);
      if p.Ok? && part.Ok? {
        var rows := p.value + part.value;
        assert SuperchatPartitions(names, files, money).value == rows;
        forall i | 0 <= i < |rows| ensures exists n :: n in names && PeriodOf(n) == Ok(rows[i].period) {
          if i < |p.value| {
            assert rows[i] == p.value[i];
            var n :| n in prev && PeriodOf(n) == Ok(p.value[i].period);
            assert n in names;
          } else {
            assert rows[i] == part.value[i - |p.value|];
            assert last in names && PeriodOf(last) == Ok(rows[i].period);
          }
        }
      }
    }
  }

  /** A failed run has a name whose partition fails. */
  lemma {:induction false} SuperchatPartitionsFailure(names: seq<string>, files: map<string, seq<SuperchatEvent>>,
                                                      money: seq<SuperchatEvent> -> (int, int))
    ensures SuperchatPartitions(names, files, money).Err? ==> exists n :: n in names && ReadSuperchatPartition(n, files, money).Err?
    decreases |names|
  {
    if names != [] {
      var prev, last := names[..|names| - 1], names[|names| - 1];
      SuperchatPartitionsFailure(prev, files, money);
      if SuperchatPartitions(prev, files, money).Err? {
        var n :| n in prev && ReadSuperchatPartition(n, files, money).Err?;
        assert n in names;
      } else {
        assert last in names;
      }
    }
  }


  /** A partition named after a period without '_' is read from its own
      file, and every row it contributes carries that period. */
  lemma ReadSuperchatPartitionPeriod(period: string, files: map<string, seq<SuperchatEvent>>,
                                     money: seq<SuperchatEvent> -> (int, int))
    requires '_' !in period
    ensures var name := PartitionName("superchats", period);
      ReadSuperchatPartition(name, files, money) ==
        if name in files then Ok(TagSuperchats(LoadSuperchat(files[name], money), period)) else Err("FileNotFoundError")
  {
    PeriodRoundTrip("superchats", period);
  }

  /** The super chat statistics table the run writes: with no partition
      it is empty, and every period column holds a period token. */
  function SuperchatStatsTable(names: seq<string>, files: map<string, seq<SuperchatEvent>>,
                               money: seq<SuperchatEvent> -> (int, int)): (r: Result<seq<PeriodSuperchat>>)
    ensures names == [] ==> r == Ok([])
    ensures r.Ok? ==> forall i :: 0 <= i < |r.value| ==> '_' !in r.value[i].period
  {
    SuperchatPartitions(Visit(names), files, money)
  }

  const SuperchatStatsColumns: seq<string> := ["channelId", "period", "superChats", "uniqueSuperChatters",
    "totalSC", "averageSC", "totalMessageLength", "averageMessageLength",
    "mostFrequentCurrency", "mostFrequentColor"]

  /** A signed integer field as `to_csv` writes it. */
  function IntField(n: int): Field
  {
    if n >= 0 then Count(n) else Str("-" + Strings.NatToString(-n))
  }

  /** A text column that `fillna` leaves alone: a missing mode is written
      as the empty field. */
  function OptionField(v: Option<string>): Field
  {
    if v.Some? then Str(v.value) else Absent
  }

  function SuperchatRecord(r: PeriodSuperchat): (fields: seq<Field>)
    ensures |fields| == |SuperchatStatsColumns|
  {
    var s := r.stat;
    [Str(s.channelId), Str(r.period), Count(s.superChats), Count(s.uniqueSuperChatters),
     IntField(s.totalSC), IntField(s.averageSC), Count(s.totalMessageLength), Count(s.averageMessageLength),
     OptionField(s.mostFrequentCurrency), OptionField(s.mostFrequentColor)]
  }

  function SuperchatLines(rows: seq<PeriodSuperchat>): (lines: seq<string>)
    ensures |lines| == |rows|
  {
    seq(|rows|, i requires 0 <= i < |rows| => RenderRecord(SuperchatRecord(rows[i])))
  }

  /** A super chat statistics line whose text values hold no ',' splits
      back into its fields in the header's column order: text read back
      as written, counts as numbers, a negative yen amount as '-' and its
      magnitude, a missing mode as the empty field. */
  lemma SuperchatRecordRoundTrip(r: PeriodSuperchat)
    requires ',' !in r.stat.channelId && ',' !in r.period
    requires r.stat.mostFrequentCurrency.Some? ==> ',' !in r.stat.mostFrequentCurrency.value
    requires r.stat.mostFrequentColor.Some? ==> ',' !in r.stat.mostFrequentColor.value
    ensures var parts := Strings.Split(RenderRecord(SuperchatRecord(r)), ','); var st := r.stat;
      && |parts| == |SuperchatStatsColumns|
      && UnquoteField(parts[0]) == st.channelId && UnquoteField(parts[1]) == r.period
      && CountReadsAs(parts[2], st.superChats) && CountReadsAs(parts[3], st.uniqueSuperChatters)
      && IntReadsBack(parts[4], st.totalSC) && IntReadsBack(parts[5], st.averageSC)
      && CountReadsAs(parts[6], st.totalMessageLength) && CountReadsAs(parts[7], st.averageMessageLength)
      && OptionReadsBack(parts[8], st.mostFrequentCurrency) && OptionReadsBack(parts[9], st.mostFrequentColor)
  {
    SuperchatTextParts(r);
    SuperchatCountParts(r);
    SuperchatAmountParts(r);
  }

  /** The text fields of a super chat line read back. */
  lemma SuperchatTextParts(r: PeriodSuperchat)
    requires ',' !in r.stat.channelId && ',' !in r.period
    requires r.stat.mostFrequentCurrency.Some? ==> ',' !in r.stat.mostFrequentCurrency.value
    requires r.stat.mostFrequentColor.Some? ==> ',' !in r.stat.mostFrequentColor.value
    ensures var parts := Strings.Split(RenderRecord(SuperchatRecord(r)), ',');
      && |parts| == |SuperchatStatsColumns|
      && UnquoteField(parts[0]) == r.stat.channelId && UnquoteField(parts[1]) == r.period
      && OptionReadsBack(parts[8], r.stat.mostFrequentCurrency) && OptionReadsBack(parts[9], r.stat.mostFrequentColor)
  {
    var fields := SuperchatRecord(r);
    SuperchatRecordCommaFree(r);
    var parts := Strings.Split(RenderRecord(fields), ',');
    assert parts[0] == RenderField(fields[0]) && parts[1] == RenderField(fields[1]);
    OptionFieldReadsBack(parts[8], r.stat.mostFrequentCurrency);
    OptionFieldReadsBack(parts[9], r.stat.mostFrequentColor);
  }

  /** The count fields of a super chat line read back. */
  lemma SuperchatCountParts(r: PeriodSuperchat)
    requires ',' !in r.stat.channelId && ',' !in r.period
    requires r.stat.mostFrequentCurrency.Some? ==> ',' !in r.stat.mostFrequentCurrency.value
    requires r.stat.mostFrequentColor.Some? ==> ',' !in r.stat.mostFrequentColor.value
    ensures var parts := Strings.Split(RenderRecord(SuperchatRecord(r)), ',');
      && |parts| == |SuperchatStatsColumns|
      && CountReadsAs(parts[2], r.stat.superChats) && CountReadsAs(parts[3], r.stat.uniqueSuperChatters)
      && CountReadsAs(parts[6], r.stat.totalMessageLength) && CountReadsAs(parts[7], r.stat.averageMessageLength)
  {
    var fields := SuperchatRecord(r);
    SuperchatRecordCommaFree(r);
    var parts := Strings.Split(RenderRecord(fields), ',');
    CountReadsBack(parts[2], r.stat.superChats);
    CountReadsBack(parts[3], r.stat.uniqueSuperChatters);
    CountReadsBack(parts[6], r.stat.totalMessageLength);
    CountReadsBack(parts[7], r.stat.averageMessageLength);
  }

  /** The yen fields of a super chat line read back. */
  lemma SuperchatAmountParts(r: PeriodSuperchat)
    requires ',' !in r.stat.channelId && ',' !in r.period
    requires r.stat.mostFrequentCurrency.Some? ==> ',' !in r.stat.mostFrequentCurrency.value
    requires r.stat.mostFrequentColor.Some? ==> ',' !in r.stat.mostFrequentColor.value
    ensures var parts := Strings.Split(RenderRecord(SuperchatRecord(r)), ',');
      && |parts| == |SuperchatStatsColumns|
      && IntReadsBack(parts[4], r.stat.totalSC) && IntReadsBack(parts[5], r.stat.averageSC)
  {
    SuperchatTotalPart(r);
    SuperchatAveragePart(r);
  }

  /** The total amount of a superchat statistics line reads back as a number. */
  lemma SuperchatTotalPart(r: PeriodSuperchat)
    requires ',' !in r.stat.channelId && ',' !in r.period
    requires r.stat.mostFrequentCurrency.Some? ==> ',' !in r.stat.mostFrequentCurrency.value
    requires r.stat.mostFrequentColor.Some? ==> ',' !in r.stat.mostFrequentColor.value
    ensures var parts := Strings.Split(RenderRecord(SuperchatRecord(r)), ',');
      && |parts| == |SuperchatStatsColumns| && IntReadsBack(parts[4], r.stat.totalSC)
  {
    var fields := SuperchatRecord(r);
    SuperchatRecordCommaFree(r);
    var parts := Strings.Split(RenderRecord(fields), ',');
    assert parts[4] == RenderField(fields[4]) && fields[4] == IntField(r.stat.totalSC);
    IntFieldReadsBack(parts[4], r.stat.totalSC);
  }

  /** The average amount of a superchat statistics line reads back as a number. */
  lemma SuperchatAveragePart(r: PeriodSuperchat)
    requires ',' !in r.stat.channelId && ',' !in r.period
    requires r.stat.mostFrequentCurrency.Some? ==> ',' !in r.stat.mostFrequentCurrency.value
    requires r.stat.mostFrequentColor.Some? ==> ',' !in r.stat.mostFrequentColor.value
    ensures var parts := Strings.Split(RenderRecord(SuperchatRecord(r)), ',');
      && |parts| == |SuperchatStatsColumns| && IntReadsBack(parts[5], r.stat.averageSC)
  {
    var fields := SuperchatRecord(r);
    SuperchatRecordCommaFree(r);
    var parts := Strings.Split(RenderRecord(fields), ',');
    assert parts[5] == RenderField(fields[5]) && fields[5] == IntField(r.stat.averageSC);
    IntFieldReadsBack(parts[5], r.stat.averageSC);
  }

  lemma SuperchatRecordCommaFree(r: PeriodSuperchat)
    requires ',' !in r.stat.channelId && ',' !in r.period
    requires r.stat.mostFrequentCurrency.Some? ==> ',' !in r.stat.mostFrequentCurrency.value
    requires r.stat.mostFrequentColor.Some? ==> ',' !in r.stat.mostFrequentColor.value
    ensures forall i :: 0 <= i < |SuperchatRecord(r)| ==> CommaFree(SuperchatRecord(r)[i])
  {
    IntFieldCommaFree(r.stat.totalSC);
    IntFieldCommaFree(r.stat.averageSC);
  }

  /** A rendered optional text field reads back as its value. */
  lemma OptionFieldReadsBack(part: string, v: Option<string>)
    requires part == RenderField(OptionField(v))
    ensures OptionReadsBack(part, v)
  {
  }

  /** A signed field holds no ','. */
  lemma IntFieldCommaFree(n: int)
    ensures CommaFree(IntField(n))
  {
    if n < 0 {
      var d := Strings.NatToString(-n);
      assert forall j :: 0 <= j < |d| ==> d[j] != ',';
    }
  }

  /** A rendered signed field reads back as its value. */
  lemma IntFieldReadsBack(part: string, n: int)
    requires part == RenderField(IntField(n))
    ensures IntReadsBack(part, n)
  {
    if n >= 0 {
      CountReadsBack(part, n);
    } else {
      var d := Strings.NatToString(-n);
      var t := UnquoteField(part);
      assert t == "-" + d;
      assert t[1..] == d;
      Strings.ParseNatToString(-n);
    }
  }

  /** A signed field read back: digits for a non-negative value, '-' and
      the digits of the magnitude for a negative one. */
  predicate IntReadsBack(part: string, n: int)
  {
    if n >= 0 then CountReadsAs(part, n)
    else var t := UnquoteField(part); |t| >= 1 && t[0] == '-' && CountReadsAs(t[1..], -n)
  }

  /** An optional text field read back: the value, or the empty field. */
  predicate OptionReadsBack(part: string, v: Option<string>)
  {
    if v.Some? then UnquoteField(part) == v.value else part == ""
  }

  /** The loop of `generate_superchat_stats`. */
  method ReadSuperchatPartitions(visit: seq<string>, files: map<string, seq<SuperchatEvent>>,
                                 money: seq<SuperchatEvent> -> (int, int)) returns (r: Result<seq<PeriodSuperchat>>)
    ensures r == SuperchatPartitions(visit, files, money)
  {
    var stats: seq<PeriodSuperchat> := [];
    var i := 0;
    while i < |visit|
      invariant 0 <= i <= |visit|
      invariant SuperchatPartitions(visit[..i], files, money) == Ok(stats)
    {
      var part := ReadSuperchatPartition(visit[i], files, money);
      SuperchatPartitionsStep(visit, files, money, i);
      if part.Err? {
        SuperchatPartitionsErr(visit, files, money, i + 1);
        return part;
      }
      stats := stats + part.value;
      i := i + 1;
    }
    assert visit[..i] == visit;
    r := Ok(stats);
  }

  /** One more partition extends the run by its rows, or ends it with its
      error. */
  lemma SuperchatPartitionsStep(visit: seq<string>, files: map<string, seq<SuperchatEvent>>,
                                money: seq<SuperchatEvent> -> (int, int), i: nat)
    requires i < |visit| && SuperchatPartitions(visit[..i], files, money).Ok?
    ensures var part := ReadSuperchatPartition(visit[i], files, money);
      SuperchatPartitions(visit[..i + 1], files, money) ==
        if part.Err? then part else Ok(SuperchatPartitions(visit[..i], files, money).value + part.value)
  {
    assert visit[..i + 1][..i] == visit[..i];
  }

  lemma {:induction false} SuperchatPartitionsErr(names: seq<string>, files: map<string, seq<SuperchatEvent>>,
                                                       money: seq<SuperchatEvent> -> (int, int), k: nat)
    requires k <= |names| && SuperchatPartitions(names[..k], files, money).Err?
    ensures SuperchatPartitions(names, files, money) == SuperchatPartitions(names[..k], files, money)
    decreases |names| - k
  {
    if k < |names| {
      var prev := names[..|names| - 1];
      assert prev[..k] == names[..k];
      SuperchatPartitionsErr(prev, files, money, k);
    } else {
      assert names[..k] == names;
    }
  }

  /** `generate_superchat_stats`: the loop over the sorted partitions and
      the write. A run that raises writes nothing. */
  method GenerateSuperchatStats(names: seq<string>, files: map<string, seq<SuperchatEvent>>,
                                money: seq<SuperchatEvent> -> (int, int),
                                out: CsvFile, appendOnly: bool) returns (r: Result<()>)
    modifies out
    ensures r.Ok? <==> SuperchatStatsTable(names, files, money).Ok?
    ensures r.Ok? ==> out.lines == AfterWrite(old(out.lines), Header(SuperchatStatsColumns),
                                              SuperchatLines(SuperchatStatsTable(names, files, money).value), appendOnly)
    ensures r.Err? ==> out.lines == old(out.lines)
  {
    var stats := ReadSuperchatPartitions(Visit(names), files, money);
    if stats.Err? {
      return Err(stats.error);
    }
    out.Write(Header(SuperchatStatsColumns), SuperchatLines(stats.value), appendOnly);
    r := Ok(());
  }
}
