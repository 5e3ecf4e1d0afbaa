/** Per-channel chat statistics of one monthly partition (`load_chat`):
    how many chats each channel received and from how many distinct
    chatters, and the same two counts over member chats, joined onto the
    channel rows. */
module ChatStats {
  import opened Cells
  import opened GroupBy
  import opened Sorting
  import opened Join

  /** The three columns `load_chat` reads from a chat record. */
  datatype ChatEvent = ChatEvent(authorChannelId: string, channelId: string, membership: Cell)

  function ChatChannel(e: ChatEvent): string
  {
    e.channelId
  }

  function ChatAuthor(e: ChatEvent): string
  {
    e.authorChannelId
  }

  /** The member filter: membership neither "non-member" nor "unknown". A
      missing membership compares unequal to both and so counts as a
      member chat, exactly the chats that binMember classifies as True. */
  predicate IsMemberChat(e: ChatEvent)
    ensures IsMemberChat(e) <==> BinMember(e.membership) == Flag(true)
  {
    e.membership != Text("non-member") && e.membership != Text("unknown")
  }

  /** A row of the partition's chat statistics. `memberChats` and
      `uniqueMembers` are missing for a channel without member chats. */
  datatype ChatStat = ChatStat(
    channelId: string, chats: nat, uniqueChatters: nat,
    memberChats: Option<nat>, uniqueMembers: Option<nat>)

  function RowChannel(r: ChatStat): string
  {
    r.channelId
  }

  /** A channel's statistics row assembled from its group-by row and its
      optional member group-by row. */
  function ChatRow(joined: (Stat<string>, Option<Stat<string>>)): ChatStat
  {
    var (all, members) := joined;
    ChatStat(all.key, all.size, all.nunique,
      if members.Some? then Some(members.value.size) else None,
      if members.Some? then Some(members.value.nunique) else None)
  }

  /** `load_chat`: size and nunique of the authors per channel, groups in
      ascending channel order; the same over the member chats; the member
      table left-joined onto the channel table by channel. The result has
      one row per channel that has chats, in ascending channel order, and
      no channel twice. */
  function LoadChat(chat: seq<ChatEvent>): (rows: seq<ChatStat>)
    ensures |rows| == |Keys(chat, ChatChannel)|
    ensures UniqueKeys(rows, RowChannel)
    ensures SortedBy(rows, RowChannel)
  {
    var all := SortedSizeNUnique(chat, ChatChannel, ChatAuthor);
    var members := SizeNUnique(Filter(chat, IsMemberChat), ChatChannel, ChatAuthor);
    SizeNUniqueUnique(Filter(chat, IsMemberChat), ChatChannel, ChatAuthor);
    ChatRowsShape(all, members);
    ChatRows(LeftJoin(all, StatKey, members, StatKey))
  }

  /** The output rows of the join, one per joined pair. */
  function ChatRows(joined: seq<(Stat<string>, Option<Stat<string>>)>): seq<ChatStat>
  {
    seq(|joined|, i requires 0 <= i < |joined| => ChatRow(joined[i]))
  }

  /** Joining member rows with unique keys onto sorted, duplicate-free
      channel rows gives sorted, duplicate-free output rows, one per
      channel row. */
  lemma ChatRowsShape(all: seq<Stat<string>>, members: seq<Stat<string>>)
    requires UniqueKeys(members, StatKey) && UniqueKeys(all, StatKey) && SortedBy(all, StatKey)
    ensures |ChatRows(LeftJoin(all, StatKey, members, StatKey))| == |all|
    ensures UniqueKeys(ChatRows(LeftJoin(all, StatKey, members, StatKey)), RowChannel)
    ensures SortedBy(ChatRows(LeftJoin(all, StatKey, members, StatKey)), RowChannel)
  {
    var rows := ChatRows(LeftJoin(all, StatKey, members, StatKey));
    JoinedChannels(all, members);
    assert forall i :: 0 <= i < |rows| ==> rows[i].channelId == all[i].key;
    RowsFollowStats(rows, all);
  }

  /** Joining member rows with unique keys keeps the channel of every
      channel row, in place. */
  lemma JoinedChannels(all: seq<Stat<string>>, members: seq<Stat<string>>)
    requires UniqueKeys(members, StatKey)
    ensures |LeftJoin(all, StatKey, members, StatKey)| == |all|
    ensures forall i :: 0 <= i < |all| ==> ChatRow(LeftJoin(all, StatKey, members, StatKey)[i]).channelId == all[i].key
  {
    LeftJoinUnique(all, StatKey, members, StatKey);
  }

  /** Rows that carry the keys of sorted, duplicate-free statistics rows are
      themselves sorted and duplicate-free. */
  lemma RowsFollowStats(rows: seq<ChatStat>, all: seq<Stat<string>>)
    requires |rows| == |all|
    requires forall i :: 0 <= i < |rows| ==> rows[i].channelId == all[i].key
    requires UniqueKeys(all, StatKey) && SortedBy(all, StatKey)
    ensures UniqueKeys(rows, RowChannel) && SortedBy(rows, RowChannel)
  {
    forall i, j | 0 <= i < j < |rows|
      ensures RowChannel(rows[i]) != RowChannel(rows[j])
      ensures StrLe(RowChannel(rows[i]), RowChannel(rows[j]))
    {
      assert RowChannel(rows[i]) == StatKey(all[i]) && RowChannel(rows[j]) == StatKey(all[j]);
    }
  }

  /** The statistics of channel `ch`, read straight off its records: the
      reference `LoadChat` is proved against. */
  function ChatStatOf(chat: seq<ChatEvent>, ch: string): ChatStat
  {
    var g := Group(chat, ChatChannel, ch);
    var m := Filter(g, IsMemberChat);
    ChatStat(ch, |g|, |Distinct(g, ChatAuthor)|,
      if |m| > 0 then Some(|m|) else None,
      if |m| > 0 then Some(|Distinct(m, ChatAuthor)|) else None)
  }

  /** A channel's member row, when it has one, is the size and distinct
      count of its member chats. */
  lemma MemberStats(chat: seq<ChatEvent>, ch: string)
    ensures var r := First(SizeNUnique(Filter(chat, IsMemberChat), ChatChannel, ChatAuthor), StatKey, ch);
      var m := Filter(Group(chat, ChatChannel, ch), IsMemberChat);
      r == if |m| > 0 then Some(Stat(ch, |m|, |Distinct(m, ChatAuthor)|)) else None
  {
    FindStatGroups(Filter(chat, IsMemberChat), ChatChannel, ChatAuthor, ch);
    GroupFilter(chat, IsMemberChat, ChatChannel, ch);
  }

  /** Row `i` of `load_chat` is the channel row of the sorted group-by
      with the channel's member row, if any, joined on. */
  lemma LoadChatJoined(chat: seq<ChatEvent>)
    ensures var all := SortedSizeNUnique(chat, ChatChannel, ChatAuthor);
      var members := SizeNUnique(Filter(chat, IsMemberChat), ChatChannel, ChatAuthor);
      && |LoadChat(chat)| == |all|
      && forall i :: 0 <= i < |all| ==> LoadChat(chat)[i] == ChatRow((all[i], First(members, StatKey, all[i].key)))
  {
    var all := SortedSizeNUnique(chat, ChatChannel, ChatAuthor);
    var members := SizeNUnique(Filter(chat, IsMemberChat), ChatChannel, ChatAuthor);
    SizeNUniqueUnique(Filter(chat, IsMemberChat), ChatChannel, ChatAuthor);
    LeftJoinUnique(all, StatKey, members, StatKey);
  }

  /** The channels of `load_chat`'s rows are those of the sorted group-by. */
  lemma LoadChatChannels(chat: seq<ChatEvent>)
    ensures var all := SortedSizeNUnique(chat, ChatChannel, ChatAuthor);
      && |LoadChat(chat)| == |all|
      && forall i :: 0 <= i < |all| ==> LoadChat(chat)[i].channelId == all[i].key
  {
    LoadChatJoined(chat);
  }

  /** Each row of `load_chat` is its channel's statistics, and the channel
      has chats. */
  lemma LoadChatRow(chat: seq<ChatEvent>, i: nat)
    requires i < |LoadChat(chat)|
    ensures |Group(chat, ChatChannel, LoadChat(chat)[i].channelId)| > 0
    ensures LoadChat(chat)[i] == ChatStatOf(chat, LoadChat(chat)[i].channelId)
  {
    var all := SortedSizeNUnique(chat, ChatChannel, ChatAuthor);
    LoadChatJoined(chat);
    SortedSizeNUniqueRow(chat, ChatChannel, ChatAuthor, i);
    MemberStats(chat, all[i].key);
  }

  /** Every channel with chats has a row in `load_chat`. */
  lemma LoadChatCovers(chat: seq<ChatEvent>, ch: string)
    requires exists j :: 0 <= j < |chat| && chat[j].channelId == ch
    ensures exists i :: 0 <= i < |LoadChat(chat)| && LoadChat(chat)[i].channelId == ch
  {
    var j :| 0 <= j < |chat| && chat[j].channelId == ch;
    assert ChatChannel(chat[j]) in Keys(chat, ChatChannel);
    SortedSizeNUniqueCovers(chat, ChatChannel, ChatAuthor, ch);
    LoadChatChannels(chat);
  }

  /** The counts of a channel: at least one and at most `chats` distinct
      chatters, and the member counts bounded by the totals. */
  lemma ChatStatBounds(chat: seq<ChatEvent>, ch: string)
    ensures var r := ChatStatOf(chat, ch);
      && r.uniqueChatters <= r.chats
      && (r.chats > 0 ==> r.uniqueChatters >= 1)
      && (r.memberChats.Some? <==> r.uniqueMembers.Some?)
      && (r.memberChats.Some? ==>
            && 1 <= r.uniqueMembers.value <= r.memberChats.value <= r.chats
            && r.uniqueMembers.value <= r.uniqueChatters)
  {
    var g := Group(chat, ChatChannel, ch);
    var m := Filter(g, IsMemberChat);
    DistinctBounds(g, ChatAuthor);
    DistinctBounds(m, ChatAuthor);
    FilterBounds(g, IsMemberChat, ChatAuthor);
  }

  /** A channel has member counts exactly when one of its chats is a member
      chat, that is, one whose membership binMember classifies as True. */
  lemma ChatHasMembers(chat: seq<ChatEvent>, ch: string)
    ensures ChatStatOf(chat, ch).memberChats.Some? <==>
      exists i :: 0 <= i < |chat| && chat[i].channelId == ch && BinMember(chat[i].membership) == Flag(true)
  {
    var fm := Filter(chat, IsMemberChat);
    GroupFilter(chat, IsMemberChat, ChatChannel, ch);
    if exists i :: 0 <= i < |chat| && chat[i].channelId == ch && IsMemberChat(chat[i]) {
      var i :| 0 <= i < |chat| && chat[i].channelId == ch && IsMemberChat(chat[i]);
      FilterKeeps(chat, IsMemberChat, i);
      var j :| 0 <= j < |fm| && fm[j] == chat[i];
      assert ChatChannel(fm[j]) == ch;
    }
    if ChatStatOf(chat, ch).memberChats.Some? {
      var j :| 0 <= j < |fm| && ChatChannel(fm[j]) == ch;
      FilterMember(chat, IsMemberChat, j);
      var k :| 0 <= k < |chat| && chat[k] == fm[j];
      assert chat[k].channelId == ch && IsMemberChat(chat[k]);
    }
  }
}
