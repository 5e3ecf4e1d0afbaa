/** The moderation statistics: for every channel and month, how many
    distinct chatters were banned and how many distinct chat messages were
    deleted (deletions that were later retracted do not count). */
module Moderation {
  import opened Cells
  import opened GroupBy

  /** A ban event; `period` is the month of its timestamp, formatted
      `YYYY-MM`. */
  datatype BanEvent = BanEvent(channelId: string, period: string, authorChannelId: string)

  /** A deletion event; `retracted` is 0 for a deletion that stood. */
  datatype DeletionEvent = DeletionEvent(channelId: string, period: string, id: string, retracted: int)

  /** The key of the statistics rows: (channelId, period). */
  type Key = (string, string)

  function BanKey(e: BanEvent): Key
  {
    (e.channelId, e.period)
  }

  function BanAuthor(e: BanEvent): string
  {
    e.authorChannelId
  }

  function DeletionKey(e: DeletionEvent): Key
  {
    (e.channelId, e.period)
  }

  function DeletionId(e: DeletionEvent): string
  {
    e.id
  }

  /** `query('retracted == 0')`. */
  predicate Standing(e: DeletionEvent)
  {
    e.retracted == 0
  }

  /** The ban table: (key, bannedChatters) rows, one per (channel, month)
      with bans, in order of first appearance, no key twice, each with at
      least one banned author. */
  function BanStats(bans: seq<BanEvent>): (rows: seq<(Key, nat)>)
    ensures |rows| == |Keys(bans, BanKey)|
    ensures forall i :: 0 <= i < |rows| ==> rows[i].0 == Keys(bans, BanKey)[i] && rows[i].1 >= 1
    ensures UniqueKeys(rows, PairKey)
  {
    NUnique(bans, BanKey, BanAuthor)
  }

  /** The deletion table: (key, deletedChats) rows over standing deletions;
      no key twice, and every key has a standing deletion. */
  function DeletionStats(deletions: seq<DeletionEvent>): (rows: seq<(Key, nat)>)
    ensures UniqueKeys(rows, PairKey)
    ensures forall i :: 0 <= i < |rows| ==>
      (rows[i].1 >= 1 && exists j :: 0 <= j < |deletions| && DeletionKey(deletions[j]) == rows[i].0 && Standing(deletions[j]))
  {
    var standing := Filter(deletions, Standing);
    var ks := Keys(standing, DeletionKey);
    var rows := NUnique(standing, DeletionKey, DeletionId);
    StandingKeys(deletions);
    assert forall i :: 0 <= i < |rows| ==> rows[i].0 == ks[i] && ks[i] in ks;
    rows
  }

  /** Every key among the standing deletions is the key of a standing
      deletion. */
  lemma StandingKeys(deletions: seq<DeletionEvent>)
    ensures forall k :: k in Keys(Filter(deletions, Standing), DeletionKey) ==>
      exists j :: 0 <= j < |deletions| && DeletionKey(deletions[j]) == k && Standing(deletions[j])
  {
    var standing := Filter(deletions, Standing);
    forall k | k in Keys(standing, DeletionKey)
      ensures exists j :: 0 <= j < |deletions| && DeletionKey(deletions[j]) == k && Standing(deletions[j])
    {
      var q :| 0 <= q < |standing| && DeletionKey(standing[q]) == k;
      FilterMember(deletions, Standing, q);
    }
  }

  /** `bannedChatters` of a (channel, month) is the number of distinct
      banned authors with that key; a key without bans has no row. */
  lemma BannedChatters(bans: seq<BanEvent>, k: Key)
    ensures First(BanStats(bans), PairKey, k) ==
      if |Group(bans, BanKey, k)| > 0 then Some((k, |Distinct(Group(bans, BanKey, k), BanAuthor)|)) else None
  {
    NUniqueGroups(bans, BanKey, BanAuthor, k);
  }

  /** `deletedChats` of a (channel, month) is the number of distinct ids
      among its standing deletions; a key with only retracted deletions
      has no row. */
  lemma DeletedChats(deletions: seq<DeletionEvent>, k: Key)
    ensures var standing := Filter(Group(deletions, DeletionKey, k), Standing);
      First(DeletionStats(deletions), PairKey, k) ==
        if |standing| > 0 then Some((k, |Distinct(standing, DeletionId)|)) else None
  {
    NUniqueGroups(Filter(deletions, Standing), DeletionKey, DeletionId, k);
    GroupFilter(deletions, Standing, DeletionKey, k);
  }

  /** A retracted deletion changes nothing. */
  lemma RetractedIgnored(deletions: seq<DeletionEvent>, e: DeletionEvent)
    requires e.retracted != 0
    ensures DeletionStats(deletions + [e]) == DeletionStats(deletions)
  {
    assert (deletions + [e])[..|deletions|] == deletions;
    var f := Filter(deletions, Standing);
    assert Filter(deletions + [e], Standing) == f + [];
    assert f + [] == f;
  }
}
