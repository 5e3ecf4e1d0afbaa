/** The record reducers that build the public datasets: each one reads a
    fixed column subset of a partition, anonymizes `authorChannelId`,
    classifies membership and replaces message bodies by their length. The
    pure functions state what a reduced table is; the methods build it by
    changing a `Frame` in place, step by step. The author identifier hash is
    the parameter `anon`. */
module Reducers {
  import opened Cells
  import opened Frames

  const ChatColumns: seq<Column> :=
    [Timestamp, Body, Membership, AuthorChannelId, VideoId, ChannelId]
  const ReducedChatColumns: seq<Column> :=
    [Timestamp, AuthorChannelId, VideoId, ChannelId, IsMember, BodyLength]

  const SuperchatColumns: seq<Column> :=
    [Timestamp, Amount, Currency, Significance, Body, AuthorChannelId, VideoId, ChannelId]
  /** Note the lower-case `bodylength`: the superchat reducer spells the new
      column differently from the chat reducer. */
  const ReducedSuperchatColumns: seq<Column> :=
    [Timestamp, Amount, Currency, Significance, AuthorChannelId, VideoId, ChannelId, Bodylength]

  const BanColumns: seq<Column> := [Timestamp, AuthorChannelId, VideoId, ChannelId]

  const DeletionColumns: seq<Column> := [Timestamp, Id, Retracted, VideoId, ChannelId]

  /** The chat reducer's column edits, in the order the source makes them,
      leave the reduced column layout. */
  lemma ChatColumnSteps()
    ensures NoDuplicates(ChatColumns)
    ensures WithColumn(ChatColumns, AuthorChannelId) == ChatColumns
    ensures Without(WithColumn(Without(WithColumn(ChatColumns, IsMember), Membership), BodyLength), Body)
         == ReducedChatColumns
  {
    ChatColumnsDistinct();
    MembershipEdit();
    BodyEdit();
  }

  /** The raw chat columns are distinct, so assigning the anonymized
      author column keeps the layout. */
  lemma ChatColumnsDistinct()
    ensures NoDuplicates(ChatColumns)
    ensures WithColumn(ChatColumns, AuthorChannelId) == ChatColumns
  {
  }

  /** Adding isMember and dropping membership. */
  lemma MembershipEdit()
    ensures Without(WithColumn(ChatColumns, IsMember), Membership)
         == [Timestamp, Body, AuthorChannelId, VideoId, ChannelId, IsMember]
  {
    var x1 := ChatColumns + [IsMember];
    assert x1 == [Timestamp, Body, Membership, AuthorChannelId, VideoId, ChannelId, IsMember];
    WithoutAt(x1, 2);
    assert x1[..2] + x1[3..] == [Timestamp, Body, AuthorChannelId, VideoId, ChannelId, IsMember];
  }

  /** Adding bodyLength and dropping body. */
  lemma BodyEdit()
    ensures Without(WithColumn([Timestamp, Body, AuthorChannelId, VideoId, ChannelId, IsMember], BodyLength), Body)
         == ReducedChatColumns
  {
    var x3 := [Timestamp, Body, AuthorChannelId, VideoId, ChannelId, IsMember, BodyLength];
    assert WithColumn([Timestamp, Body, AuthorChannelId, VideoId, ChannelId, IsMember], BodyLength) == x3;
    WithoutAt(x3, 1);
    assert x3[..1] + x3[2..] == ReducedChatColumns;
  }

  /** The superchat reducer's column edits leave the reduced layout. */
  lemma SuperchatColumnSteps()
    ensures NoDuplicates(SuperchatColumns)
    ensures WithColumn(SuperchatColumns, AuthorChannelId) == SuperchatColumns
    ensures Without(WithColumn(SuperchatColumns, Bodylength), Body) == ReducedSuperchatColumns
  {
    var x1 := SuperchatColumns + [Bodylength];
    assert x1 == [Timestamp, Amount, Currency, Significance, Body, AuthorChannelId, VideoId, ChannelId, Bodylength];
    WithoutAt(x1, 4);
    assert x1[..4] + x1[5..] == ReducedSuperchatColumns;
  }

  /** The reduced chat table (generate_reduced_chats): it exists exactly
      when the partition has every chat column and every author is a string
      (anonymizing anything else raises); it has the row count of the
      partition. */
  function ReducedChats(raw: Table, anon: string -> string): (r: Option<Table>)
    requires raw.Valid()
    ensures r.Some? <==> HasColumns(raw, ChatColumns) && AllText(raw.data[AuthorChannelId])
    ensures r.Some? ==> r.value.Valid() && r.value.rows == raw.rows
  {
    match Select(raw, ChatColumns)
    case None => None
    case Some(t0) =>
      match AnonymizeCells(anon, t0.data[AuthorChannelId])
      case None => None
      case Some(authors) =>
        var t1 := t0.Assign(AuthorChannelId, authors);
        var t2 := t1.Assign(IsMember, MapCells(BinMember, t1.data[Membership]));
        var t3 := t2.Drop(Membership);
        var t4 := t3.Assign(BodyLength, MapCells(BodyLengthOf, t3.data[Body]));
        Some(t4.Drop(Body))
  }

  /** A reduced chat table holds exactly the reduced chat columns: the
      author, timestamp, videoId and channelId, plus isMember and
      bodyLength; membership and body are gone. */
  lemma ReducedChatsColumns(raw: Table, anon: string -> string)
    requires raw.Valid() && ReducedChats(raw, anon).Some?
    ensures forall c :: c in ReducedChats(raw, anon).value.data <==> c in ReducedChatColumns
  {
  }

  /** Every column of a reduced chat table other than the three the reducer
      writes (timestamp, videoId, channelId) is the partition's own. */
  lemma ReducedChatsPassThrough(raw: Table, anon: string -> string)
    requires raw.Valid() && ReducedChats(raw, anon).Some?
    ensures var r := ReducedChats(raw, anon).value;
      forall c :: c in r.data && c != AuthorChannelId && c != IsMember && c != BodyLength ==> r.data[c] == raw.data[c]
  {
  }

  /** The columns the chat reducer writes: the hashed author, the
      membership class and the body length of every row. */
  lemma ReducedChatsDerived(raw: Table, anon: string -> string)
    requires raw.Valid() && ReducedChats(raw, anon).Some?
    ensures var r := ReducedChats(raw, anon).value;
      && Some(r.data[AuthorChannelId]) == AnonymizeCells(anon, raw.data[AuthorChannelId])
      && r.data[IsMember] == MapCells(BinMember, raw.data[Membership])
      && r.data[BodyLength] == MapCells(BodyLengthOf, raw.data[Body])
  {
  }

  /** The reduced superchat table (generate_reduced_superchats). */
  function ReducedSuperchats(raw: Table, anon: string -> string): (r: Option<Table>)
    requires raw.Valid()
    ensures r.Some? <==> HasColumns(raw, SuperchatColumns) && AllText(raw.data[AuthorChannelId])
    ensures r.Some? ==> r.value.Valid() && r.value.rows == raw.rows
  {
    match Select(raw, SuperchatColumns)
    case None => None
    case Some(t0) =>
      match AnonymizeCells(anon, t0.data[AuthorChannelId])
      case None => None
      case Some(authors) =>
        var t1 := t0.Assign(AuthorChannelId, authors);
        var t2 := t1.Assign(Bodylength, MapCells(BodyLengthOf, t1.data[Body]));
        Some(t2.Drop(Body))
  }

  /** A reduced superchat table holds exactly the reduced superchat
      columns. */
  lemma ReducedSuperchatsColumns(raw: Table, anon: string -> string)
    requires raw.Valid() && ReducedSuperchats(raw, anon).Some?
    ensures forall c :: c in ReducedSuperchats(raw, anon).value.data <==> c in ReducedSuperchatColumns
  {
  }

  /** Amount, currency, significance, timestamp, videoId and channelId of a
      reduced superchat table are the partition's own. */
  lemma ReducedSuperchatsPassThrough(raw: Table, anon: string -> string)
    requires raw.Valid() && ReducedSuperchats(raw, anon).Some?
    ensures var r := ReducedSuperchats(raw, anon).value;
      forall c :: c in r.data && c != AuthorChannelId && c != Bodylength ==> r.data[c] == raw.data[c]
  {
  }

  /** The columns the superchat reducer writes. */
  lemma ReducedSuperchatsDerived(raw: Table, anon: string -> string)
    requires raw.Valid() && ReducedSuperchats(raw, anon).Some?
    ensures var r := ReducedSuperchats(raw, anon).value;
      && Some(r.data[AuthorChannelId]) == AnonymizeCells(anon, raw.data[AuthorChannelId])
      && r.data[Bodylength] == MapCells(BodyLengthOf, raw.data[Body])
  {
  }

  /** The reduced ban table (generate_reduced_ban): only the author is
      hashed. */
  function ReducedBans(raw: Table, anon: string -> string): (r: Option<Table>)
    requires raw.Valid()
    ensures r.Some? <==> HasColumns(raw, BanColumns) && AllText(raw.data[AuthorChannelId])
    ensures r.Some? ==> r.value.Valid() && r.value.rows == raw.rows
    ensures r.Some? ==> forall c :: c in r.value.data <==> c in BanColumns
    ensures r.Some? ==> forall c :: c in r.value.data && c != AuthorChannelId ==> r.value.data[c] == raw.data[c]
    ensures r.Some? ==> Some(r.value.data[AuthorChannelId]) == AnonymizeCells(anon, raw.data[AuthorChannelId])
  {
    match Select(raw, BanColumns)
    case None => None
    case Some(t0) =>
      match AnonymizeCells(anon, t0.data[AuthorChannelId])
      case None => None
      case Some(authors) => Some(t0.Assign(AuthorChannelId, authors))
  }

  /** The reduced deletion table (generate_reduced_deletion): the selected
      columns pass through unchanged; deletion events carry no author. */
  function ReducedDeletions(raw: Table): (r: Option<Table>)
    requires raw.Valid()
    ensures r.Some? <==> HasColumns(raw, DeletionColumns)
    ensures r.Some? ==> r.value.Valid() && r.value.rows == raw.rows
    ensures r.Some? ==> forall c :: c in r.value.data <==> c in DeletionColumns
    ensures r.Some? ==> forall c :: c in r.value.data ==> r.value.data[c] == raw.data[c]
  {
    Select(raw, DeletionColumns)
  }

  /** generate_reduced_chats on one partition: the selected columns are
      loaded into a frame that is then changed in place; the frame ends with
      the reduced column layout. */
  method ReduceChats(raw: Table, anon: string -> string) returns (r: Option<Table>, columns: seq<Column>)
    requires raw.Valid()
    ensures r == ReducedChats(raw, anon)
    ensures r.Some? ==> columns == ReducedChatColumns
  {
    var selected := Select(raw, ChatColumns);
    if selected.None? {
      return None, [];
    }
    ChatColumnSteps();
    var df := new Frame(ChatColumns, selected.value);
    var authors := df.ApplyAnonymize(AuthorChannelId, anon);
    if authors.None? {
      return None, [];
    }
    df.Assign(AuthorChannelId, authors.value);
    var isMember := df.Apply(Membership, BinMember);
    df.Assign(IsMember, isMember);
    df.Drop(Membership);
    var bodyLength := df.Apply(Body, BodyLengthOf);
    df.Assign(BodyLength, bodyLength);
    df.Drop(Body);
    r, columns := Some(df.table), df.columns;
  }

  /** generate_reduced_superchats on one partition. */
  method ReduceSuperchats(raw: Table, anon: string -> string) returns (r: Option<Table>, columns: seq<Column>)
    requires raw.Valid()
    ensures r == ReducedSuperchats(raw, anon)
    ensures r.Some? ==> columns == ReducedSuperchatColumns
  {
    var selected := Select(raw, SuperchatColumns);
    if selected.None? {
      return None, [];
    }
    SuperchatColumnSteps();
    var df := new Frame(SuperchatColumns, selected.value);
    var authors := df.ApplyAnonymize(AuthorChannelId, anon);
    if authors.None? {
      return None, [];
    }
    df.Assign(AuthorChannelId, authors.value);
    var bodyLength := df.Apply(Body, BodyLengthOf);
    df.Assign(Bodylength, bodyLength);
    df.Drop(Body);
    r, columns := Some(df.table), df.columns;
  }

  /** generate_reduced_ban. */
  method ReduceBans(raw: Table, anon: string -> string) returns (r: Option<Table>, columns: seq<Column>)
    requires raw.Valid()
    ensures r == ReducedBans(raw, anon)
    ensures r.Some? ==> columns == BanColumns
  {
    var selected := Select(raw, BanColumns);
    if selected.None? {
      return None, [];
    }
    assert NoDuplicates(BanColumns);
    var df := new Frame(BanColumns, selected.value);
    var authors := df.ApplyAnonymize(AuthorChannelId, anon);
    if authors.None? {
      return None, [];
    }
    df.Assign(AuthorChannelId, authors.value);
    r, columns := Some(df.table), df.columns;
  }

  /** The loop of generate_reduced_chats over the sorted partitions: each
      partition is reduced and written in turn; the first partition that
      cannot be reduced raises, so the partitions after it are never
      written. */
  method GenerateReducedChats(partitions: seq<Table>, anon: string -> string) returns (written: seq<Table>)
    requires forall i :: 0 <= i < |partitions| ==> partitions[i].Valid()
    ensures |written| <= |partitions|
    ensures forall i :: 0 <= i < |written| ==> ReducedChats(partitions[i], anon) == Some(written[i])
    ensures |written| < |partitions| ==> ReducedChats(partitions[|written|], anon).None?
  {
    written := [];
    var i := 0;
    while i < |partitions|
      invariant 0 <= i <= |partitions| && |written| == i
      invariant forall k :: 0 <= k < i ==> ReducedChats(partitions[k], anon) == Some(written[k])
    {
      var reduced, _ := ReduceChats(partitions[i], anon);
      if reduced.None? {
        return;
      }
      written := written + [reduced.value];
      i := i + 1;
    }
  }

  /** The loop of generate_reduced_superchats over the sorted partitions. */
  method GenerateReducedSuperchats(partitions: seq<Table>, anon: string -> string) returns (written: seq<Table>)
    requires forall i :: 0 <= i < |partitions| ==> partitions[i].Valid()
    ensures |written| <= |partitions|
    ensures forall i :: 0 <= i < |written| ==> ReducedSuperchats(partitions[i], anon) == Some(written[i])
    ensures |written| < |partitions| ==> ReducedSuperchats(partitions[|written|], anon).None?
  {
    written := [];
    var i := 0;
    while i < |partitions|
      invariant 0 <= i <= |partitions| && |written| == i
      invariant forall k :: 0 <= k < i ==> ReducedSuperchats(partitions[k], anon) == Some(written[k])
    {
      var reduced, _ := ReduceSuperchats(partitions[i], anon);
      if reduced.None? {
        return;
      }
      written := written + [reduced.value];
      i := i + 1;
    }
  }
}
