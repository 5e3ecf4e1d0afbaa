/** Per-channel super chat statistics of one monthly partition
    (`load_superchat`): how many super chats and distinct senders, the
    length of their messages, and the most frequent currency and colour.
    The yen amounts come from a currency conversion that is not part of
    this model and enter as a parameter. */
module SuperchatStats {
  import opened Cells
  import opened GroupBy
  import opened Sorting

  /** The columns `load_superchat` reads from a super chat record; a
      missing currency or colour is `None`. */
  datatype SuperchatEvent = SuperchatEvent(
    amount: Cell, currency: Option<string>, authorChannelId: string,
    channelId: string, color: Option<string>, body: Cell)

  function ScChannel(e: SuperchatEvent): string
  {
    e.channelId
  }

  function ScAuthor(e: SuperchatEvent): string
  {
    e.authorChannelId
  }

  /** How often `v` occurs among `vs`. */
  function Count(vs: seq<Option<string>>, v: string): (n: nat)
    ensures n <= |vs|
    ensures n > 0 <==> exists j :: 0 <= j < |vs| && vs[j] == Some(v)
    decreases |vs|
  {
    if vs == [] then 0
    else
      assert forall j :: 0 <= j < |vs| - 1 ==> vs[..|vs| - 1][j] == vs[j];
      Count(vs[..|vs| - 1], v) + (if vs[|vs| - 1] == Some(v) then 1 else 0)
  }

  /** `v` is at least as good a mode as `w`: more frequent, or as frequent
      and not after it in string order. */
  predicate Beats(vs: seq<Option<string>>, v: string, w: string)
  {
    Count(vs, w) < Count(vs, v) || (Count(vs, w) == Count(vs, v) && StrLe(v, w))
  }

  /** `v` is what `Series.mode()[0]` picks: a present value, at least as
      frequent as every other, and the smallest of the most frequent
      values (pandas returns the modes sorted). */
  predicate IsModeOf(vs: seq<Option<string>>, v: string)
  {
    && (exists j :: 0 <= j < |vs| && vs[j] == Some(v))
    && forall j :: 0 <= j < |vs| && vs[j].Some? ==> Beats(vs, v, vs[j].value)
  }

  lemma {:induction false} StrLeRefl(a: string)
    ensures StrLe(a, a)
    decreases |a|
  {
    if a != [] {
      StrLeRefl(a[1..]);
    }
  }

  lemma BeatsTrans(vs: seq<Option<string>>, u: string, v: string, w: string)
    requires Beats(vs, u, v) && Beats(vs, v, w)
    ensures Beats(vs, u, w)
  {
    if Count(vs, u) == Count(vs, v) == Count(vs, w) {
      StrLeTrans(u, v, w);
    }
  }

  /** The mode scan over the first `n` values: a later value replaces the
      current best when it beats it. */
  function ModeOfFirst(vs: seq<Option<string>>, n: nat): (r: Option<string>)
    requires n <= |vs|
    ensures r.None? <==> forall j :: 0 <= j < n ==> vs[j].None?
    ensures r.Some? ==> exists j :: 0 <= j < n && vs[j] == Some(r.value)
    ensures r.Some? ==> forall j :: 0 <= j < n && vs[j].Some? ==> Beats(vs, r.value, vs[j].value)
    decreases n
  {
    if n == 0 then None
    else
      var m := ModeOfFirst(vs, n - 1);
      match vs[n - 1]
      case None => m
      case Some(c) =>
        StrLeRefl(c);
        if m.None? then Some(c)
        else if Beats(vs, c, m.value) then
          assert forall j :: 0 <= j < n - 1 && vs[j].Some? ==> Beats(vs, c, vs[j].value) by {
            forall j | 0 <= j < n - 1 && vs[j].Some? ensures Beats(vs, c, vs[j].value) {
              BeatsTrans(vs, c, m.value, vs[j].value);
            }
          }
          Some(c)
        else
          StrLeTotal(c, m.value);
          m
  }

  /** The mode of a column's values, or `None` when every value is missing
      (the intended reading of the mode helper). */
  function Mode(vs: seq<Option<string>>): (r: Option<string>)
    ensures r.None? <==> forall j :: 0 <= j < |vs| ==> vs[j].None?
    ensures r.Some? ==> IsModeOf(vs, r.value)
  {
    ModeOfFirst(vs, |vs|)
  }

  /** The mode is exactly the value `IsModeOf` describes: no other value
      satisfies it. */
  lemma ModeCharacterized(vs: seq<Option<string>>, v: string)
    ensures Mode(vs) == Some(v) <==> IsModeOf(vs, v)
  {
    var m := Mode(vs);
    if IsModeOf(vs, v) {
      var j :| 0 <= j < |vs| && vs[j] == Some(v);
      assert m.Some?;
      var k :| 0 <= k < |vs| && vs[k] == Some(m.value);
      assert Beats(vs, m.value, v) && Beats(vs, v, m.value);
      StrLeAntisym(m.value, v);
    }
  }

  /** The mode helper as written: `x.mode()[0] if len(x) > 0 else None`.
      A group is never empty, so the guard never yields `None`; when every
      value of the group is missing, `mode()` is empty and indexing it
      raises. */
  function ModeAsWritten(vs: seq<Option<string>>): (r: Result<Option<string>>)
    ensures r.Err? <==> |vs| > 0 && forall j :: 0 <= j < |vs| ==> vs[j].None?
    ensures r.Ok? ==> r.value == Mode(vs)
  {
    if |vs| > 0 then
      if Mode(vs).None? then Err("mode() is empty: index 0 out of range")
      else Ok(Mode(vs))
    else Ok(None)
  }

  /** A one-record group without a currency: the helper as written raises,
      the intended mode is `None`. */
  lemma ModeAsWrittenRaises()
    ensures ModeAsWritten([None]).Err?
    ensures Mode([None]) == None
  {
  }

  function Currencies(g: seq<SuperchatEvent>): seq<Option<string>>
  {
    seq(|g|, i requires 0 <= i < |g| => g[i].currency)
  }

  function Colors(g: seq<SuperchatEvent>): seq<Option<string>>
  {
    seq(|g|, i requires 0 <= i < |g| => g[i].color)
  }

  /** `bodyLength.sum()`: the lengths of the string bodies; a missing
      body has no length and is skipped. */
  function TotalLength(g: seq<SuperchatEvent>): nat
    decreases |g|
  {
    if g == [] then 0 else TotalLength(g[..|g| - 1]) + StrLen(g[|g| - 1].body)
  }

  /** How many bodies have a length. */
  function TextBodies(g: seq<SuperchatEvent>): (n: nat)
    ensures n <= |g|
    decreases |g|
  {
    if g == [] then 0 else TextBodies(g[..|g| - 1]) + (if g[|g| - 1].body.Text? then 1 else 0)
  }

  /** A total over no string body is 0. */
  lemma {:induction false} TotalLengthWithoutText(g: seq<SuperchatEvent>)
    requires TextBodies(g) == 0
    ensures TotalLength(g) == 0
    decreases |g|
  {
    if g != [] {
      TotalLengthWithoutText(g[..|g| - 1]);
    }
  }

  /** `bodyLength.mean()` after `fillna(0).astype('int')`: the mean over
      the bodies that have a length, truncated, and 0 when none has. */
  function AverageLength(g: seq<SuperchatEvent>): (avg: nat)
    ensures TextBodies(g) > 0 ==> avg * TextBodies(g) <= TotalLength(g) < (avg + 1) * TextBodies(g)
    ensures TextBodies(g) == 0 ==> avg == 0
  {
    if TextBodies(g) > 0 then TotalLength(g) / TextBodies(g) else 0
  }

  /** A row of the partition's super chat statistics. */
  datatype SuperchatStat = SuperchatStat(
    channelId: string, superChats: nat, uniqueSuperChatters: nat,
    totalSC: int, averageSC: int, totalMessageLength: nat, averageMessageLength: nat,
    mostFrequentCurrency: Option<string>, mostFrequentColor: Option<string>)

  /** The statistics of channel `ch` read straight off its records.
      `money` gives the yen total and truncated yen mean of a group. */
  function SuperchatStatOf(sc: seq<SuperchatEvent>, money: seq<SuperchatEvent> -> (int, int), ch: string): SuperchatStat
  {
    var g := Group(sc, ScChannel, ch);
    SuperchatStat(ch, |g|, |Distinct(g, ScAuthor)|, money(g).0, money(g).1,
      TotalLength(g), AverageLength(g), Mode(Currencies(g)), Mode(Colors(g)))
  }

  /** `load_superchat`: the group-by on channel with `sort=False`, so one row
      per channel in order of first appearance; size and nunique come from
      the tally, the other aggregates from the channel's records. Each row
      is its channel's statistics. */
  function LoadSuperchat(sc: seq<SuperchatEvent>, money: seq<SuperchatEvent> -> (int, int)): (rows: seq<SuperchatStat>)
    ensures |rows| == |Keys(sc, ScChannel)|
    ensures forall i :: 0 <= i < |rows| ==> rows[i] == SuperchatStatOf(sc, money, Keys(sc, ScChannel)[i])
  {
    var stats := SizeNUnique(sc, ScChannel, ScAuthor);
    SizeNUniqueGroups(sc, ScChannel, ScAuthor);
    seq(|stats|, i requires 0 <= i < |stats| =>
      var g := Group(sc, ScChannel, stats[i].key);
      SuperchatStat(stats[i].key, stats[i].size, stats[i].nunique, money(g).0, money(g).1,
        TotalLength(g), AverageLength(g), Mode(Currencies(g)), Mode(Colors(g))))
  }

  /** A channel with super chats has between one and `superChats` distinct
      senders. */
  lemma SuperchatSenders(sc: seq<SuperchatEvent>, money: seq<SuperchatEvent> -> (int, int), ch: string)
    requires exists i :: 0 <= i < |sc| && sc[i].channelId == ch
    ensures 1 <= SuperchatStatOf(sc, money, ch).uniqueSuperChatters <= SuperchatStatOf(sc, money, ch).superChats
  {
    DistinctBounds(Group(sc, ScChannel, ch), ScAuthor);
  }

  /** No super chat of channel `ch` has a currency. */
  predicate NoCurrency(sc: seq<SuperchatEvent>, ch: string)
  {
    forall j :: 0 <= j < |sc| && sc[j].channelId == ch ==> sc[j].currency.None?
  }

  /** No super chat of channel `ch` has a colour. */
  predicate NoColor(sc: seq<SuperchatEvent>, ch: string)
  {
    forall j :: 0 <= j < |sc| && sc[j].channelId == ch ==> sc[j].color.None?
  }

  /** The mode helper as written fails on the group of a channel that
      occurs exactly when none of its super chats has a currency (or a
      colour). */
  lemma GroupModeFails(sc: seq<SuperchatEvent>, ch: string)
    requires exists j :: 0 <= j < |sc| && sc[j].channelId == ch
    ensures ModeAsWritten(Currencies(Group(sc, ScChannel, ch))).Err? <==> NoCurrency(sc, ch)
    ensures ModeAsWritten(Colors(Group(sc, ScChannel, ch))).Err? <==> NoColor(sc, ch)
  {
    var g := Group(sc, ScChannel, ch);
    assert |g| > 0;
    GroupNoCurrency(sc, ch);
    GroupNoColor(sc, ch);
  }

  lemma GroupNoCurrency(sc: seq<SuperchatEvent>, ch: string)
    ensures (forall i :: 0 <= i < |Currencies(Group(sc, ScChannel, ch))| ==> Currencies(Group(sc, ScChannel, ch))[i].None?)
      <==> NoCurrency(sc, ch)
  {
    var g := Group(sc, ScChannel, ch);
    GroupAll(sc, ScChannel, ch, (e: SuperchatEvent) => e.currency.None?);
    assert forall i :: 0 <= i < |g| ==> Currencies(g)[i] == g[i].currency;
  }

  lemma GroupNoColor(sc: seq<SuperchatEvent>, ch: string)
    ensures (forall i :: 0 <= i < |Colors(Group(sc, ScChannel, ch))| ==> Colors(Group(sc, ScChannel, ch))[i].None?)
      <==> NoColor(sc, ch)
  {
    var g := Group(sc, ScChannel, ch);
    GroupAll(sc, ScChannel, ch, (e: SuperchatEvent) => e.color.None?);
    assert forall i :: 0 <= i < |g| ==> Colors(g)[i] == g[i].color;
  }

  /** The mode helper as written raises on channel `ch`'s currencies or
      colours. */
  predicate ModeFails(sc: seq<SuperchatEvent>, ch: string)
  {
    ModeAsWritten(Currencies(Group(sc, ScChannel, ch))).Err? || ModeAsWritten(Colors(Group(sc, ScChannel, ch))).Err?
  }

  /** Some channel's mode fails exactly when some channel has no currency
      or no colour on any of its super chats. */
  lemma SomeModeFails(sc: seq<SuperchatEvent>)
    ensures (exists i :: 0 <= i < |Keys(sc, ScChannel)| && ModeFails(sc, Keys(sc, ScChannel)[i])) <==>
      exists j :: 0 <= j < |sc| && (NoCurrency(sc, sc[j].channelId) || NoColor(sc, sc[j].channelId))
  {
    var ks := Keys(sc, ScChannel);
    if i :| 0 <= i < |ks| && ModeFails(sc, ks[i]) {
      var j := KeyFails(sc, ks[i]);
    }
    if j :| 0 <= j < |sc| && (NoCurrency(sc, sc[j].channelId) || NoColor(sc, sc[j].channelId)) {
      var i := RecordFails(sc, j);
    }
  }

  /** A channel whose mode fails has a record, and that record's channel
      lacks every currency or every colour. */
  lemma KeyFails(sc: seq<SuperchatEvent>, ch: string) returns (j: nat)
    requires ch in Keys(sc, ScChannel) && ModeFails(sc, ch)
    ensures j < |sc| && sc[j].channelId == ch && (NoCurrency(sc, ch) || NoColor(sc, ch))
  {
    j :| 0 <= j < |sc| && ScChannel(sc[j]) == ch;
    GroupModeFails(sc, ch);
  }

  /** A record whose channel lacks every currency or every colour gives a
      key whose mode fails. */
  lemma RecordFails(sc: seq<SuperchatEvent>, j: nat) returns (i: nat)
    requires j < |sc| && (NoCurrency(sc, sc[j].channelId) || NoColor(sc, sc[j].channelId))
    ensures i < |Keys(sc, ScChannel)| && ModeFails(sc, Keys(sc, ScChannel)[i])
  {
    var ks := Keys(sc, ScChannel);
    assert ScChannel(sc[j]) in ks;
    i :| 0 <= i < |ks| && ks[i] == sc[j].channelId;
    GroupModeFails(sc, ks[i]);
  }

  /** `load_superchat` as written: the aggregation raises when the mode
      helper raises for any channel, that is, when some channel has no
      currency or no colour on any of its super chats; otherwise it gives
      the intended statistics. */
  function LoadSuperchatAsWritten(sc: seq<SuperchatEvent>, money: seq<SuperchatEvent> -> (int, int)): (r: Result<seq<SuperchatStat>>)
    ensures r.Err? <==> exists j :: 0 <= j < |sc| && (NoCurrency(sc, sc[j].channelId) || NoColor(sc, sc[j].channelId))
    ensures r.Ok? ==> r.value == LoadSuperchat(sc, money)
  {
    var ks := Keys(sc, ScChannel);
    SomeModeFails(sc);
    if exists i :: 0 <= i < |ks| && ModeFails(sc, ks[i])
    then Err("mode() is empty: index 0 out of range")
    else Ok(LoadSuperchat(sc, money))
  }

  /** A partition where one channel's only super chat has a currency but
      no colour: as written the statistics raise; the intended statistics
      give that channel no most frequent colour. */
  lemma LoadSuperchatAsWrittenRaises(money: seq<SuperchatEvent> -> (int, int))
    ensures var sc := [SuperchatEvent(Decimal(1.0), Some("JPY"), "a", "c", None, Text("hi"))];
      && LoadSuperchatAsWritten(sc, money).Err?
      && LoadSuperchat(sc, money)[0].mostFrequentColor == None
  {
    var e := SuperchatEvent(Decimal(1.0), Some("JPY"), "a", "c", None, Text("hi"));
    var sc := [e];
    assert sc[..0] == [];
    assert Keys(sc, ScChannel) == ["c"];
    assert Group(sc, ScChannel, "c") == [e];
    assert Colors([e]) == [None];
    assert NoColor(sc, sc[0].channelId);
    assert LoadSuperchat(sc, money)[0] == SuperchatStatOf(sc, money, "c");
    assert Mode(Colors(Group(sc, ScChannel, "c"))) == None;
  }
}
