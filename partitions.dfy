/** Monthly partition files: `chats_<period>.parquet` and
    `superchats_<period>.parquet`. The statistics loops take the period of
    each matched file from its base name and read the partition back from
    the path rebuilt from that period. */
module Partitions {
  import opened Cells
  import opened Strings

  /** The position of the last '.' in `s`, if any. */
  function LastDot(s: string): (r: Option<nat>)
    ensures r.Some? ==> r.value < |s| && s[r.value] == '.' && '.' !in s[r.value + 1..]
    ensures r.None? ==> '.' !in s
    decreases |s|
  {
    if s == [] then None
    else if s[|s| - 1] == '.' then Some(|s| - 1)
    else
      var r := LastDot(s[..|s| - 1]);
      assert r.Some? ==> s[r.value + 1..] == s[..|s| - 1][r.value + 1..] + [s[|s| - 1]];
      assert r.None? ==> s == s[..|s| - 1] + [s[|s| - 1]];
      r
  }

  /** `splitext(name)[0]` for a base name: everything before the last '.',
      unless only dots precede it (a leading-dot name has no extension). */
  function SplitextRoot(name: string): (root: string)
    ensures root == name || (LastDot(name).Some? && root == name[..LastDot(name).value])
  {
    var d := LastDot(name);
    if d.Some? && exists i :: 0 <= i < d.value && name[i] != '.' then name[..d.value]
    else name
  }

  /** The period of a partition file: `splitext(name)[0].split('_')[1]`,
      which raises when the root holds no '_'. */
  function PeriodOf(name: string): (r: Result<string>)
    ensures r.Ok? ==> '_' !in r.value
  {
    var fields := Split(SplitextRoot(name), '_');
    if |fields| >= 2 then Ok(fields[1]) else Err("IndexError: list index out of range")
  }

  /** The file a period is read back from: `<prefix>_<period>.parquet`. */
  function PartitionName(prefix: string, period: string): string
  {
    prefix + "_" + period + ".parquet"
  }

  lemma {:induction false} LastDotAfter(a: string, b: string)
    requires '.' !in b
    ensures LastDot(a + b) == LastDot(a)
    decreases |b|
  {
    if b != [] {
      var b' := b[..|b| - 1];
      assert (a + b)[..|a + b| - 1] == a + b';
      LastDotAfter(a, b');
    } else {
      assert a + b == a;
    }
  }

  /** The root of a partition name is the prefix and the period. */
  lemma PartitionRoot(prefix: string, period: string)
    requires prefix != [] && prefix[0] != '.'
    ensures SplitextRoot(PartitionName(prefix, period)) == prefix + "_" + period
  {
    var stem := prefix + "_" + period;
    assert PartitionName(prefix, period) == (stem + ".") + "parquet";
    LastDotAfter(stem + ".", "parquet");
    assert LastDot(stem + ".") == Some(|stem|);
    assert (stem + ".")[0] == prefix[0];
    assert ((stem + ".") + "parquet")[..|stem|] == stem;
  }

  /** For a period without '_' and a prefix without '_', the period read
      off the partition name is that period, so the path rebuilt from it
      is the partition itself. */
  lemma PeriodRoundTrip(prefix: string, period: string)
    requires prefix != [] && prefix[0] != '.' && '_' !in prefix && '_' !in period
    ensures PeriodOf(PartitionName(prefix, period)) == Ok(period)
    ensures PartitionName(prefix, PeriodOf(PartitionName(prefix, period)).value) == PartitionName(prefix, period)
  {
    PartitionRoot(prefix, period);
    SplitAtSeparator(prefix, period, '_');
    SplitNoSeparator(period, '_');
  }

  /** A name whose period part holds a further '_' yields only the text up
      to it, so the partition is read back from a different file. */
  lemma PeriodStopsAtUnderscore(prefix: string, period: string, rest: string)
    requires prefix != [] && prefix[0] != '.' && '_' !in prefix && '_' !in period
    ensures PeriodOf(PartitionName(prefix, period + "_" + rest)) == Ok(period)
    ensures PartitionName(prefix, period) != PartitionName(prefix, period + "_" + rest)
  {
    PartitionRoot(prefix, period + "_" + rest);
    assert prefix + "_" + (period + "_" + rest) == prefix + ['_'] + (period + ['_'] + rest);
    SplitAtSeparator(prefix, period + ['_'] + rest, '_');
    SplitAtSeparator(period, rest, '_');
    assert |PartitionName(prefix, period)| < |PartitionName(prefix, period + "_" + rest)|;
  }

  /** A name without '_' in its root has no period. */
  lemma PeriodMissing(name: string)
    requires '_' !in name
    ensures PeriodOf(name).Err?
  {
    var root := SplitextRoot(name);
    assert forall i :: 0 <= i < |root| ==> root[i] in name;
    SplitNoSeparator(root, '_');
  }
}
