/** Values that flow through the pipeline: optional values, dataframe cells,
    and the two per-cell conversions the reducers apply (membership
    classification and body length). */
module Cells {

  datatype Option<+T> = None | Some(value: T)

  /** The outcome of a step that can raise: a value, or the error raised. */
  datatype Result<+T> = Ok(value: T) | Err(error: string)

  /** No element occurs twice. */
  predicate NoDuplicates<T(==)>(s: seq<T>)
  {
    forall i, j :: 0 <= i < j < |s| ==> s[i] != s[j]
  }

  /** A dataframe cell as the pipeline reads it from a partition file:
      a missing value (None/NaN), a string, an integer, a flag or a decimal. */
  datatype Cell = Missing | Text(s: string) | Int(i: int) | Flag(b: bool) | Decimal(d: real)

  /** binMember: the membership string "unknown" gives None, "non-member"
      gives False, and every other value (any tier label, in fact any cell)
      gives True. The classification is total and three-way. */
  function BinMember(x: Cell): (r: Cell)
    ensures r == Missing || r == Flag(false) || r == Flag(true)
    ensures r == Missing <==> x == Text("unknown")
    ensures r == Flag(false) <==> x == Text("non-member")
    ensures r == Flag(true) <==> x != Text("unknown") && x != Text("non-member")
  {
    if x == Text("unknown") then Missing
    else if x == Text("non-member") then Flag(false)
    else Flag(true)
  }

  /** `series.str.len().fillna(0)`: the character length of a string cell;
      a missing or non-string cell has no length and is filled with 0. */
  function StrLen(x: Cell): (n: nat)
  {
    if x.Text? then |x.s| else 0
  }

  /** The bodyLength cell derived from a body cell. */
  function BodyLengthOf(x: Cell): (r: Cell)
    ensures r.Int? && r.i >= 0
    ensures x.Text? ==> r == Int(|x.s|)
    ensures !x.Text? ==> r == Int(0)
  {
    Int(StrLen(x))
  }

  /** The value of an optional count after `fillna(0)`. */
  function OrZero(x: Option<nat>): (n: nat)
    ensures x.Some? ==> n == x.value
    ensures x.None? ==> n == 0
  {
    if x.Some? then x.value else 0
  }
}
