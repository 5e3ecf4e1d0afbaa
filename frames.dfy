/** A columnar model of the dataframes the reducers work on: a table value
    (one column of cells per column name, a row count) and a `Frame` object
    holding a table and its column order, whose methods change it in place
    the way pandas column assignment, `apply` and `drop(..., inplace=True)`
    do. */
module Frames {
  import opened Cells

  /** The column names the partition files hold; `Other` stands for any
      column the reducers never read. */
  datatype Column =
    | Timestamp | AuthorName | Body | Membership | IsModerator | IsVerified | IsOwner | Id
    | AuthorChannelId | VideoId | ChannelId | Amount | Currency | Color | Significance | Retracted
    | IsMember | BodyLength | Bodylength | Other(name: string)
  {
    /** The column's name as it appears in the files. */
    function Name(): string
    {
      match this
      case Timestamp => "timestamp"
      case AuthorName => "authorName"
      case Body => "body"
      case Membership => "membership"
      case IsModerator => "isModerator"
      case IsVerified => "isVerified"
      case IsOwner => "isOwner"
      case Id => "id"
      case AuthorChannelId => "authorChannelId"
      case VideoId => "videoId"
      case ChannelId => "channelId"
      case Amount => "amount"
      case Currency => "currency"
      case Color => "color"
      case Significance => "significance"
      case Retracted => "retracted"
      case IsMember => "isMember"
      case BodyLength => "bodyLength"
      case Bodylength => "bodylength"
      case Other(name) => name
    }
  }

  /** The column list after dropping `name`; the other columns keep their order. */
  function Without(cols: seq<Column>, name: Column): seq<Column>
  {
    WithoutFirst(cols, name, |cols|)
  }

  /** The first `n` columns of `cols`, less `name`. */
  function WithoutFirst(cols: seq<Column>, name: Column, n: nat): seq<Column>
    requires n <= |cols|
  {
    if n == 0 then []
    else WithoutFirst(cols, name, n - 1) + (if cols[n - 1] == name then [] else [cols[n - 1]])
  }

  /** Dropping a column removes exactly that column and keeps the others distinct. */
  lemma WithoutContents(cols: seq<Column>, name: Column)
    ensures forall c :: c in Without(cols, name) <==> c in cols && c != name
    ensures NoDuplicates(cols) ==> NoDuplicates(Without(cols, name))
  {
    WithoutFirstContents(cols, name, |cols|);
  }

  lemma {:induction false} WithoutFirstContents(cols: seq<Column>, name: Column, n: nat)
    requires n <= |cols|
    ensures forall c :: c in WithoutFirst(cols, name, n) <==> c in cols[..n] && c != name
    ensures NoDuplicates(cols) ==> NoDuplicates(WithoutFirst(cols, name, n))
  {
    if n > 0 {
      WithoutFirstContents(cols, name, n - 1);
      assert cols[..n] == cols[..n - 1] + [cols[n - 1]];
      if NoDuplicates(cols) {
        assert cols[n - 1] !in cols[..n - 1];
      }
    }
  }

  /** Dropping the column at position `k` closes the gap it leaves. */
  lemma WithoutAt(cols: seq<Column>, k: nat)
    requires k < |cols| && NoDuplicates(cols)
    ensures Without(cols, cols[k]) == cols[..k] + cols[k + 1..]
  {
    WithoutFirstAt(cols, k, |cols|);
    assert cols[..|cols|] == cols;
  }

  lemma {:induction false} WithoutFirstAt(cols: seq<Column>, k: nat, n: nat)
    requires k < |cols| && n <= |cols| && NoDuplicates(cols)
    ensures WithoutFirst(cols, cols[k], n) == if n <= k then cols[..n] else cols[..k] + cols[k + 1..n]
  {
    if n > 0 {
      WithoutFirstAt(cols, k, n - 1);
      if n - 1 < k {
        assert cols[..n] == cols[..n - 1] + [cols[n - 1]];
      } else if n - 1 > k {
        assert cols[k + 1..n] == cols[k + 1..n - 1] + [cols[n - 1]];
      }
    }
  }

  /** A dataframe's contents: one column of cells per column name, every
      column one cell per row. The order of the columns is kept by the
      `Frame` that holds the table. */
  datatype Table = Table(data: map<Column, seq<Cell>>, rows: nat)
  {
    ghost predicate Valid()
    {
      forall c :: c in data ==> |data[c]| == rows
    }

    /** `df[name] = values`. */
    function Assign(name: Column, values: seq<Cell>): Table
    {
      Table(data[name := values], rows)
    }

    /** `df.drop(columns=[name])`. */
    function Drop(name: Column): Table
    {
      Table(data - {name}, rows)
    }
  }

  predicate HasColumns(t: Table, cols: seq<Column>)
  {
    forall c :: c in cols ==> c in t.data
  }

  /** `read_parquet(path, columns=cols)`: the listed columns; reading fails
      when the file lacks one of them. */
  function Select(t: Table, cols: seq<Column>): (r: Option<Table>)
    requires t.Valid()
    ensures r.Some? <==> HasColumns(t, cols)
    ensures r.Some? ==> r.value.Valid() && r.value.rows == t.rows
    ensures r.Some? ==> forall c :: c in r.value.data <==> c in cols
    ensures r.Some? ==> forall c :: c in cols ==> r.value.data[c] == t.data[c]
  {
    if HasColumns(t, cols) then Some(Table(map c | c in cols :: t.data[c], t.rows))
    else None
  }

  /** `column.apply(f)` for a total per-cell function. */
  function MapCells(f: Cell -> Cell, col: seq<Cell>): seq<Cell>
  {
    seq(|col|, i requires 0 <= i < |col| => f(col[i]))
  }

  predicate AllText(col: seq<Cell>)
  {
    forall i :: 0 <= i < |col| ==> col[i].Text?
  }

  /** `column.apply(anonymize)`: anonymizing concatenates the cell with the
      salt, which raises on a cell that is not a string. */
  function AnonymizeCells(anon: string -> string, col: seq<Cell>): (r: Option<seq<Cell>>)
  {
    if AllText(col) then Some(seq(|col|, i requires 0 <= i < |col| => Text(anon(col[i].s))))
    else None
  }

  /** The column list after `df[name] = ...`: a new column goes last. */
  function WithColumn(cols: seq<Column>, name: Column): seq<Column>
  {
    if name in cols then cols else cols + [name]
  }

  /** A dataframe object that the reducers change in place: its column
      order and its contents. */
  class Frame {
    var columns: seq<Column>
    var table: Table

    ghost predicate Valid()
      reads this
    {
      && NoDuplicates(columns)
      && (forall c :: c in columns <==> c in table.data)
      && table.Valid()
    }

    constructor (cols: seq<Column>, t: Table)
      requires NoDuplicates(cols) && t.Valid() && forall c :: c in cols <==> c in t.data
      ensures Valid() && columns == cols && table == t
    {
      columns, table := cols, t;
    }

    /** `df[name].apply(f)`, cell by cell. */
    method Apply(name: Column, f: Cell -> Cell) returns (out: seq<Cell>)
      requires Valid() && name in table.data
      ensures out == MapCells(f, table.data[name])
    {
      var col := table.data[name];
      out := [];
      var i := 0;
      while i < |col|
        invariant 0 <= i <= |col|
        invariant |out| == i
        invariant forall k :: 0 <= k < i ==> out[k] == f(col[k])
      {
        out := out + [f(col[i])];
        i := i + 1;
      }
    }

    /** `df[name].apply(anonymize)`, cell by cell; the first cell that is not
        a string raises, and then no column is produced. */
    method ApplyAnonymize(name: Column, anon: string -> string) returns (out: Option<seq<Cell>>)
      requires Valid() && name in table.data
      ensures out == AnonymizeCells(anon, table.data[name])
    {
      var col := table.data[name];
      var acc := [];
      var i := 0;
      while i < |col|
        invariant 0 <= i <= |col|
        invariant |acc| == i
        invariant forall k :: 0 <= k < i ==> col[k].Text? && acc[k] == Text(anon(col[k].s))
      {
        if !col[i].Text? {
          assert !AllText(col);
          return None;
        }
        acc := acc + [Text(anon(col[i].s))];
        i := i + 1;
      }
      assert AllText(col);
      assert acc == seq(|col|, k requires 0 <= k < |col| => Text(anon(col[k].s)));
      out := Some(acc);
    }

    /** `df[name] = values`. */
    method Assign(name: Column, values: seq<Cell>)
      requires Valid() && |values| == table.rows
      modifies this
      ensures Valid()
      ensures columns == WithColumn(old(columns), name)
      ensures table == old(table).Assign(name, values)
    {
      if name !in columns {
        columns := columns + [name];
      }
      table := table.Assign(name, values);
    }

    /** `df.drop(columns=[name], inplace=True)`. */
    method Drop(name: Column)
      requires Valid() && name in columns
      modifies this
      ensures Valid()
      ensures columns == Without(old(columns), name)
      ensures table == old(table).Drop(name)
    {
      WithoutContents(columns, name);
      columns := Without(columns, name);
      table := table.Drop(name);
    }
  }
}
