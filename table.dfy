/** `Table`: the grid of a matrix question's answers, stored as one list per
    row. Subscripts are bounds-checked; `t[i]` and `row(i)` hand out the
    stored row itself, so writes through it change the table. */
module Tables {
  import opened Wrappers

  datatype TableError = IndexError | TypeError

  /** The subscripts `t[r, c]`, `t[i]`, and any other key. */
  datatype Index = Pair(r: int, c: int) | Single(i: int) | OtherIndex

  /** What `t[...]` returns: a cell, or a whole stored row. */
  datatype Got<T> = Cell(value: T) | WholeRow(row: array<T>)

  /** `range(n)` has no elements for a negative `n`. */
  function Clamp(n: int): nat {
    if n < 0 then 0 else n
  }

  /** The argument of `==`: another table or something else. */
  datatype Other<T> = ATable(t: Table<T>) | NotATable

  class Table<T(==)> {
    var data: seq<array<T>>
    var rows: int
    var cols: int
    var defaultValue: T

    /** One stored row per row index, each of `cols` cells, no two rows the
        same list. */
    ghost predicate Valid()
      reads this, data
    {
      |data| == Clamp(rows) &&
      (forall i :: 0 <= i < |data| ==> data[i].Length == Clamp(cols)) &&
      (forall i, j :: 0 <= i < j < |data| ==> data[i] != data[j])
    }

    /** The cell values, row by row. */
    ghost function Cells(): (g: seq<seq<T>>)
      reads this, data
      ensures |g| == |data| && forall i :: 0 <= i < |data| ==> g[i] == data[i][..]
    {
      var d := data;
      seq(|d|, i reads d requires 0 <= i < |d| => d[i][..])
    }

    /** `Table(rows, cols, default_value)` */
    constructor (r: int, c: int, d: T)
      ensures Valid() && rows == r && cols == c && defaultValue == d
      ensures forall i :: 0 <= i < |data| ==> fresh(data[i])
      ensures Cells() == seq(Clamp(r), _ => seq(Clamp(c), _ => d))
    {
      var acc: seq<array<T>> := [];
      var i := 0;
      while i < Clamp(r)
        invariant 0 <= i <= Clamp(r) && |acc| == i
        invariant forall k :: 0 <= k < i ==> fresh(acc[k]) && acc[k].Length == Clamp(c) && acc[k][..] == seq(Clamp(c), _ => d)
        invariant forall k, l :: 0 <= k < l < i ==> acc[k] != acc[l]
      {
        var a := new T[Clamp(c)](_ => d);
        acc := acc + [a];
        i := i + 1;
      }
      data := acc;
      rows := r;
      cols := c;
      defaultValue := d;
    }

    predicate InBounds(r: int, c: int)
      reads this
    {
      0 <= r < rows && 0 <= c < cols
    }

    /** `t[index]` */
    function Get(index: Index): (g: Result<Got<T>, TableError>)
      requires Valid()
      reads this, data
      ensures index.Pair? ==>
        (g.Ok? <==> InBounds(index.r, index.c)) &&
        (g.Ok? ==> g.value == Cell(Cells()[index.r][index.c]))
      ensures index.Single? ==>
        (g.Ok? <==> 0 <= index.i < rows) &&
        (g.Ok? ==> g.value == WholeRow(data[index.i]))
      ensures index.Pair? && g.Err? ==> g.error == IndexError
      ensures index.Single? && g.Err? ==> g.error == IndexError
      ensures index.OtherIndex? ==> g == Err(TypeError)
    {
      match index
      case Pair(r, c) => if InBounds(r, c) then Ok(Cell(data[r][c])) else Err(IndexError)
      case Single(i) => if 0 <= i < rows then Ok(WholeRow(data[i])) else Err(IndexError)
      case OtherIndex => Err(TypeError)
    }

    /** `t[index] = value`: only a pair in bounds is accepted, and it changes
        exactly that cell. */
    method Set(index: Index, value: T) returns (r: Result<(), TableError>)
      requires Valid()
      modifies data
      ensures Valid() && data == old(data) && rows == old(rows) && cols == old(cols)
      ensures r.Ok? <==> index.Pair? && InBounds(index.r, index.c)
      ensures r.Err? ==> r.error == (if index.Pair? then IndexError else TypeError)
      ensures r.Ok? ==> Cells() == old(Cells())[index.r := old(Cells())[index.r][index.c := value]]
      ensures r.Err? ==> Cells() == old(Cells())
    {
      if !index.Pair? {
        return Err(TypeError);
      }
      if !InBounds(index.r, index.c) {
        return Err(IndexError);
      }
      data[index.r][index.c] := value;
      r := Ok(());
    }

    /** `row(i)`: the stored row itself. */
    function Row(i: int): (g: Result<array<T>, TableError>)
      requires Valid()
      reads this, data
      ensures g.Ok? <==> 0 <= i < rows
      ensures g.Ok? ==> g.value == data[i] && g.value[..] == Cells()[i]
      ensures g.Err? ==> g.error == IndexError
    {
      if 0 <= i < rows then Ok(data[i]) else Err(IndexError)
    }

    /** `column(j)`: a new list of the cells of column `j`. */
    function Column(j: int): (g: Result<seq<T>, TableError>)
      requires Valid()
      reads this, data
      ensures g.Ok? <==> 0 <= j < cols
      ensures g.Ok? ==> |g.value| == Clamp(rows) && forall i :: 0 <= i < |g.value| ==> g.value[i] == Cells()[i][j]
      ensures g.Err? ==> g.error == IndexError
    {
      if 0 <= j < cols then
        var d := data;
        Ok(seq(|d|, i reads d requires 0 <= i < |d| && 0 <= j < d[i].Length => d[i][j]))
      else Err(IndexError)
    }

    /** `t == other` */
    method Equals(other: Other<T>) returns (eq: bool)
      requires Valid() && (other.ATable? ==> other.t.Valid())
      ensures eq <==> other.ATable? && rows == other.t.rows && cols == other.t.cols && Cells() == other.t.Cells()
    {
      if !other.ATable? {
        return false;
      }
      var o := other.t;
      if rows != o.rows || cols != o.cols {
        return false;
      }
      var i := 0;
      while i < |data|
        invariant 0 <= i <= |data| == |o.data|
        invariant forall k :: 0 <= k < i ==> data[k][..] == o.data[k][..]
      {
        if data[i][..] != o.data[i][..] {
          assert Cells()[i] != o.Cells()[i];
          return false;
        }
        i := i + 1;
      }
      eq := true;
    }
  }

  /** A write through the row `row(i)` hands out is a write to the table. */
  method WriteThroughRow<T(==)>(t: Table<T>, i: int, j: int, v: T)
    requires t.Valid() && 0 <= i < t.rows && 0 <= j < t.cols
    modifies t.data
    ensures t.Valid() && t.Cells() == old(t.Cells())[i := old(t.Cells())[i][j := v]]
  {
    var r := t.Row(i);
    var a := r.value;
    a[j] := v;
  }

  /** A written cell reads back, and every other cell keeps its value. */
  method SetThenGet<T(==)>(t: Table<T>, r: int, c: int, v: T) returns (g: Result<Got<T>, TableError>)
    requires t.Valid() && t.InBounds(r, c)
    modifies t.data
    ensures g == Ok(Cell(v))
    ensures forall i, j :: t.InBounds(i, j) && (i, j) != (r, c) ==> t.Cells()[i][j] == old(t.Cells())[i][j]
  {
    var ok := t.Set(Pair(r, c), v);
    g := t.Get(Pair(r, c));
  }

  /** A new table's cells all hold the default value, and it equals any
      other table of its shape and default. */
  method NewTableEquality<T(==)>(r: int, c: int, d: T) returns (eq: bool)
    ensures eq
  {
    var t1 := new Table(r, c, d);
    var t2 := new Table(r, c, d);
    eq := t1.Equals(ATable(t2));
  }
}
