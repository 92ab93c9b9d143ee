/**
 * Serialisation of mrpt::math::CMatrix, a dynamic matrix of `float`s: the
 * row count and the column count as `uint32_t`, then the elements row by
 * row, each row written as one buffer of `cols` floats. Reading resizes the
 * matrix and fills it row by row from the archive.
 */
module Matrix {
  import opened Streams

  /** The only serialisation version of a matrix. */
  const Version: nat := 0

  /** `cells` holds `rows` rows of `cols` elements each. */
  predicate Shaped(rows: nat, cols: nat, cells: seq<seq<real>>)
  {
    |cells| == rows && forall i :: 0 <= i < |cells| ==> |cells[i]| == cols
  }

  /** The element buffers of the given rows, first row first. */
  function RowItems(m: seq<seq<real>>): (r: seq<Item>)
    ensures m == [] ==> r == []
  {
    if m == [] then [] else RowItems(m[..|m| - 1]) + Reals(Single, m[|m| - 1])
  }

  /** What `writeToStream` writes: the dimensions truncated to 32 bits, then the rows when neither dimension is zero. */
  function Body(rows: nat, cols: nat, cells: seq<seq<real>>): seq<Item>
  {
    [U32(rows % U32Limit), U32(cols % U32Limit)] + (if rows > 0 && cols > 0 then RowItems(cells) else [])
  }

  /** `m` in front of the rows of a successful read; an error stays an error. */
  function Prepend(m: seq<seq<real>>, r: Result<Read<seq<seq<real>>>>): (p: Result<Read<seq<seq<real>>>>)
    ensures p.Ok? <==> r.Ok?
    ensures p.Ok? ==> p.value == Read(m + r.value.value, r.value.rest)
  {
    match r
    case Err(e) => Err(e)
    case Ok(Read(more, rest)) => Ok(Read(m + more, rest))
  }

  /** Reading `n` rows of `cols` floats from the front of `s`. */
  function ParseRows(s: seq<Item>, n: nat, cols: nat): (r: Result<Read<seq<seq<real>>>>)
    ensures r.Ok? ==> Shaped(n, cols, r.value.value)
  {
    if n == 0 then Ok(Read([], s))
    else
      match ReadReals(s, cols, Single)
      case Err(e) => Err(e)
      case Ok(Read(row, rest)) => Prepend([row], ParseRows(rest, n - 1, cols))
  }

  /** A matrix as `readFromStream` leaves it: its dimensions and its rows. */
  datatype Dims = Dims(rows: nat, cols: nat, cells: seq<seq<real>>)

  /** What `readFromStream` makes of `s` for the given version. */
  function Parse(s: seq<Item>, version: nat): (r: Result<Read<Dims>>)
    ensures r.Ok? ==> version == Version && Shaped(r.value.value.rows, r.value.value.cols, r.value.value.cells)
    ensures version != Version ==> r == Err(UnknownVersion(version))
  {
    if version != Version then Err(UnknownVersion(version))
    else
      match ReadU32(s)
      case Err(e) => Err(e)
      case Ok(Read(nRows, s1)) =>
        match ReadU32(s1)
        case Err(e) => Err(e)
        case Ok(Read(nCols, s2)) =>
          if nRows > 0 && nCols > 0 then
            match ParseRows(s2, nRows, nCols)
            case Err(e) => Err(e)
            case Ok(Read(cells, rest)) => Ok(Read(Dims(nRows, nCols, cells), rest))
          else
            Ok(Read(Dims(nRows, nCols, seq(nRows, _ => [])), s2))
  }

  lemma RowItemsSnoc(m: seq<seq<real>>, row: seq<real>)
    ensures RowItems(m + [row]) == RowItems(m) + Reals(Single, row)
  {
    assert (m + [row])[..|m + [row]| - 1] == m;
  }

  /** The row buffers, split at the first row. */
  lemma RowItemsCons(row: seq<real>, m: seq<seq<real>>)
    ensures RowItems([row] + m) == Reals(Single, row) + RowItems(m)
  {
    if m == [] {
      SingletonRows(row);
    } else {
      var init, last := m[..|m| - 1], m[|m| - 1];
      SplitLast(row, m);
      RowItemsSnoc([row] + init, last);
      RowItemsCons(row, init);
      RowItemsSnoc(init, last);
      ItemsAssoc(Reals(Single, row), RowItems(init), Reals(Single, last));
    }
  }

  lemma SingletonRows(row: seq<real>)
    ensures RowItems([row] + []) == Reals(Single, row) + RowItems([])
  {
    assert [row] + [] == [] + [row];
    RowItemsSnoc([], row);
    assert [] + Reals(Single, row) == Reals(Single, row) + [];
  }

  lemma SplitLast(row: seq<real>, m: seq<seq<real>>)
    requires m != []
    ensures [row] + m == ([row] + m[..|m| - 1]) + [m[|m| - 1]]
    ensures m == m[..|m| - 1] + [m[|m| - 1]]
  {
  }

  lemma ConsSplit(m: seq<seq<real>>)
    requires m != []
    ensures [m[0]] + m[1..] == m
  {
  }

  lemma ItemsAssoc(a: seq<Item>, b: seq<Item>, c: seq<Item>)
    ensures (a + b) + c == a + (b + c)
  {
  }

  lemma PrependTwice(row: seq<real>, m: seq<seq<real>>, r: Result<Read<seq<seq<real>>>>)
    ensures Prepend([row], Prepend(m, r)) == Prepend([row] + m, r)
  {
    if r.Ok? {
      assert [row] + (m + r.value.value) == ([row] + m) + r.value.value;
    }
  }

  lemma PrependNothing(r: Result<Read<seq<seq<real>>>>)
    ensures Prepend([], r) == r
  {
    if r.Ok? {
      assert [] + r.value.value == r.value.value;
    }
  }

  lemma ConsItems(m: seq<seq<real>>, rest: seq<Item>)
    requires m != []
    ensures RowItems(m) + rest == Reals(Single, m[0]) + (RowItems(m[1..]) + rest)
  {
    ConsSplit(m);
    RowItemsCons(m[0], m[1..]);
    ItemsAssoc(Reals(Single, m[0]), RowItems(m[1..]), rest);
  }

  /** One row read off the front. */
  lemma ParseRowsStep(row: seq<real>, s: seq<Item>, k: nat, cols: nat)
    requires |row| == cols
    ensures ParseRows(Reals(Single, row) + s, k + 1, cols) == Prepend([row], ParseRows(s, k, cols))
  {
    RealsRoundTrip(Single, row, s);
  }

  /** Reading rows that were written as buffers gives them back, then continues with what follows. */
  lemma ParseRowItems(m: seq<seq<real>>, cols: nat, n: nat, rest: seq<Item>)
    requires forall i :: 0 <= i < |m| ==> |m[i]| == cols
    ensures ParseRows(RowItems(m) + rest, |m| + n, cols) == Prepend(m, ParseRows(rest, n, cols))
  {
    if m != [] {
      var row, tail := m[0], m[1..];
      ConsItems(m, rest);
      ParseRowsStep(row, RowItems(tail) + rest, |tail| + n, cols);
      ParseRowItems(tail, cols, n, rest);
      PrependTwice(row, tail, ParseRows(rest, n, cols));
      assert [row] + tail == m;
    } else {
      assert RowItems(m) + rest == rest;
      PrependNothing(ParseRows(rest, n, cols));
    }
  }

  /** Writing a matrix and reading it back with version 0 gives the same matrix and leaves the rest of the archive. */
  lemma RoundTrip(rows: nat, cols: nat, cells: seq<seq<real>>, rest: seq<Item>)
    requires Shaped(rows, cols, cells) && rows < U32Limit && cols < U32Limit
    ensures Parse(Body(rows, cols, cells) + rest, Version) == Ok(Read(Dims(rows, cols, cells), rest))
  {
    var s := Body(rows, cols, cells) + rest;
    var body := if rows > 0 && cols > 0 then RowItems(cells) else [];
    assert s == [U32(rows)] + ([U32(cols)] + (body + rest));
    if rows > 0 && cols > 0 {
      ParseRowItems(cells, cols, 0, rest);
      assert cells + [] == cells;
      assert ParseRows(rest, 0, cols) == Ok(Read([], rest));
    } else {
      assert body + rest == rest;
      assert cells == seq(rows, _ => []) by {
        if rows > 0 {
          forall i | 0 <= i < rows ensures cells[i] == [] {
          }
        }
      }
    }
  }

  /** A dynamic matrix of floats, as its serialisation sees it. */
  class CMatrix {
    var rows: nat
    var cols: nat
    var cells: seq<seq<real>>

    ghost predicate Valid()
      reads this
    {
      Shaped(rows, cols, cells)
    }

    constructor (r: nat, c: nat)
      ensures Valid() && rows == r && cols == c
      ensures forall i, j :: 0 <= i < r && 0 <= j < c ==> cells[i][j] == 0.0
    {
      rows, cols := r, c;
      cells := seq(r, _ => seq(c, _ => 0.0));
    }

    /** `writeToStream`: the dimensions, then each row as one buffer. */
    method WriteToStream() returns (out: seq<Item>)
      requires Valid()
      ensures out == Body(rows, cols, cells)
    {
      out := [U32(rows % U32Limit), U32(cols % U32Limit)];
      if rows > 0 && cols > 0 {
        var i := 0;
        while i < rows
          invariant 0 <= i <= rows
          invariant out == [U32(rows % U32Limit), U32(cols % U32Limit)] + RowItems(cells[..i])
        {
          RowItemsSnoc(cells[..i], cells[i]);
          assert cells[..i + 1] == cells[..i] + [cells[i]];
          out := out + Reals(Single, cells[i]);
          i := i + 1;
        }
        assert cells[..rows] == cells;
      }
    }

    /** The row loop of `readFromStream`: `n` buffers of `cols` floats, one after the other. */
    static method ReadRows(s: seq<Item>, n: nat, cols: nat) returns (r: Result<Read<seq<seq<real>>>>)
      ensures r == ParseRows(s, n, cols)
    {
      var read: seq<seq<real>> := [];
      var cur := s;
      var i := 0;
      while i < n
        invariant 0 <= i <= n && |read| == i
        invariant forall k :: 0 <= k < i ==> |read[k]| == cols
        invariant s == RowItems(read) + cur
      {
        var row := ReadReals(cur, cols, Single);
        if row.Err? {
          ParseRowItems(read, cols, n - i, cur);
          return Err(row.error);
        }
        RowItemsSnoc(read, row.value.value);
        read := read + [row.value.value];
        cur := row.value.rest;
        i := i + 1;
      }
      ParseRowItems(read, cols, 0, cur);
      assert read + [] == read;
      r := Ok(Read(read, cur));
    }

    /**
     * `readFromStream`: an unknown version is refused; version 0 resizes to
     * the dimensions read and fills the rows one buffer at a time. On
     * success the matrix is what `Parse` reads and `r` holds the rest of the
     * archive.
     */
    method ReadFromStream(s: seq<Item>, version: nat) returns (r: Result<seq<Item>>)
      modifies this
      ensures r.Ok? <==> Parse(s, version).Ok?
      ensures r.Ok? ==>
        Valid() && r.value == Parse(s, version).value.rest && Dims(rows, cols, cells) == Parse(s, version).value.value
      ensures r.Err? ==> r.error == Parse(s, version).error
    {
      if version != Version {
        return Err(UnknownVersion(version));
      }
      var a := ReadU32(s);
      if a.Err? {
        return Err(a.error);
      }
      var b := ReadU32(a.value.rest);
      if b.Err? {
        return Err(b.error);
      }
      var nRows, nCols := a.value.value, b.value.value;
      rows, cols := nRows, nCols;
      cells := seq(nRows, _ => seq(nCols, _ => 0.0));
      if nRows > 0 && nCols > 0 {
        var body := ReadRows(b.value.rest, nRows, nCols);
        if body.Err? {
          return Err(body.error);
        }
        cells := body.value.value;
        r := Ok(body.value.rest);
      } else {
        cells := seq(nRows, _ => []);
        r := Ok(b.value.rest);
      }
    }
  }
}
