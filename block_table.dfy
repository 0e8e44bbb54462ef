/**
 * The per-block value tables the porous-flow materials read: one value per
 * line of a CSV file, taken from column `col_index`, and looked up for an
 * element of block `b` at row `b - 1`.
 */
module BlockTable {
  import opened Errors
  import opened Geometry
  import opened TableText

  /**
   * The cell the column loop `while (getline(ss, cell, ',')) { cnt++; if
   * (cnt == col) break; }` leaves for the check `cnt != col`: the cell at
   * `col` when the line has one. Otherwise the loop runs out with `cnt` at
   * the number of cells minus one, taken modulo 2^32 from its start at
   * `unsigned(-1)`, which can only equal `col` for an empty line and
   * `col == 2^32 - 1`; then `cell` is still the empty string it started as.
   */
  function ColumnCell(line: string, col: nat): Result<string>
    requires col < TwoTo32
  {
    var cells := Cells(line);
    if col < |cells| then Ok(cells[col])
    else if ToU32(|cells| - 1) == col then Ok(if cells == [] then "" else CellPastEnd(line, cells[|cells| - 1]))
    else Err(FileFormat)
  }

  /**
   * A line yields a cell exactly when it has more than `col` cells, apart
   * from the empty line under the largest column index; it is then the
   * untrimmed cell at `col`.
   */
  lemma ColumnCellCases(line: string, col: nat)
    requires col < TwoTo32
    ensures ColumnCell(line, col).Ok? <==> col < |Cells(line)| || (line == "" && col == TwoTo32 - 1)
    ensures col < |Cells(line)| ==> ColumnCell(line, col) == Ok(Cells(line)[col])
    ensures ColumnCell(line, col).Err? ==> ColumnCell(line, col).error == FileFormat
  {
    var cells := Cells(line);
    if col >= |cells| && ToU32(|cells| - 1) == col {
      var v := |cells| - 1;
      assert 0 < col - v <= TwoTo32;
      assert (col - v) % TwoTo32 == 0;
      assert col - v == TwoTo32;
      assert v == -1;
      assert |SplitOn(line, ',')| == 1;
      JoinSplit(line, ',');
    }
    if line == "" {
      TokensOfEmpty(',');
    }
  }

  /** A line written from cells without ',' reads back the cell at `col`, when the last cell is not empty. */
  lemma ColumnReadsBack(ps: seq<string>, col: nat)
    requires col < |ps| && ps[|ps| - 1] != ""
    requires forall i :: 0 <= i < |ps| ==> ',' !in ps[i]
    ensures col < TwoTo32 ==> ColumnCell(Join(ps, ','), col) == Ok(ps[col])
  {
    SplitJoin(ps, ',');
  }

  /** The `getline` loop with its `unsigned int` counter and the check after it. */
  method SelectColumn(line: string, col: nat) returns (r: Result<string>)
    requires col < TwoTo32
    ensures r == ColumnCell(line, col)
  {
    var cells := Cells(line);
    var cell := "";
    var cnt: int := -1;
    while true
      invariant -1 <= cnt < |cells| && cnt < col
      invariant cell == if cnt == -1 then "" else cells[cnt]
      decreases |cells| - cnt
    {
      if cnt + 1 == |cells| {
        cell := CellPastEnd(line, cell);
        break;
      }
      cnt := cnt + 1;
      cell := cells[cnt];
      if ToU32(cnt) == col {
        return Ok(cell);
      }
    }
    if ToU32(cnt) != col {
      return Err(FileFormat);
    }
    assert cnt == |cells| - 1;
    return Ok(cell);
  }

  /**
   * The values of all lines, one `stod` of the selected cell per line, or
   * the first error. `stod` is the caller's decimal parser.
   */
  function ReadColumn(lines: seq<string>, col: nat, stod: string -> Result<real>): (r: Result<seq<real>>)
    requires col < TwoTo32
    ensures r.Ok? ==> |r.value| == |lines|
  {
    if lines == [] then Ok([])
    else
      match ReadColumn(lines[..|lines| - 1], col, stod)
      case Err(e) => Err(e)
      case Ok(vs) =>
        match ColumnCell(lines[|lines| - 1], col)
        case Err(e) => Err(e)
        case Ok(cell) =>
          match stod(cell)
          case Err(e) => Err(e)
          case Ok(v) => Ok(vs + [v])
  }

  /** Row `i` of the table is the parsed cell of line `i`. */
  lemma {:induction false} ReadColumnRows(lines: seq<string>, col: nat, stod: string -> Result<real>, i: nat)
    requires col < TwoTo32 && ReadColumn(lines, col, stod).Ok? && i < |lines|
    ensures ColumnCell(lines[i], col).Ok? && stod(ColumnCell(lines[i], col).value) == Ok(ReadColumn(lines, col, stod).value[i])
  {
    var n := |lines| - 1;
    if i < n {
      ReadColumnRows(lines[..n], col, stod, i);
    }
  }

  /** A line whose cell is missing or does not parse makes the whole table fail. */
  lemma {:induction false} ReadColumnFails(lines: seq<string>, col: nat, stod: string -> Result<real>, i: nat)
    requires col < TwoTo32 && i < |lines|
    requires ColumnCell(lines[i], col).Err? || stod(ColumnCell(lines[i], col).value).Err?
    ensures ReadColumn(lines, col, stod).Err?
  {
    var n := |lines| - 1;
    if i < n {
      ReadColumnFails(lines[..n], col, stod, i);
    }
  }

  lemma {:induction false} ReadColumnErrorPersists(lines: seq<string>, col: nat, stod: string -> Result<real>, n: nat)
    requires col < TwoTo32 && n <= |lines| && ReadColumn(lines[..n], col, stod).Err?
    ensures ReadColumn(lines, col, stod) == ReadColumn(lines[..n], col, stod)
    decreases |lines| - n
  {
    if n < |lines| {
      var m := |lines| - 1;
      assert lines[..m][..n] == lines[..n];
      ReadColumnErrorPersists(lines[..m], col, stod, n);
      assert lines[..|lines| - 1] == lines[..m];
    } else {
      assert lines[..n] == lines;
    }
  }

  /**
   * The constructor's reading of the file (after the optional byte-order
   * mark): select the cell of every line, parse it, and push it.
   */
  method ReadTable(content: string, col: nat, stod: string -> Result<real>) returns (r: Result<seq<real>>)
    requires col < TwoTo32
    ensures r == ReadColumn(ReadLines(content), col, stod)
  {
    var lines := ReadLines(content);
    var data: seq<real> := [];
    var n := 0;
    while n < |lines|
      invariant 0 <= n <= |lines|
      invariant ReadColumn(lines[..n], col, stod) == Ok(data)
    {
      assert lines[..n + 1][..n] == lines[..n];
      var cell := SelectColumn(lines[n], col);
      if cell.Err? {
        ReadColumnErrorPersists(lines, col, stod, n + 1);
        return Err(cell.error);
      }
      var v := stod(cell.value);
      if v.Err? {
        ReadColumnErrorPersists(lines, col, stod, n + 1);
        return Err(v.error);
      }
      data := data + [v.value];
      n := n + 1;
    }
    assert lines[..n] == lines;
    return Ok(data);
  }

  /**
   * The lookup `data[block_id - 1]` behind the guard as the materials write
   * it, `block_id - 1 >= 0 || data.size() <= block_id`. `block_id` is an
   * `unsigned short`, so `block_id - 1` is computed as an `int` and the
   * first half holds for every block from 1 on, however short the table.
   */
  function BlockValueAsWritten(data: seq<real>, block: nat): Result<real>
  {
    if block - 1 >= 0 || |data| <= block then
      if 1 <= block <= |data| then Ok(data[block - 1]) else Err(OutOfBounds(block - 1))
    else Err(BlockNotFound(block))
  }

  /** The lookup with the bound the "Block ID ... not found in CSV data" error stands for. */
  function BlockValue(data: seq<real>, block: nat): (r: Result<real>)
    ensures r.Ok? <==> 1 <= block <= |data|
    ensures r.Ok? ==> r.value == data[block - 1]
    ensures r.Err? ==> r.error == BlockNotFound(block)
  {
    if 1 <= block <= |data| then Ok(data[block - 1]) else Err(BlockNotFound(block))
  }

  /**
   * The guard as written lets through every block beyond the table (and
   * block 0 of an empty table), for which it reads past the end; on all
   * other blocks it agrees with the bounded lookup.
   */
  lemma GuardAdmitsMissingBlocks(data: seq<real>, block: nat)
    ensures BlockValueAsWritten(data, block).Err? && BlockValueAsWritten(data, block).error.OutOfBounds? <==>
      |data| < block || (block == 0 && data == [])
    ensures !(|data| < block || (block == 0 && data == [])) ==> BlockValueAsWritten(data, block) == BlockValue(data, block)
  {
  }

  /** A one-row table and block 2: the guard passes and the code reads `data[1]`. */
  lemma GuardCounterexample()
    ensures BlockValueAsWritten([0.25], 2) == Err(OutOfBounds(1))
    ensures BlockValue([0.25], 2) == Err(BlockNotFound(2))
  {
  }

  /** `n` zero entries: what `assign(n, 0.0)` leaves. */
  function Zeros(n: nat): (r: seq<real>)
    ensures |r| == n && forall i :: 0 <= i < n ==> r[i] == 0.0
  {
    seq(n, _ => 0.0)
  }

  /** `n` zero gradients: what `assign(n, RealGradient())` leaves. */
  function ZeroGradients(n: nat): (r: seq<Vec3>)
    ensures |r| == n && forall i :: 0 <= i < n ==> r[i] == Origin
  {
    seq(n, _ => Origin)
  }
}
