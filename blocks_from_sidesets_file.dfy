/**
 * `BlocksFromSideSetsGeneratorFromFile`: the constructor reads a CSV file
 * whose rows hold an id (column 0), a flag (column 1) and a name (column 2);
 * every flagged row names a sideset and the block to make from it.
 * `generate()` then promotes each named sideset to a new block carrying the
 * same name, one block per row.
 */
module FromSidesetsFile {
  import opened Errors
  import opened TableText
  import opened Promotion
  import opened MeshModel
  import Overwrite

  /** One flagged row: the id cast to `SubdomainID`, and the sideset and block name. */
  datatype SidesetRow = SidesetRow(id: nat, name: string)

  /** What the rows of the file add to the id list and the name lists. */
  datatype SidesetTable = SidesetTable(ids: seq<nat>, names: seq<string>)

  /** Every cell with its trailing white space erased. */
  function Trimmed(cells: seq<string>): (r: seq<string>)
    ensures |r| == |cells| && forall i :: 0 <= i < |cells| ==> r[i] == TrimTrailing(cells[i])
  {
    if cells == [] then [] else Trimmed(cells[..|cells| - 1]) + [TrimTrailing(cells[|cells| - 1])]
  }

  /** The cells the cell loop keeps: trimmed, from column 0 up to column `col`. */
  function Kept(cells: seq<string>, col: nat): (r: seq<string>)
    ensures |r| == if |cells| <= col then |cells| else col + 1
    ensures forall i :: 0 <= i < |r| ==> r[i] == TrimTrailing(cells[i])
  {
    Trimmed(if |cells| <= col then cells else cells[..col + 1])
  }

  /** A line with no cell beyond column `col` and no trailing white space keeps all its cells as they are. */
  lemma KeptWhole(cells: seq<string>, col: nat)
    requires |cells| <= col + 1
    requires forall i :: 0 <= i < |cells| ==> TrimTrailing(cells[i]) == cells[i]
    ensures Kept(cells, col) == cells
  {
    assert (if |cells| <= col then cells else cells[..col + 1]) == cells;
    assert Trimmed(cells) == cells;
  }

  /**
   * One line's kept cells as the constructor's code reads them: fewer than
   * two cells is a format error; a flag of 0 skips the row; otherwise the
   * id is cast to `SubdomainID` and the name is taken from `cells[2]`, which
   * is read even when only two cells were kept.
   */
  function RowAsWritten(kept: seq<string>): Result<Option<SidesetRow>>
  {
    if |kept| <= 1 then Err(FileFormat)
    else
      match StoI(kept[1])
      case Err(e) => Err(e)
      case Ok(flag) =>
        if flag == 0 then Ok(None)
        else
          match StoI(kept[0])
          case Err(e) => Err(e)
          case Ok(v) => if |kept| <= 2 then Err(OutOfBounds(2)) else Ok(Some(SidesetRow(ToU16(v), kept[2])))
  }

  /**
   * The same reading with the missing name reported as the format error the
   * size check announces ("Invalid CSV format or col_index out of range").
   */
  function RowOfKept(kept: seq<string>): Result<Option<SidesetRow>>
  {
    if |kept| <= 1 then Err(FileFormat)
    else
      match StoI(kept[1])
      case Err(e) => Err(e)
      case Ok(flag) =>
        if flag == 0 then Ok(None)
        else
          match StoI(kept[0])
          case Err(e) => Err(e)
          case Ok(v) => if |kept| <= 2 then Err(FileFormat) else Ok(Some(SidesetRow(ToU16(v), kept[2])))
  }

  /**
   * A row is skipped exactly when its flag reads as 0; a kept row has all
   * three cells, a non-zero flag, and the 16-bit cast of its id; every
   * error is a format or a `stoi` error.
   */
  lemma RowOfKeptCases(kept: seq<string>)
    ensures RowOfKept(kept) == Ok(None) <==> |kept| >= 2 && StoI(kept[1]) == Ok(0)
    ensures RowOfKept(kept).Ok? && RowOfKept(kept).value.Some? ==>
      |kept| >= 3 && StoI(kept[1]).Ok? && StoI(kept[1]).value != 0 && StoI(kept[0]).Ok?
      && RowOfKept(kept).value.value == SidesetRow(ToU16(StoI(kept[0]).value), kept[2])
      && RowOfKept(kept).value.value.id < TwoTo16
    ensures RowOfKept(kept).Err? ==>
      RowOfKept(kept).error == FileFormat || RowOfKept(kept).error == InvalidNumber
      || RowOfKept(kept).error == NumberOutOfRange
  {
  }

  /** The code as written reads past the end exactly for a flagged row with a valid id and only two kept cells. */
  lemma RowAsWrittenReadsPastEnd(kept: seq<string>)
    ensures RowAsWritten(kept) == Err(OutOfBounds(2)) <==>
      |kept| == 2 && StoI(kept[1]).Ok? && StoI(kept[1]).value != 0 && StoI(kept[0]).Ok?
    ensures RowAsWritten(kept) != Err(OutOfBounds(2)) ==> RowAsWritten(kept) == RowOfKept(kept)
    ensures RowAsWritten(kept) == Err(OutOfBounds(2)) ==> RowOfKept(kept) == Err(FileFormat)
  {
  }

  /** The line "5,1" (flag set, no name) passes the size check and makes the code read `cells[2]`. */
  lemma ShortFlaggedLine(col: nat)
    requires col >= 1
    ensures RowAsWritten(Kept(Cells("5,1"), col)) == Err(OutOfBounds(2))
    ensures RowOf("5,1", col) == Err(FileFormat)
  {
    assert SplitOn("1", ',') == ["1"] by { SplitNoDelimiter("1", ','); }
    assert SplitOn("5,1", ',') == ["5", "1"] by { SplitPrefix("5", "1", ','); }
    assert Cells("5,1") == ["5", "1"];
    assert TrimTrailing("5") == "5" && TrimTrailing("1") == "1";
    KeptWhole(["5", "1"], col);
    assert Decimal(5) == "5" && Decimal(1) == "1";
    StoIDecimal(5);
    StoIDecimal(1);
  }

  /** With `block_name_column_index` 1 no flagged row keeps its name cell. */
  lemma NameColumnOneReadsPastEnd(line: string)
    requires |Cells(line)| >= 2
    requires StoI(TrimTrailing(Cells(line)[1])).Ok? && StoI(TrimTrailing(Cells(line)[1])).value != 0
    requires StoI(TrimTrailing(Cells(line)[0])).Ok?
    ensures RowAsWritten(Kept(Cells(line), 1)) == Err(OutOfBounds(2))
  {
  }

  /** What one line contributes. */
  function RowOf(line: string, col: nat): Result<Option<SidesetRow>>
  {
    RowOfKept(Kept(Cells(line), col))
  }

  /** The rows of all lines, or the first error. */
  function ReadRows(lines: seq<string>, col: nat): Result<SidesetTable>
  {
    if lines == [] then Ok(SidesetTable([], []))
    else
      match ReadRows(lines[..|lines| - 1], col)
      case Err(e) => Err(e)
      case Ok(t) =>
        match RowOf(lines[|lines| - 1], col)
        case Err(e) => Err(e)
        case Ok(None) => Ok(t)
        case Ok(Some(row)) => Ok(SidesetTable(t.ids + [row.id], t.names + [row.name]))
  }

  /** Every id has a name, and every id fits in 16 bits. */
  lemma {:induction false} ReadRowsShape(lines: seq<string>, col: nat)
    requires ReadRows(lines, col).Ok?
    ensures |ReadRows(lines, col).value.ids| == |ReadRows(lines, col).value.names|
    ensures forall i :: 0 <= i < |ReadRows(lines, col).value.ids| ==> ReadRows(lines, col).value.ids[i] < TwoTo16
  {
    if lines != [] {
      ReadRowsShape(lines[..|lines| - 1], col);
      RowOfKeptCases(Kept(Cells(lines[|lines| - 1]), col));
    }
  }

  /** Reading one more line: its error, nothing, or one more id and name. */
  lemma ReadRowsStep(lines: seq<string>, n: nat, col: nat)
    requires n < |lines| && ReadRows(lines[..n], col).Ok?
    ensures RowOf(lines[n], col).Err? ==> ReadRows(lines[..n + 1], col) == Err(RowOf(lines[n], col).error)
    ensures RowOf(lines[n], col) == Ok(None) ==> ReadRows(lines[..n + 1], col) == ReadRows(lines[..n], col)
    ensures RowOf(lines[n], col).Ok? && RowOf(lines[n], col).value.Some? ==>
      var t, row := ReadRows(lines[..n], col).value, RowOf(lines[n], col).value.value;
      ReadRows(lines[..n + 1], col) == Ok(SidesetTable(t.ids + [row.id], t.names + [row.name]))
  {
    assert lines[..n + 1][..n] == lines[..n];
  }

  lemma {:induction false} ReadRowsErrorPersists(lines: seq<string>, col: nat, n: nat)
    requires n <= |lines| && ReadRows(lines[..n], col).Err?
    ensures ReadRows(lines, col) == ReadRows(lines[..n], col)
    decreases |lines| - n
  {
    if n < |lines| {
      var m := |lines| - 1;
      assert lines[..m][..n] == lines[..n];
      ReadRowsErrorPersists(lines[..m], col, n);
      assert ReadRows(lines[..m], col).Err?;
      assert lines[..|lines| - 1] == lines[..m];
    } else {
      assert lines[..n] == lines;
    }
  }

  /** A flagged row as the file writes it: id, the flag 1, name. */
  function RowLine(row: SidesetRow): string
  {
    Join([Decimal(row.id), "1", row.name], ',')
  }

  /** A row that is not flagged: id and the flag 0. */
  function SkippedLine(id: nat): string
  {
    Join([Decimal(id), "0"], ',')
  }

  /** A name that the line reads back unchanged. */
  predicate PlainName(name: string)
  {
    name != [] && ',' !in name && name[|name| - 1] !in TrimSet
  }

  /** The cells of a flagged row's line are its id, the flag and its name, with nothing to trim. */
  lemma RowLineCells(row: SidesetRow)
    requires PlainName(row.name)
    ensures Cells(RowLine(row)) == [Decimal(row.id), "1", row.name]
    ensures forall i :: 0 <= i < 3 ==> TrimTrailing(Cells(RowLine(row))[i]) == Cells(RowLine(row))[i]
  {
    var ps := [Decimal(row.id), "1", row.name];
    DecimalHasNoComma(row.id);
    forall i | 0 <= i < |ps| ensures ',' !in ps[i] {
    }
    SplitJoin(ps, ',');
    assert TrimTrailing("1") == "1" && TrimTrailing(row.name) == row.name;
  }

  /** The three cells of a flagged row with a 16-bit id parse back as that row. */
  lemma RowCellsParse(row: SidesetRow)
    requires row.id < TwoTo16
    ensures RowOfKept([Decimal(row.id), "1", row.name]) == Ok(Some(row))
  {
    var ps := [Decimal(row.id), "1", row.name];
    assert Decimal(1) == "1";
    StoIDecimal(1);
    StoIDecimal(row.id);
    assert StoI(ps[1]) == Ok(1) && StoI(ps[0]) == Ok(row.id) && ToU16(row.id) == row.id;
  }

  /** A flagged row with a 16-bit id and a plain name reads back as that row, for any name column from 2 on. */
  lemma RowLineReadsBack(row: SidesetRow, col: nat)
    requires 2 <= col && row.id < TwoTo16 && PlainName(row.name)
    ensures RowOf(RowLine(row), col) == Ok(Some(row))
  {
    RowLineCells(row);
    KeptWhole(Cells(RowLine(row)), col);
    RowCellsParse(row);
  }

  /** A row whose flag is 0 adds nothing, for any name column from 1 on. */
  lemma SkippedLineReadsBack(id: nat, col: nat)
    requires 1 <= col && id <= IntMax
    ensures RowOf(SkippedLine(id), col) == Ok(None)
  {
    var ps := [Decimal(id), "0"];
    DecimalHasNoComma(id);
    forall i | 0 <= i < |ps| ensures ',' !in ps[i] {
    }
    SplitJoin(ps, ',');
    assert Cells(SkippedLine(id)) == ps;
    assert TrimTrailing("0") == "0";
    KeptWhole(ps, col);
    assert Decimal(0) == "0";
    StoIDecimal(0);
    StoIDecimal(id);
  }

  /** The table a sequence of rows makes. */
  function TableOf(rows: seq<SidesetRow>): (t: SidesetTable)
    ensures |t.ids| == |t.names| == |rows|
    ensures forall i :: 0 <= i < |rows| ==> t.ids[i] == rows[i].id && t.names[i] == rows[i].name
  {
    if rows == [] then SidesetTable([], [])
    else
      var t := TableOf(rows[..|rows| - 1]);
      SidesetTable(t.ids + [rows[|rows| - 1].id], t.names + [rows[|rows| - 1].name])
  }

  function RowLines(rows: seq<SidesetRow>): (r: seq<string>)
    ensures |r| == |rows| && forall i :: 0 <= i < |rows| ==> r[i] == RowLine(rows[i])
  {
    if rows == [] then [] else RowLines(rows[..|rows| - 1]) + [RowLine(rows[|rows| - 1])]
  }

  /** A file written row by row reads back as the same ids and names, in order. */
  lemma {:induction false} RowLinesReadBack(rows: seq<SidesetRow>, col: nat)
    requires 2 <= col
    requires forall i :: 0 <= i < |rows| ==> rows[i].id < TwoTo16 && PlainName(rows[i].name)
    ensures ReadRows(RowLines(rows), col) == Ok(TableOf(rows))
  {
    if rows != [] {
      var n := |rows| - 1;
      var lines := RowLines(rows);
      assert lines[..n] == RowLines(rows[..n]);
      RowLinesReadBack(rows[..n], col);
      RowLineReadsBack(rows[n], col);
    }
  }

  /** A skipped line leaves the table unchanged. */
  lemma SkippedLineAddsNothing(lines: seq<string>, id: nat, col: nat)
    requires 1 <= col && id <= IntMax
    ensures ReadRows(lines + [SkippedLine(id)], col) == ReadRows(lines, col)
  {
    var all := lines + [SkippedLine(id)];
    assert all[..|all| - 1] == lines;
    SkippedLineReadsBack(id, col);
  }

  class BlocksFromSideSetsGeneratorFromFile {
    var sidesetIds: seq<nat>
    var sidesetNames: seq<string>
    var blockNames: seq<string>

    /** One id per row, each below 2^16, and every block named after its sideset. */
    ghost predicate Valid()
      reads this
    {
      |sidesetIds| == |sidesetNames| && blockNames == sidesetNames
      && forall i :: 0 <= i < |sidesetIds| ==> sidesetIds[i] < TwoTo16
    }

    constructor()
      ensures sidesetIds == [] && sidesetNames == [] && blockNames == []
    {
      sidesetIds, sidesetNames, blockNames := [], [], [];
    }

    /** The `getline` loop over the cells of one line, stopping after column `col`. */
    static method KeepCells(cells: seq<string>, col: nat) returns (kept: seq<string>)
      ensures kept == Kept(cells, col)
    {
      kept := [];
      var cnt := 0;
      while cnt < |cells|
        invariant cnt <= |cells| && cnt <= col
        invariant kept == Trimmed(cells[..cnt])
      {
        var cell := TrimTrailing(cells[cnt]);
        assert cells[..cnt + 1][..cnt] == cells[..cnt];
        if cnt <= col {
          kept := kept + [cell];
        }
        if cnt == col {
          return;
        }
        cnt := cnt + 1;
      }
      assert cells[..cnt] == cells;
    }

    /** One line: its cells, the size check, the flag, the id and the name. */
    static method ParseRow(line: string, col: nat) returns (r: Result<Option<SidesetRow>>)
      ensures r == RowOf(line, col)
    {
      var cells := KeepCells(Cells(line), col);
      if |cells| <= 1 {
        return Err(FileFormat);
      }
      var flag := StoI(cells[1]);
      if flag.Err? {
        return Err(flag.error);
      }
      if flag.value == 0 {
        return Ok(None);
      }
      var id := StoI(cells[0]);
      if id.Err? {
        return Err(id.error);
      }
      if |cells| <= 2 {
        return Err(FileFormat);
      }
      return Ok(Some(SidesetRow(ToU16(id.value), cells[2])));
    }

    /**
     * The constructor's reading of the file: every line after the optional
     * byte-order mark, in order; the first error ends the construction.
     */
    method Load(content: string, col: nat) returns (o: Outcome)
      modifies this
      ensures o.Pass? ==> ReadRows(ReadLines(content), col) == Ok(SidesetTable(sidesetIds, sidesetNames))
      ensures o.Fail? ==> ReadRows(ReadLines(content), col) == Err(o.error)
      ensures o.Pass? ==> Valid()
    {
      sidesetIds, sidesetNames, blockNames := [], [], [];
      var lines := ReadLines(content);
      var n := 0;
      while n < |lines|
        invariant 0 <= n <= |lines|
        invariant ReadRows(lines[..n], col) == Ok(SidesetTable(sidesetIds, sidesetNames))
        invariant blockNames == sidesetNames
      {
        ReadRowsStep(lines, n, col);
        var row := ParseRow(lines[n], col);
        if row.Err? {
          ReadRowsErrorPersists(lines, col, n + 1);
          return Fail(row.error);
        }
        if row.value.Some? {
          sidesetIds := sidesetIds + [row.value.value.id];
          sidesetNames := sidesetNames + [row.value.value.name];
          blockNames := blockNames + [row.value.value.name];
        }
        n := n + 1;
      }
      assert lines[..n] == lines;
      ReadRowsShape(lines, col);
      return Pass;
    }

    /**
     * `generate()`: one `generate2` round per row, round `i` promoting the
     * sides on sideset `sidesetNames[i]` to a new block named
     * `blockNames[i]` (`exs[i]` is what the other processes contribute to
     * that round); the first error ends the run.
     */
    method Generate(mesh: Mesh, boundaryId: string -> int, exs: seq<Exchange>, reconnect: set<nat> -> set<nat>)
      returns (o: Outcome, ghost blocks: seq<nat>, ghost rounds: seq<RoundTrace>)
      requires Valid() && mesh.Valid() && |exs| == |blockNames|
      requires mesh.Distributed() ==> forall i :: 0 <= i < |exs| ==> |exs[i].needFlags| == mesh.nProcs
      modifies mesh
      ensures mesh.Valid()
      ensures mesh.allowRemoteElementRemoval == old(mesh.allowRemoteElementRemoval)
      ensures mesh.skipPartitioning == old(mesh.skipPartitioning)
      ensures mesh.nodeTags == old(mesh.nodeTags) && mesh.nodesetNames == old(mesh.nodesetNames)
      ensures o.Pass? <==> |blocks| == |blockNames|
      ensures RunOf(mesh.Distributed(), mesh.procId, Targets(BoundaryIds(boundaryId, sidesetNames)), exs,
                    old(mesh.elems), old(mesh.sides), old(mesh.nextElemId), old(mesh.nextUniqueId),
                    blocks, o, rounds, mesh.elems, mesh.sides)
      ensures mesh.subdomainNames == Overwrite.Assign(old(mesh.subdomainNames), blocks, blockNames[..|blocks|])
      ensures blockNames != [] && o.Pass? ==> mesh.prepared
    {
      var targets := Targets(BoundaryIds(boundaryId, sidesetNames));
      ghost var elems0, sides0, next0, nextU0 := mesh.elems, mesh.sides, mesh.nextElemId, mesh.nextUniqueId;
      ghost var tags0, nodesets0 := mesh.nodeTags, mesh.nodesetNames;
      o, blocks, rounds := mesh.AddBlocks(targets, blockNames, exs, reconnect);
      assert mesh.nodeTags == tags0 && mesh.nodesetNames == nodesets0;
      assert sidesetNames == old(sidesetNames) && blockNames == old(blockNames);
      assert RunOf(mesh.Distributed(), mesh.procId, targets, exs, elems0, sides0, next0, nextU0, blocks, o, rounds, mesh.elems, mesh.sides);
    }
  }
}
