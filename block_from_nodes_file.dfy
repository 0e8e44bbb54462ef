/**
 * `BlockFromNodesGeneratorFromFile`: the constructor reads a CSV file in
 * which a row names a block and lists its nodes (a name column, a count
 * column, and that many node ids after the count); `generate()` makes one
 * nodeset per block, derives the sidesets, and promotes each sideset to a
 * block of the same name.
 */
module FromNodesFile {
  import opened Errors
  import opened TableText
  import opened Promotion
  import opened MeshModel
  import Overwrite

  /** What one line adds to the block names, the node counts and the node ids. */
  datatype NodeRow = NodeRow(names: seq<string>, offsets: seq<nat>, ids: seq<nat>)

  /** The line stops at column 1 because that cell is "0". */
  predicate ZeroMark(cells: seq<string>)
  {
    |cells| > 1 && TrimTrailing(cells[1]) == "0"
  }

  /** Column `c` reaches the checks of the cell loop (the loop stops after the count column). */
  predicate Runs(cells: seq<string>, c: nat, ocol: nat)
  {
    c < |cells| && c <= ocol && (c == 0 || !ZeroMark(cells))
  }

  /**
   * The cell the `i`-th `getline` after the count column leaves: the next
   * cell, untrimmed, while there is one; past the end it is cleared when the
   * line ends with ',' and otherwise keeps the last cell read (the trimmed
   * count cell when no further cell was read).
   */
  function IdCell(line: string, cells: seq<string>, ocol: nat, i: nat): string
    requires ocol < |cells|
  {
    if ocol + 1 + i < |cells| then cells[ocol + 1 + i]
    else CellPastEnd(line, if |cells| > ocol + 1 then cells[|cells| - 1] else TrimTrailing(cells[ocol]))
  }

  /** The first `k` node ids after the count column, cast to `unsigned int`, or the first `stoi` error. */
  function IdsOf(line: string, cells: seq<string>, ocol: nat, k: nat): (r: Result<seq<nat>>)
    requires ocol < |cells|
    ensures r.Ok? ==> |r.value| == k
    ensures r.Ok? ==>
      forall i :: 0 <= i < k ==>
        StoI(IdCell(line, cells, ocol, i)).Ok? && r.value[i] == ToU32(StoI(IdCell(line, cells, ocol, i)).value)
  {
    if k == 0 then Ok([])
    else
      match IdsOf(line, cells, ocol, k - 1)
      case Err(e) => Err(e)
      case Ok(ids) =>
        match StoI(IdCell(line, cells, ocol, k - 1))
        case Err(e) => Err(e)
        case Ok(v) => Ok(ids + [ToU32(v)])
  }

  /** Past the last cell, each further `getline` leaves what `CellPastEnd` makes of the cell before. */
  lemma IdCellPastEnd(line: string, cells: seq<string>, ocol: nat, i: nat)
    requires ocol < |cells| && ocol + 1 + i >= |cells|
    ensures IdCell(line, cells, ocol, i)
      == CellPastEnd(line, if i == 0 then TrimTrailing(cells[ocol]) else IdCell(line, cells, ocol, i - 1))
  {
  }

  /** One more successful `stoi` adds its cast value to the ids. */
  lemma IdsOfSnoc(line: string, cells: seq<string>, ocol: nat, i: nat, ids: seq<nat>, v: int)
    requires ocol < |cells| && IdsOf(line, cells, ocol, i) == Ok(ids)
    requires StoI(IdCell(line, cells, ocol, i)) == Ok(v)
    ensures IdsOf(line, cells, ocol, i + 1) == Ok(ids + [ToU32(v)])
  {
  }

  /** The ids fail exactly when one of the `k` cells is not a number in range. */
  lemma {:induction false} IdsOfFails(line: string, cells: seq<string>, ocol: nat, k: nat)
    requires ocol < |cells|
    ensures IdsOf(line, cells, ocol, k).Err? <==> exists i :: 0 <= i < k && StoI(IdCell(line, cells, ocol, i)).Err?
    ensures IdsOf(line, cells, ocol, k).Err? ==>
      IdsOf(line, cells, ocol, k).error == InvalidNumber || IdsOf(line, cells, ocol, k).error == NumberOutOfRange
  {
    if k > 0 {
      IdsOfFails(line, cells, ocol, k - 1);
    }
  }

  /** What one line contributes, as the constructor's cell loop computes it. */
  function RowOf(line: string, bcol: nat, ocol: nat): Result<NodeRow>
  {
    RowOfCells(line, Cells(line), bcol, ocol)
  }

  /** `RowOf` once the line is split into its cells. */
  function RowOfCells(line: string, cells: seq<string>, bcol: nat, ocol: nat): Result<NodeRow>
  {
    var names := if Runs(cells, bcol, ocol) then [TrimTrailing(cells[bcol])] else [];
    if !Runs(cells, ocol, ocol) then Ok(NodeRow(names, [], []))
    else
      match StoI(TrimTrailing(cells[ocol]))
      case Err(e) => Err(e)
      case Ok(v) =>
        match IdsOf(line, cells, ocol, ToU32(v))
        case Err(e) => Err(e)
        case Ok(ids) => Ok(NodeRow(names, [ToU32(v)], ids))
  }

  function Min(a: nat, b: nat): nat
  {
    if a <= b then a else b
  }

  function Sum(s: seq<nat>): nat
  {
    if s == [] then 0 else Sum(s[..|s| - 1]) + s[|s| - 1]
  }

  lemma SumSnoc(s: seq<nat>, i: nat)
    requires i < |s|
    ensures Sum(s[..i + 1]) == Sum(s[..i]) + s[i]
  {
    assert s[..i + 1][..i] == s[..i];
  }

  lemma {:induction false} SumPrefix(s: seq<nat>, i: nat)
    requires i <= |s|
    ensures Sum(s[..i]) <= Sum(s)
    decreases |s| - i
  {
    if i < |s| {
      SumSnoc(s, i);
      SumPrefix(s, i + 1);
    } else {
      assert s[..i] == s;
    }
  }

  /** A row adds at most one name and one count, and exactly as many ids as its count says. */
  lemma RowShape(line: string, bcol: nat, ocol: nat)
    requires RowOf(line, bcol, ocol).Ok?
    ensures var row := RowOf(line, bcol, ocol).value;
      |row.names| <= 1 && |row.offsets| <= 1 && |row.ids| == Sum(row.offsets)
      && (forall i :: 0 <= i < |row.offsets| ==> row.offsets[i] < TwoTo32)
      && (forall i :: 0 <= i < |row.ids| ==> row.ids[i] < TwoTo32)
  {
    var row := RowOf(line, bcol, ocol).value;
    if |row.offsets| == 1 {
      assert row.offsets[..0] == [];
    }
  }

  /**
   * A line whose column 1 is "0" ends at that cell: it adds no count and no
   * ids, but the name if the name column is 0, with nothing to pair it with.
   */
  lemma ZeroCountRow(line: string, bcol: nat, ocol: nat)
    requires ZeroMark(Cells(line)) && 1 <= ocol
    ensures RowOf(line, bcol, ocol) == Ok(NodeRow(if bcol == 0 then [TrimTrailing(Cells(line)[0])] else [], [], []))
  {
  }

  /**
   * A zero-count row named `a` before a full row named `b` leaves two names
   * and one count: group 0, which `generate()` pairs with `a`, holds `b`'s
   * ids, and the second round reads the counts past their end.
   */
  lemma ZeroCountRowMisaligns(a: string, b: string, ids: seq<nat>)
    requires ',' !in a && TrimTrailing(a) == a
    requires ',' !in b && (b == [] || b[|b| - 1] !in TrimSet)
    requires 1 <= |ids| <= IntMax
    requires forall i :: 0 <= i < |ids| ==> ids[i] <= IntMax
    ensures ReadRows([Join([a, "0"], ','), RowLine(b, ids)], 0, 1) == Ok(NodeRow([a, b], [|ids|], ids))
    ensures Sum([|ids|]) == |ids| && Group(ids, [|ids|], 0) == ids
  {
    ZeroRowOf(a);
    RowLineReadsBack(b, ids);
    ReadTwo(Join([a, "0"], ','), RowLine(b, ids), NodeRow([a], [], []), NodeRow([b], [|ids|], ids));
    assert [a] + [b] == [a, b] && [] + [|ids|] == [|ids|] && [] + ids == ids;
    SingleGroup(ids);
  }

  /** Two lines read as the first line's row followed by the second's. */
  lemma ReadTwo(l1: string, l2: string, r1: NodeRow, r2: NodeRow)
    requires RowOf(l1, 0, 1) == Ok(r1) && RowOf(l2, 0, 1) == Ok(r2)
    ensures ReadRows([l1, l2], 0, 1) == Ok(NodeRow(r1.names + r2.names, r1.offsets + r2.offsets, r1.ids + r2.ids))
  {
    var lines := [l1, l2];
    assert lines[..|lines| - 1] == [l1] && lines[|lines| - 1] == l2;
    assert [l1][..0] == [];
    assert [] + r1.names == r1.names && [] + r1.offsets == r1.offsets && [] + r1.ids == r1.ids;
    assert ReadRows([l1], 0, 1) == Ok(r1);
  }

  /** With a single count, group 0 is the whole id list. */
  lemma SingleGroup(ids: seq<nat>)
    ensures Sum([|ids|]) == |ids| && Group(ids, [|ids|], 0) == ids
  {
    assert [|ids|][..0] == [];
    GroupAt(ids, [|ids|], 0);
  }

  /** The row "a,0" adds the name `a` and nothing else. */
  lemma ZeroRowOf(a: string)
    requires ',' !in a && TrimTrailing(a) == a
    ensures RowOf(Join([a, "0"], ','), 0, 1) == Ok(NodeRow([a], [], []))
  {
    var zero := Join([a, "0"], ',');
    CellsJoin([a, "0"]);
    assert TrimTrailing("0") == "0";
    assert ZeroMark(Cells(zero));
    ZeroCountRow(zero, 0, 1);
  }

  /** The text of a node id list as the file writes it. */
  function DecimalCells(ids: seq<nat>): (r: seq<string>)
    ensures |r| == |ids| && forall i :: 0 <= i < |ids| ==> r[i] == Decimal(ids[i])
  {
    if ids == [] then [] else DecimalCells(ids[..|ids| - 1]) + [Decimal(ids[|ids| - 1])]
  }

  /** A row with the name in column 0, the count in column 1, then the ids. */
  function RowLine(name: string, ids: seq<nat>): string
  {
    Join([name, Decimal(|ids|)] + DecimalCells(ids), ',')
  }

  lemma DecimalNotZero(n: nat)
    requires n >= 1
    ensures Decimal(n) != "0"
  {
    DecimalValue(n);
  }

  /** Ids read back when every cell holds its number in range. */
  lemma {:induction false} IdsOfEach(line: string, cells: seq<string>, ocol: nat, ids: seq<nat>, k: nat)
    requires ocol < |cells| && k <= |ids|
    requires forall i :: 0 <= i < k ==> ids[i] < TwoTo32 && StoI(IdCell(line, cells, ocol, i)) == Ok(ids[i])
    ensures IdsOf(line, cells, ocol, k) == Ok(ids[..k])
  {
    if k > 0 {
      IdsOfEach(line, cells, ocol, ids, k - 1);
      IdsOfSnoc(line, cells, ocol, k - 1, ids[..k - 1], ids[k - 1]);
      assert ToU32(ids[k - 1]) == ids[k - 1];
      assert ids[..k] == ids[..k - 1] + [ids[k - 1]];
    }
  }

  /** No cell of a written row holds ',' when its name does not. */
  lemma RowCellsNoComma(name: string, ids: seq<nat>)
    requires ',' !in name
    ensures forall i :: 0 <= i < |ids| + 2 ==> ',' !in ([name, Decimal(|ids|)] + DecimalCells(ids))[i]
  {
    var ps := [name, Decimal(|ids|)] + DecimalCells(ids);
    forall i | 0 <= i < |ps| ensures ',' !in ps[i] {
      if i == 1 {
        DecimalHasNoComma(|ids|);
      } else if i >= 2 {
        assert ps[i] == Decimal(ids[i - 2]);
        DecimalHasNoComma(ids[i - 2]);
      }
    }
  }

  /** The cells of a written row are its name, its count and its ids. */
  lemma RowLineCells(name: string, ids: seq<nat>)
    requires ',' !in name
    ensures Cells(RowLine(name, ids)) == [name, Decimal(|ids|)] + DecimalCells(ids)
  {
    var ps := [name, Decimal(|ids|)] + DecimalCells(ids);
    RowCellsNoComma(name, ids);
    assert ps[|ps| - 1] == if ids == [] then Decimal(|ids|) else Decimal(ids[|ids| - 1]);
    CellsJoin(ps);
  }

  /** The id cells of a written row read back as its ids. */
  lemma DecimalIdsReadBack(line: string, name: string, ids: seq<nat>)
    requires forall i :: 0 <= i < |ids| ==> ids[i] <= IntMax
    ensures IdsOf(line, [name, Decimal(|ids|)] + DecimalCells(ids), 1, |ids|) == Ok(ids)
  {
    var ps := [name, Decimal(|ids|)] + DecimalCells(ids);
    forall i | 0 <= i < |ids| ensures ids[i] < TwoTo32 && StoI(IdCell(line, ps, 1, i)) == Ok(ids[i]) {
      assert IdCell(line, ps, 1, i) == ps[2 + i] == Decimal(ids[i]);
      StoIDecimal(ids[i]);
    }
    IdsOfEach(line, ps, 1, ids, |ids|);
    assert ids[..|ids|] == ids;
  }

  /** The cells of a written row read back as its name, its count and its ids. */
  lemma RowCellsReadBack(line: string, name: string, ids: seq<nat>)
    requires TrimTrailing(name) == name
    requires 1 <= |ids| <= IntMax
    requires forall i :: 0 <= i < |ids| ==> ids[i] <= IntMax
    ensures RowOfCells(line, [name, Decimal(|ids|)] + DecimalCells(ids), 0, 1) == Ok(NodeRow([name], [|ids|], ids))
  {
    var ps := [name, Decimal(|ids|)] + DecimalCells(ids);
    DecimalHasNoComma(|ids|);
    DecimalNotZero(|ids|);
    assert !ZeroMark(ps);
    StoIDecimal(|ids|);
    DecimalIdsReadBack(line, name, ids);
  }

  /**
   * A row written with name, count and ids reads back as that name, count
   * and ids, when the name has no ',' and no trailing white space, the
   * count is at least one (a count of 0 is the "0" that ends the line), and
   * the numbers fit in an `int`.
   */
  lemma RowLineReadsBack(name: string, ids: seq<nat>)
    requires ',' !in name && (name == [] || name[|name| - 1] !in TrimSet)
    requires 1 <= |ids| <= IntMax
    requires forall i :: 0 <= i < |ids| ==> ids[i] <= IntMax
    ensures RowOf(RowLine(name, ids), 0, 1) == Ok(NodeRow([name], [|ids|], ids))
  {
    RowLineCells(name, ids);
    assert TrimTrailing(name) == name;
    RowCellsReadBack(RowLine(name, ids), name, ids);
  }

  /** Everything the file's lines add, or the first error. */
  function ReadRows(lines: seq<string>, bcol: nat, ocol: nat): Result<NodeRow>
  {
    if lines == [] then Ok(NodeRow([], [], []))
    else
      match ReadRows(lines[..|lines| - 1], bcol, ocol)
      case Err(e) => Err(e)
      case Ok(t) =>
        match RowOf(lines[|lines| - 1], bcol, ocol)
        case Err(e) => Err(e)
        case Ok(row) => Ok(NodeRow(t.names + row.names, t.offsets + row.offsets, t.ids + row.ids))
  }

  lemma SumAppend(a: seq<nat>, b: seq<nat>)
    requires |b| <= 1
    ensures Sum(a + b) == Sum(a) + Sum(b)
  {
    if |b| == 1 {
      assert (a + b)[..|a + b| - 1] == a;
      assert b[..0] == [];
    } else {
      assert a + b == a;
    }
  }

  /** The id list always holds exactly the ids the counts announce, each below 2^32. */
  lemma {:induction false} ReadRowsShape(lines: seq<string>, bcol: nat, ocol: nat)
    requires ReadRows(lines, bcol, ocol).Ok?
    ensures |ReadRows(lines, bcol, ocol).value.ids| == Sum(ReadRows(lines, bcol, ocol).value.offsets)
    ensures forall i :: 0 <= i < |ReadRows(lines, bcol, ocol).value.ids| ==> ReadRows(lines, bcol, ocol).value.ids[i] < TwoTo32
  {
    if lines != [] {
      var init := lines[..|lines| - 1];
      ReadRowsShape(init, bcol, ocol);
      var t := ReadRows(init, bcol, ocol).value;
      var row := RowOf(lines[|lines| - 1], bcol, ocol).value;
      RowShape(lines[|lines| - 1], bcol, ocol);
      SumAppend(t.offsets, row.offsets);
      var ids := t.ids + row.ids;
      forall i | 0 <= i < |ids| ensures ids[i] < TwoTo32 {
        if i >= |t.ids| {
          assert ids[i] == row.ids[i - |t.ids|];
        }
      }
    }
  }

  lemma {:induction false} ReadRowsErrorPersists(lines: seq<string>, bcol: nat, ocol: nat, n: nat)
    requires n <= |lines| && ReadRows(lines[..n], bcol, ocol).Err?
    ensures ReadRows(lines, bcol, ocol) == ReadRows(lines[..n], bcol, ocol)
    decreases |lines| - n
  {
    if n < |lines| {
      var m := |lines| - 1;
      assert lines[..m][..n] == lines[..n];
      ReadRowsErrorPersists(lines[..m], bcol, ocol, n);
    } else {
      assert lines[..n] == lines;
    }
  }

  /** The ids of block `i`: the `offsets[i]` ids after those of the blocks before it. */
  function Group(ids: seq<nat>, offsets: seq<nat>, i: nat): (g: seq<nat>)
    requires i < |offsets| && Sum(offsets) <= |ids|
    ensures |g| == offsets[i]
  {
    SumSnoc(offsets, i);
    SumPrefix(offsets, i + 1);
    ids[Sum(offsets[..i])..Sum(offsets[..i + 1])]
  }

  /** Where group `i` lies in the ids, and where the next one starts. */
  lemma GroupAt(ids: seq<nat>, offsets: seq<nat>, i: nat)
    requires i < |offsets| && Sum(offsets) <= |ids|
    ensures Sum(offsets[..i + 1]) == Sum(offsets[..i]) + offsets[i] <= |ids|
    ensures Group(ids, offsets, i) == ids[Sum(offsets[..i])..Sum(offsets[..i]) + offsets[i]]
  {
    SumSnoc(offsets, i);
    SumPrefix(offsets, i + 1);
  }

  /** The first `n` groups one after the other. */
  function Groups(ids: seq<nat>, offsets: seq<nat>, n: nat): seq<nat>
    requires n <= |offsets| && Sum(offsets) <= |ids|
  {
    if n == 0 then []
    else
      Groups(ids, offsets, n - 1) + Group(ids, offsets, n - 1)
  }

  /** The groups are consecutive and together cover the ids of the first `n` blocks. */
  lemma {:induction false} GroupsCover(ids: seq<nat>, offsets: seq<nat>, n: nat)
    requires n <= |offsets| && Sum(offsets) <= |ids|
    ensures Sum(offsets[..n]) <= |ids| && Groups(ids, offsets, n) == ids[..Sum(offsets[..n])]
  {
    SumPrefix(offsets, n);
    if n > 0 {
      SumSnoc(offsets, n - 1);
      GroupsCover(ids, offsets, n - 1);
      assert ids[..Sum(offsets[..n])] == ids[..Sum(offsets[..n - 1])] + Group(ids, offsets, n - 1);
    }
  }

  /** The node tags the first `n` nodeset rounds add. */
  ghost function NodesetTags(ids: seq<nat>, offsets: seq<nat>, names: seq<string>, boundaryId: string -> int,
                             present: set<nat>, n: nat): set<(nat, int)>
    requires n <= |offsets| && n <= |names| && Sum(offsets) <= |ids|
  {
    if n == 0 then {}
    else
      NodesetTags(ids, offsets, names, boundaryId, present, n - 1)
      + IdTags(Group(ids, offsets, n - 1), [boundaryId(names[n - 1])], present)
  }

  /** A node carries a tag exactly when it exists here and is in the group of a block with that boundary id. */
  lemma {:induction false} NodesetTagsMembers(ids: seq<nat>, offsets: seq<nat>, names: seq<string>,
                                              boundaryId: string -> int, present: set<nat>, n: nat, x: nat, b: int)
    requires n <= |offsets| && n <= |names| && Sum(offsets) <= |ids|
    ensures (x, b) in NodesetTags(ids, offsets, names, boundaryId, present, n) <==>
      x in present && exists i :: 0 <= i < n && x in Group(ids, offsets, i) && b == boundaryId(names[i])
  {
    if n > 0 {
      NodesetTagsMembers(ids, offsets, names, boundaryId, present, n - 1, x, b);
      var g := Group(ids, offsets, n - 1);
      assert (x, b) in IdTags(g, [boundaryId(names[n - 1])], present) <==>
             x in g && x in present && b == boundaryId(names[n - 1]);
    }
  }

  class BlockFromNodesGeneratorFromFile {
    var blockNames: seq<string>
    var nodeOffsets: seq<nat>
    var nodeIds: seq<nat>

    /** The id list holds exactly the ids the counts announce. */
    ghost predicate Valid()
      reads this
    {
      |nodeIds| == Sum(nodeOffsets)
    }

    constructor()
      ensures blockNames == [] && nodeOffsets == [] && nodeIds == []
    {
      blockNames, nodeOffsets, nodeIds := [], [], [];
    }

    /** The `getline` loop over the cells of one line. */
    static method ParseRow(line: string, bcol: nat, ocol: nat) returns (r: Result<NodeRow>)
      ensures r == RowOf(line, bcol, ocol)
    {
      r := ParseCells(line, Cells(line), bcol, ocol);
    }

    static method ParseCells(line: string, cells: seq<string>, bcol: nat, ocol: nat) returns (r: Result<NodeRow>)
      ensures r == RowOfCells(line, cells, bcol, ocol)
    {
      var names: seq<string> := [];
      var c := 0;
      while c < |cells|
        invariant c <= |cells| && c <= ocol
        invariant c > 1 ==> !ZeroMark(cells)
        invariant names == if bcol < c then [TrimTrailing(cells[bcol])] else []
      {
        var cell := TrimTrailing(cells[c]);
        if c == 1 && cell == "0" {
          break;
        }
        if c == bcol {
          names := names + [cell];
        }
        if c == ocol {
          assert Runs(cells, ocol, ocol);
          assert Runs(cells, bcol, ocol) <==> bcol <= c;
          assert names == if bcol <= c then [TrimTrailing(cells[bcol])] else [];
          var v := StoI(cell);
          if v.Err? {
            return Err(v.error);
          }
          var ids := ReadIds(line, cells, ocol, ToU32(v.value));
          if ids.Err? {
            return Err(ids.error);
          }
          return Ok(NodeRow(names, [ToU32(v.value)], ids.value));
        }
        c := c + 1;
      }
      assert !Runs(cells, ocol, ocol);
      assert Runs(cells, bcol, ocol) <==> bcol < c;
      return Ok(NodeRow(names, [], []));
    }

    /** The inner loop reading `k` node ids with `getline` and `stoi`. */
    static method ReadIds(line: string, cells: seq<string>, ocol: nat, k: nat) returns (r: Result<seq<nat>>)
      requires ocol < |cells|
      ensures r == IdsOf(line, cells, ocol, k)
    {
      var cell := TrimTrailing(cells[ocol]);
      var pos := ocol + 1;
      var ids: seq<nat> := [];
      var i := 0;
      while i < k
        invariant 0 <= i <= k
        invariant pos == if ocol + 1 + i <= |cells| then ocol + 1 + i else |cells|
        invariant IdsOf(line, cells, ocol, i) == Ok(ids)
        invariant i == 0 ==> cell == TrimTrailing(cells[ocol])
        invariant i > 0 ==> cell == IdCell(line, cells, ocol, i - 1)
      {
        if pos < |cells| {
          cell := cells[pos];
          pos := pos + 1;
        } else {
          IdCellPastEnd(line, cells, ocol, i);
          cell := CellPastEnd(line, cell);
        }
        assert cell == IdCell(line, cells, ocol, i);
        var v := StoI(cell);
        if v.Err? {
          IdsErrorPersists(line, cells, ocol, i + 1, k);
          return Err(v.error);
        }
        IdsOfSnoc(line, cells, ocol, i, ids, v.value);
        ids := ids + [ToU32(v.value)];
        i := i + 1;
      }
      return Ok(ids);
    }

    static lemma {:induction false} IdsErrorPersists(line: string, cells: seq<string>, ocol: nat, n: nat, k: nat)
      requires ocol < |cells| && n <= k && IdsOf(line, cells, ocol, n).Err?
      ensures IdsOf(line, cells, ocol, k) == IdsOf(line, cells, ocol, n)
      decreases k - n
    {
      if n < k {
        IdsErrorPersists(line, cells, ocol, n, k - 1);
      }
    }

    /**
     * The constructor's reading of the file: every line after the optional
     * byte-order mark, in order; a `stoi` failure ends the construction.
     */
    method Load(content: string, bcol: nat, ocol: nat) returns (o: Outcome)
      modifies this
      ensures o.Pass? ==> ReadRows(ReadLines(content), bcol, ocol) == Ok(NodeRow(blockNames, nodeOffsets, nodeIds))
      ensures o.Fail? ==> ReadRows(ReadLines(content), bcol, ocol) == Err(o.error)
      ensures o.Pass? ==> Valid()
    {
      blockNames, nodeOffsets, nodeIds := [], [], [];
      var lines := ReadLines(content);
      var n := 0;
      while n < |lines|
        invariant 0 <= n <= |lines|
        invariant ReadRows(lines[..n], bcol, ocol) == Ok(NodeRow(blockNames, nodeOffsets, nodeIds))
      {
        assert lines[..n + 1][..n] == lines[..n];
        var row := ParseRow(lines[n], bcol, ocol);
        if row.Err? {
          ReadRowsErrorPersists(lines, bcol, ocol, n + 1);
          return Fail(row.error);
        }
        blockNames := blockNames + row.value.names;
        nodeOffsets := nodeOffsets + row.value.offsets;
        nodeIds := nodeIds + row.value.ids;
        n := n + 1;
      }
      assert lines[..n] == lines;
      ReadRowsShape(lines, bcol, ocol);
      return Pass;
    }

    /**
     * `GenerateNodeSet`: tag every node of `nodeIds` that this process
     * holds with `bid`, name nodeset `bid`, and mark the mesh unprepared
     * unless a `BreakMeshByBlockGenerator` exists.
     */
    static method GenerateNodeSet(mesh: Mesh, nodeIds: seq<nat>, bid: int, name: string, hasBreakMeshByBlock: bool)
      modifies mesh`nodeTags, mesh`nodesetNames, mesh`prepared
      ensures mesh.nodeTags == old(mesh.nodeTags) + IdTags(nodeIds, [bid], mesh.nodes)
      ensures mesh.nodesetNames == old(mesh.nodesetNames)[bid := name]
      ensures mesh.prepared == (old(mesh.prepared) && hasBreakMeshByBlock)
    {
      mesh.TagNodesById(nodeIds, [bid]);
      mesh.NameNodesets([bid], [name]);
      if !hasBreakMeshByBlock {
        mesh.SetIsntPrepared();
      }
    }

    /**
     * Round `i` of the first loop: slice block `i`'s ids from `idx` on and
     * run `GenerateNodeSet` on them, extending the first `i` rounds' tags,
     * names and preparedness (from `tags0`, `names0`, `prep0`) by one.
     */
    method NodesetRound(mesh: Mesh, boundaryId: string -> int, hasBreakMeshByBlock: bool, i: nat, idx: nat,
                        ghost tags0: set<(nat, int)>, ghost names0: map<int, string>, ghost prep0: bool)
      returns (next: nat)
      requires Valid() && i < |blockNames| && i < |nodeOffsets| && idx == Sum(nodeOffsets[..i])
      requires mesh.nodeTags == tags0 + NodesetTags(nodeIds, nodeOffsets, blockNames, boundaryId, mesh.nodes, i)
      requires mesh.nodesetNames == Overwrite.Assign(names0, BoundaryIds(boundaryId, blockNames)[..i], blockNames[..i])
      requires mesh.prepared == (prep0 && (i == 0 || hasBreakMeshByBlock))
      modifies mesh`nodeTags, mesh`nodesetNames, mesh`prepared
      ensures next == Sum(nodeOffsets[..i + 1])
      ensures mesh.nodeTags == tags0 + NodesetTags(nodeIds, nodeOffsets, blockNames, boundaryId, mesh.nodes, i + 1)
      ensures mesh.nodesetNames == Overwrite.Assign(names0, BoundaryIds(boundaryId, blockNames)[..i + 1], blockNames[..i + 1])
      ensures mesh.prepared == (prep0 && hasBreakMeshByBlock)
    {
      var bids := BoundaryIds(boundaryId, blockNames);
      GroupAt(nodeIds, nodeOffsets, i);
      var group := nodeIds[idx..idx + nodeOffsets[i]];
      GenerateNodeSet(mesh, group, boundaryId(blockNames[i]), blockNames[i], hasBreakMeshByBlock);
      next := idx + nodeOffsets[i];
      assert bids[..i] + [bids[i]] == bids[..i + 1];
      Overwrite.AssignStep(names0, bids[..i], blockNames, bids[i]);
    }

    /**
     * The first loop of `generate()` with `GenerateNodeSet`: tag the nodes
     * of each block's group with the block's boundary id, name the nodeset
     * after the block, and mark the mesh unprepared unless a
     * `BreakMeshByBlockGenerator` exists. With more block names than counts
     * the round after the last count reads `_node_offsets` past its end and
     * the run stops there.
     */
    method TagNodesets(mesh: Mesh, boundaryId: string -> int, hasBreakMeshByBlock: bool) returns (o: Outcome)
      requires Valid()
      modifies mesh`nodeTags, mesh`nodesetNames, mesh`prepared
      ensures var n := Min(|blockNames|, |nodeOffsets|);
        mesh.nodeTags == old(mesh.nodeTags) + NodesetTags(nodeIds, nodeOffsets, blockNames, boundaryId, mesh.nodes, n)
        && mesh.nodesetNames == Overwrite.Assign(old(mesh.nodesetNames), BoundaryIds(boundaryId, blockNames)[..n], blockNames[..n])
        && mesh.prepared == (old(mesh.prepared) && (n == 0 || hasBreakMeshByBlock))
      ensures o.Fail? <==> |blockNames| > |nodeOffsets|
      ensures o.Fail? ==> o.error == OutOfBounds(|nodeOffsets|)
    {
      var bids := BoundaryIds(boundaryId, blockNames);
      ghost var present := mesh.nodes;
      var idx := 0;
      var i := 0;
      while i < |blockNames|
        invariant 0 <= i <= |blockNames| && i <= |nodeOffsets|
        invariant idx == Sum(nodeOffsets[..i])
        invariant mesh.nodes == present
        invariant mesh.nodeTags == old(mesh.nodeTags) + NodesetTags(nodeIds, nodeOffsets, blockNames, boundaryId, present, i)
        invariant mesh.nodesetNames == Overwrite.Assign(old(mesh.nodesetNames), bids[..i], blockNames[..i])
        invariant mesh.prepared == (old(mesh.prepared) && (i == 0 || hasBreakMeshByBlock))
      {
        if i == |nodeOffsets| {
          assert Min(|blockNames|, |nodeOffsets|) == i;
          return Fail(OutOfBounds(i));
        }
        idx := NodesetRound(mesh, boundaryId, hasBreakMeshByBlock, i, idx, old(mesh.nodeTags), old(mesh.nodesetNames), old(mesh.prepared));
        i := i + 1;
      }
      assert Min(|blockNames|, |nodeOffsets|) == i;
      return Pass;
    }

    /**
     * The nodeset rounds followed by one `build_side_list_from_node_list`
     * adding `derived`, which a read past the counts' end never reaches.
     */
    method MarkNodesets(mesh: Mesh, boundaryId: string -> int, hasBreakMeshByBlock: bool, derived: seq<SideTriple>)
      returns (o: Outcome)
      requires Valid()
      modifies mesh`nodeTags, mesh`nodesetNames, mesh`prepared, mesh`sides
      ensures var n := Min(|blockNames|, |nodeOffsets|);
        mesh.nodeTags == old(mesh.nodeTags) + NodesetTags(nodeIds, nodeOffsets, blockNames, boundaryId, mesh.nodes, n)
        && mesh.nodesetNames == Overwrite.Assign(old(mesh.nodesetNames), BoundaryIds(boundaryId, blockNames)[..n], blockNames[..n])
      ensures o.Fail? <==> |blockNames| > |nodeOffsets|
      ensures o.Fail? ==> o.error == OutOfBounds(|nodeOffsets|) && mesh.sides == old(mesh.sides)
      ensures o.Pass? ==> mesh.sides == old(mesh.sides) + derived
    {
      o := TagNodesets(mesh, boundaryId, hasBreakMeshByBlock);
      if o.Pass? {
        mesh.BuildSideListFromNodeList(derived);
      }
    }

    /**
     * The block loop of `generate()`: one `GenerateBlock` round per block,
     * round `i` promoting the sides on block `i`'s boundary to a block of
     * the same name, leaving the nodesets as they are.
     */
    method PromoteBlocks(mesh: Mesh, boundaryId: string -> int, exs: seq<Exchange>, reconnect: set<nat> -> set<nat>,
                         ghost elems0: map<nat, Elem>, ghost sides0: seq<SideTriple>, ghost next0: nat, ghost nextU0: nat,
                         ghost names0: map<nat, string>)
      returns (o: Outcome, ghost blocks: seq<nat>, ghost rounds: seq<RoundTrace>)
      requires mesh.Valid() && |exs| == |blockNames|
      requires mesh.Distributed() ==> forall i :: 0 <= i < |exs| ==> |exs[i].needFlags| == mesh.nProcs
      requires mesh.elems == elems0 && mesh.sides == sides0 && mesh.nextElemId == next0 && mesh.nextUniqueId == nextU0
      requires mesh.subdomainNames == names0
      modifies mesh
      ensures mesh.Valid()
      ensures mesh.allowRemoteElementRemoval == old(mesh.allowRemoteElementRemoval)
      ensures mesh.skipPartitioning == old(mesh.skipPartitioning)
      ensures mesh.nodeTags == old(mesh.nodeTags) && mesh.nodesetNames == old(mesh.nodesetNames)
      ensures o.Pass? <==> |blocks| == |blockNames|
      ensures RunOf(mesh.Distributed(), mesh.procId, Targets(BoundaryIds(boundaryId, blockNames)), exs,
                    elems0, sides0, next0, nextU0, blocks, o, rounds, mesh.elems, mesh.sides)
      ensures mesh.subdomainNames == Overwrite.Assign(names0, blocks, blockNames[..|blocks|])
    {
      var targets := Targets(BoundaryIds(boundaryId, blockNames));
      ghost var tags0, nodesets0 := mesh.nodeTags, mesh.nodesetNames;
      o, blocks, rounds := mesh.AddBlocks(targets, blockNames, exs, reconnect);
      assert mesh.nodeTags == tags0 && mesh.nodesetNames == nodesets0;
      assert blockNames == old(blockNames);
      assert RunOf(mesh.Distributed(), mesh.procId, targets, exs, elems0, sides0, next0, nextU0, blocks, o, rounds, mesh.elems, mesh.sides);
    }

    /**
     * `generate()`: the nodeset rounds, one `build_side_list_from_node_list`
     * (adding `derived`), then one `GenerateBlock` round per block, round
     * `i` promoting the sides on block `i`'s boundary to a block of the same
     * name (`exs[i]` is what the other processes contribute to round `i`).
     * With more block names than counts the run stops in the nodeset loop,
     * before any side is derived or block made.
     */
    method Generate(mesh: Mesh, boundaryId: string -> int, hasBreakMeshByBlock: bool, derived: seq<SideTriple>,
                    exs: seq<Exchange>, reconnect: set<nat> -> set<nat>)
      returns (o: Outcome, ghost blocks: seq<nat>, ghost rounds: seq<RoundTrace>)
      requires Valid()
      requires mesh.Valid() && |exs| == |blockNames|
      requires mesh.Distributed() ==> forall i :: 0 <= i < |exs| ==> |exs[i].needFlags| == mesh.nProcs
      modifies mesh
      ensures mesh.Valid()
      ensures var n := Min(|blockNames|, |nodeOffsets|);
        mesh.nodeTags == old(mesh.nodeTags) + NodesetTags(nodeIds, nodeOffsets, blockNames, boundaryId, old(mesh.nodes), n)
        && mesh.nodesetNames == Overwrite.Assign(old(mesh.nodesetNames), BoundaryIds(boundaryId, blockNames)[..n], blockNames[..n])
      ensures mesh.allowRemoteElementRemoval == old(mesh.allowRemoteElementRemoval)
      ensures mesh.skipPartitioning == old(mesh.skipPartitioning)
      ensures |blockNames| > |nodeOffsets| ==>
        o == Fail(OutOfBounds(|nodeOffsets|)) && blocks == [] && rounds == []
        && mesh.elems == old(mesh.elems) && mesh.sides == old(mesh.sides) && mesh.subdomainNames == old(mesh.subdomainNames)
      ensures |blockNames| <= |nodeOffsets| ==>
        (o.Pass? <==> |blocks| == |blockNames|)
        && RunOf(mesh.Distributed(), mesh.procId, Targets(BoundaryIds(boundaryId, blockNames)), exs,
                 old(mesh.elems), old(mesh.sides) + derived, old(mesh.nextElemId), old(mesh.nextUniqueId),
                 blocks, o, rounds, mesh.elems, mesh.sides)
        && mesh.subdomainNames == Overwrite.Assign(old(mesh.subdomainNames), blocks, blockNames[..|blocks|])
    {
      blocks, rounds := [], [];
      o := MarkNodesets(mesh, boundaryId, hasBreakMeshByBlock, derived);
      if o.Fail? {
        return;
      }
      o, blocks, rounds := PromoteBlocks(mesh, boundaryId, exs, reconnect, old(mesh.elems), old(mesh.sides) + derived,
                                         old(mesh.nextElemId), old(mesh.nextUniqueId), old(mesh.subdomainNames));
    }
  }
}
