/**
 * The text layer under every table reader of the repository: the byte-order
 * mark check done before the first line, `std::getline` on a file (delimiter
 * '\n') and on a line (delimiter ','), the trailing-whitespace trim
 * `cell.erase(cell.find_last_not_of(" \n\r\t") + 1)`, `std::stoi`, and the
 * unsigned casts applied to its result. A file is its content as a `string`
 * in which every `char` stands for one byte.
 */
module TableText {
  import opened Errors

  // ---------------------------------------------------------------------
  // Splitting

  /** The pieces of `s` between the occurrences of `d` (always at least one). */
  function SplitOn(s: string, d: char): (r: seq<string>)
    ensures |r| >= 1
    ensures forall i :: 0 <= i < |r| ==> d !in r[i]
  {
    if s == [] then [""]
    else
      var rest := SplitOn(s[1..], d);
      if s[0] == d then [""] + rest else [[s[0]] + rest[0]] + rest[1..]
  }

  /** The pieces glued back together with `d` between them. */
  function Join(ps: seq<string>, d: char): string
    requires |ps| >= 1
  {
    if |ps| == 1 then ps[0] else ps[0] + [d] + Join(ps[1..], d)
  }

  lemma {:induction false} JoinSplit(s: string, d: char)
    ensures Join(SplitOn(s, d), d) == s
  {
    if s != [] {
      JoinSplit(s[1..], d);
      var rest := SplitOn(s[1..], d);
      if s[0] != d {
        if |rest| == 1 {
        } else {
          assert rest == [rest[0]] + rest[1..];
          assert Join(rest, d) == rest[0] + [d] + Join(rest[1..], d);
        }
      }
    }
  }

  lemma {:induction false} SplitJoin(ps: seq<string>, d: char)
    requires |ps| >= 1
    requires forall i :: 0 <= i < |ps| ==> d !in ps[i]
    ensures SplitOn(Join(ps, d), d) == ps
  {
    if |ps| == 1 {
      SplitNoDelimiter(ps[0], d);
    } else {
      SplitJoin(ps[1..], d);
      SplitPrefix(ps[0], Join(ps[1..], d), d);
      assert ps == [ps[0]] + ps[1..];
    }
  }

  lemma {:induction false} SplitNoDelimiter(s: string, d: char)
    requires d !in s
    ensures SplitOn(s, d) == [s]
  {
    if s != [] {
      assert s[0] != d;
      assert d !in s[1..] by {
        forall i | 0 <= i < |s[1..]| ensures s[1..][i] != d {
          assert s[1..][i] == s[i + 1];
        }
      }
      SplitNoDelimiter(s[1..], d);
      assert [s[0]] + s[1..] == s;
    }
  }

  /** Splitting `a + [d] + b` where `a` has no `d` gives `a` followed by the pieces of `b`. */
  lemma {:induction false} SplitPrefix(a: string, b: string, d: char)
    requires d !in a
    ensures SplitOn(a + [d] + b, d) == [a] + SplitOn(b, d)
  {
    if a == [] {
      assert a + [d] + b == [d] + b;
      assert ([d] + b)[1..] == b;
    } else {
      SplitPrefix(a[1..], b, d);
      assert (a + [d] + b)[1..] == a[1..] + [d] + b;
      assert [a[0]] + a[1..] == a;
    }
  }

  /**
   * What successive `std::getline(stream, token, d)` calls deliver from `s`:
   * every piece, except that an empty last piece is never delivered (the
   * call that would read it extracts nothing and fails).
   */
  function Tokens(s: string, d: char): (r: seq<string>)
    ensures |r| <= |SplitOn(s, d)|
    ensures forall i :: 0 <= i < |r| ==> r[i] == SplitOn(s, d)[i]
    ensures |r| < |SplitOn(s, d)| <==> SplitOn(s, d)[|SplitOn(s, d)| - 1] == ""
  {
    var ps := SplitOn(s, d);
    if ps[|ps| - 1] == "" then ps[..|ps| - 1] else ps
  }

  lemma {:induction false} TokensOfEmpty(d: char)
    ensures Tokens("", d) == []
  {
  }

  /** The cells of one line. */
  function Cells(line: string): seq<string> { Tokens(line, ',') }

  /** Cells without ',' whose last one is not empty are the cells of the line they join into. */
  lemma CellsJoin(ps: seq<string>)
    requires |ps| >= 1 && ps[|ps| - 1] != ""
    requires forall i :: 0 <= i < |ps| ==> ',' !in ps[i]
    ensures Cells(Join(ps, ',')) == ps
  {
    SplitJoin(ps, ',');
    TokensOfPieces(Join(ps, ','), ',', ps);
  }

  /** When the last piece is not empty, `getline` delivers every piece. */
  lemma TokensOfPieces(s: string, d: char, ps: seq<string>)
    requires SplitOn(s, d) == ps && |ps| >= 1 && ps[|ps| - 1] != ""
    ensures Tokens(s, d) == ps
  {
  }

  /**
   * The value left in `cell` by a `std::getline(ss, cell, ',')` issued after
   * every cell of `line` has been read, when `lastRead` is what `cell` held.
   * If the line ends with ',', the stream has not yet seen its end, so the
   * call clears `cell` before failing; otherwise the end-of-file flag is
   * already set and the call fails without touching `cell`.
   */
  function CellPastEnd(line: string, lastRead: string): string
  {
    if |line| > 0 && line[|line| - 1] == ',' then "" else lastRead
  }

  // ---------------------------------------------------------------------
  // Byte-order mark and lines

  const Bom: string := ['\U{EF}', '\U{BB}', '\U{BF}']

  /** The read position after `skipBOM`, or `Failed` when the stream is left unusable. */
  datatype ReadStart = Start(pos: nat) | Failed

  /**
   * `skipBOM`: read three bytes; unless they are EF BB BF, seek back to 0.
   * With fewer than three bytes the reads fail, and `seekg` cannot clear
   * the fail flag, so nothing can be read afterwards.
   */
  function SkipBom(content: string): (r: ReadStart)
    ensures r == Start(3) <==> |content| >= 3 && content[..3] == Bom
    ensures r == Start(0) <==> |content| >= 3 && content[..3] != Bom
    ensures r == Failed <==> |content| < 3
  {
    if |content| < 3 then Failed
    else if content[0] == Bom[0] && content[1] == Bom[1] && content[2] == Bom[2] then Start(3)
    else Start(0)
  }

  /** The lines the reading loop `while (std::getline(inFile, line))` sees. */
  function ReadLines(content: string): seq<string>
  {
    match SkipBom(content)
    case Failed => []
    case Start(p) => Tokens(content[p..], '\n')
  }

  /**
   * A byte-order mark changes nothing for a file of three bytes or more
   * that does not itself start with one.
   */
  lemma {:induction false} BomIsTransparent(s: string)
    requires |s| >= 3 && s[..3] != Bom
    ensures ReadLines(Bom + s) == ReadLines(s)
  {
    var c := Bom + s;
    assert c[..3] == Bom;
    assert c[3..] == s;
    assert s[0..] == s;
  }

  /**
   * Below three bytes the mark does matter: a short one-line file reads
   * nothing, while the same line after a byte-order mark is read.
   */
  lemma ShortFileNeedsBom(s: string)
    requires 1 <= |s| < 3 && '\n' !in s
    ensures ReadLines(s) == []
    ensures ReadLines(Bom + s) == [s]
  {
    var c := Bom + s;
    assert c[..3] == Bom;
    assert c[3..] == s;
    SplitNoDelimiter(s, '\n');
  }

  // ---------------------------------------------------------------------
  // Trailing-whitespace trim

  const TrimSet: set<char> := {' ', '\n', '\r', '\t'}

  /** `s.erase(s.find_last_not_of(" \n\r\t") + 1)` (all of `s` goes when it is all whitespace). */
  function TrimTrailing(s: string): (r: string)
    ensures |r| <= |s| && r == s[..|r|]
    ensures r == [] || r[|r| - 1] !in TrimSet
    ensures forall i :: |r| <= i < |s| ==> s[i] in TrimSet
  {
    if s == [] then []
    else if s[|s| - 1] in TrimSet then TrimTrailing(s[..|s| - 1])
    else s
  }

  // ---------------------------------------------------------------------
  // std::stoi and the unsigned casts

  const IntMin: int := -0x8000_0000
  const IntMax: int := 0x7FFF_FFFF

  /** The characters `isspace` accepts. */
  predicate IsSpace(c: char) { c == ' ' || c == '\t' || c == '\n' || c == '\U{0B}' || c == '\U{0C}' || c == '\r' }

  predicate IsDigit(c: char) { '0' <= c <= '9' }

  function SkipSpaces(s: string): (r: string)
    ensures |r| <= |s|
    ensures r == [] || !IsSpace(r[0])
  {
    if s != [] && IsSpace(s[0]) then SkipSpaces(s[1..]) else s
  }

  /** What `SkipSpaces` drops is a prefix of white space. */
  lemma {:induction false} SkipSpacesSuffix(s: string)
    ensures SkipSpaces(s) == s[|s| - |SkipSpaces(s)|..]
    ensures forall i :: 0 <= i < |s| - |SkipSpaces(s)| ==> IsSpace(s[i])
  {
    if s != [] && IsSpace(s[0]) {
      SkipSpacesSuffix(s[1..]);
      assert s[1..][|s[1..]| - |SkipSpaces(s[1..])|..] == s[|s| - |SkipSpaces(s)|..];
      forall i | 1 <= i < |s| - |SkipSpaces(s)| ensures IsSpace(s[i]) {
        assert s[1..][i - 1] == s[i];
      }
    }
  }

  /** Length of the leading run of decimal digits of `s`. */
  function DigitRun(s: string): (n: nat)
    ensures n <= |s|
  {
    if s != [] && IsDigit(s[0]) then 1 + DigitRun(s[1..]) else 0
  }

  /** The run is all digits and stops at the first character that is not one. */
  lemma {:induction false} DigitRunDigits(s: string)
    ensures forall i :: 0 <= i < DigitRun(s) ==> IsDigit(s[i])
    ensures DigitRun(s) < |s| ==> !IsDigit(s[DigitRun(s)])
  {
    if s != [] && IsDigit(s[0]) {
      DigitRunDigits(s[1..]);
      forall i | 1 <= i < DigitRun(s) ensures IsDigit(s[i]) {
        assert s[1..][i - 1] == s[i];
      }
    }
  }

  function DigitValue(c: char): nat
    requires IsDigit(c)
  {
    (c as int) - ('0' as int)
  }

  /** The number written by the decimal digits `ds`. */
  function DigitsValue(ds: string): nat
    requires forall i :: 0 <= i < |ds| ==> IsDigit(ds[i])
  {
    if ds == [] then 0
    else 10 * DigitsValue(ds[..|ds| - 1]) + DigitValue(ds[|ds| - 1])
  }

  /**
   * `std::stoi(s)`: leading white space is skipped, then an optional sign and
   * at least one digit are read, and whatever follows is ignored. No digit
   * is `std::invalid_argument`, a value outside `int` is `std::out_of_range`.
   */
  function StoI(s: string): (r: Result<int>)
    ensures r.Ok? ==> IntMin <= r.value <= IntMax
    ensures r.Err? ==> r.error == InvalidNumber || r.error == NumberOutOfRange
  {
    var t := SkipSpaces(s);
    var signed := t != [] && (t[0] == '+' || t[0] == '-');
    var u := if signed then t[1..] else t;
    var n := DigitRun(u);
    if n == 0 then Err(InvalidNumber)
    else
      DigitRunDigits(u);
      var ds := u[..n];
      assert forall i :: 0 <= i < |ds| ==> ds[i] == u[i];
      var m: int := DigitsValue(ds);
      var v: int := if signed && t[0] == '-' then -m else m;
      if v < IntMin || v > IntMax then Err(NumberOutOfRange) else Ok(v)
  }

  /** `std::to_string(n)` for a natural number. */
  function Decimal(n: nat): (r: string)
    ensures |r| >= 1
    ensures forall i :: 0 <= i < |r| ==> IsDigit(r[i])
  {
    if n < 10 then [('0' as int + n) as char]
    else Decimal(n / 10) + [('0' as int + n % 10) as char]
  }

  /** A decimal is a single cell: it has no ',' and nothing for `TrimTrailing` to remove. */
  lemma DecimalHasNoComma(n: nat)
    ensures ',' !in Decimal(n) && TrimTrailing(Decimal(n)) == Decimal(n)
  {
    var d := Decimal(n);
    assert IsDigit(d[|d| - 1]);
  }

  lemma {:induction false} DecimalValue(n: nat)
    ensures DigitsValue(Decimal(n)) == n
  {
    if n >= 10 {
      DecimalValue(n / 10);
      var r := Decimal(n);
      assert r[..|r| - 1] == Decimal(n / 10);
    }
  }

  lemma {:induction false} DigitRunAll(s: string)
    requires forall i :: 0 <= i < |s| ==> IsDigit(s[i])
    ensures DigitRun(s) == |s|
  {
    if s != [] {
      DigitRunAll(s[1..]);
    }
  }

  /** `std::stoi` reads back what `std::to_string` wrote. */
  lemma StoIDecimal(n: nat)
    requires n <= IntMax
    ensures StoI(Decimal(n)) == Ok(n)
  {
    var s := Decimal(n);
    assert IsDigit(s[0]) && !IsSpace(s[0]);
    assert SkipSpaces(s) == s;
    assert !(s[0] == '+' || s[0] == '-');
    DigitRunAll(s);
    assert s[..|s|] == s;
    DecimalValue(n);
    assert DigitsValue(s[..DigitRun(s)]) == n;
  }

  const TwoTo32: nat := 0x1_0000_0000
  const TwoTo16: nat := 0x1_0000

  /** Conversion of an `int` to `unsigned int` (reduction modulo 2^32). */
  function ToU32(v: int): (r: nat)
    ensures r < TwoTo32
    ensures 0 <= v < TwoTo32 ==> r == v
    ensures (r - v) % TwoTo32 == 0
  {
    v % TwoTo32
  }

  /** `static_cast<SubdomainID>` of an `int`, with the 16-bit subdomain id of libMesh. */
  function ToU16(v: int): (r: nat)
    ensures r < TwoTo16
    ensures 0 <= v < TwoTo16 ==> r == v
    ensures (r - v) % TwoTo16 == 0
  {
    v % TwoTo16
  }
}
