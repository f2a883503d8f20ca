/** What reading a text gives, line by line: which faults, which columns a row is read under, and what the program's
    magic, directives and rows are. */
module TextFaults {
  import opened Common
  import opened Prefixes
  import opened Text
  import opened CanonicalText
  import opened CanonicalRoundTrip
  import opened UnmarkedText

  // ----- Kinds of lines -----

  function Body(raw: string): string {
    LStrip(RStrip(raw))
  }

  predicate IsMarkup(raw: string) {
    Body(raw) != "" && !(";;" <= Body(raw)) && Body(raw)[0] == '#'
  }

  predicate IsRow(raw: string) {
    Body(raw) != "" && !(";;" <= Body(raw)) && Body(raw)[0] != '#'
  }

  predicate Separated(raw: string) {
    SEP in RStrip(raw) || ALIAS in RStrip(raw)
  }

  /** The pieces of a separated line, by its own separator or, if it has none, by the alias. */
  function Pieces(raw: string): seq<string> {
    Split(RStrip(raw), if SEP in RStrip(raw) then SEP else ALIAS)
  }

  /** The first line that says the magic. */
  predicate SaysMagic(l: Locale, lines: seq<string>, i: nat)
    requires i < |lines|
  {
    Marks(l, lines[i]) && forall j :: 0 <= j < i ==> !Marks(l, lines[j])
  }

  predicate NamesColumns(l: Locale, lines: seq<string>, i: nat)
    requires i < |lines|
  {
    IsMarkup(lines[i]) && !SaysMagic(l, lines, i) && ReadDirective(l, Body(lines[i])).Directive?
    && ReadDirective(l, Body(lines[i])).key == "COLUMNS"
  }

  /** The columns in force after n lines: those of the last line that names columns, or the default ones. */
  function InForce(l: Locale, lines: seq<string>, n: nat): seq<string>
    requires n <= |lines|
  {
    if n == 0 then FullColumns()
    else if NamesColumns(l, lines, n - 1) then ReadColumns(l, ReadDirective(l, Body(lines[n - 1])).value)
    else InForce(l, lines, n - 1)
  }

  // ----- What one line does -----

  lemma RowLine(l: Locale, s: State, raw: string)
    requires IsRow(raw)
    ensures ReadLine(l, s, raw) == ReadRow(l, s, RStrip(raw))
  {
  }

  lemma MarkupLine(l: Locale, s: State, raw: string)
    requires IsMarkup(raw)
    ensures ReadLine(l, s, raw) == ReadMarkup(l, s, Body(raw))
    ensures Marks(l, raw) <==> l.magic(Body(raw)).Some?
  {
  }

  lemma OtherLine(l: Locale, s: State, raw: string)
    requires !IsRow(raw) && !IsMarkup(raw)
    ensures ReadLine(l, s, raw) == s && !Marks(l, raw)
  {
  }

  lemma RowsDoNotMark(l: Locale, raw: string)
    requires IsRow(raw)
    ensures !Marks(l, raw)
  {
  }

  /** Reading one line more. */
  lemma ReadNext(l: Locale, lines: seq<string>, i: nat, n: nat)
    requires n == i + 1 <= |lines|
    ensures ReadLines(l, lines[..n]) == ReadLine(l, ReadLines(l, lines[..i]), lines[i])
  {
    assert lines[..n] == lines[..i] + [lines[i]];
    ReadOn(l, BEFORE, lines[..i], [lines[i]]);
    ReadOne(l, ReadLines(l, lines[..i]), lines[i]);
  }

  ghost predicate Marked(l: Locale, lines: seq<string>, n: nat)
    requires n <= |lines|
  {
    exists i :: 0 <= i < n && Marks(l, lines[i])
  }

  lemma MagicOnceMarked(l: Locale, lines: seq<string>, n: nat)
    requires n <= |lines|
    ensures ReadLines(l, lines[..n]).magic.Some? <==> Marked(l, lines, n)
  {
    ReadingMarks(l, BEFORE, lines[..n]);
    forall i | 0 <= i < n
      ensures lines[..n][i] == lines[i]
    {
    }
  }

  /** A markup line that is not the magic line is read as a directive. */
  lemma DirectiveLine(l: Locale, lines: seq<string>, i: nat, s: State)
    requires i < |lines| && IsMarkup(lines[i]) && !SaysMagic(l, lines, i)
    requires s.magic.Some? <==> Marked(l, lines, i)
    ensures ReadLine(l, s, lines[i]) ==
            match ReadDirective(l, Body(lines[i]))
            case NoDirective => s
            case Directive(key, value) =>
              if key == "COLUMNS" then
                s.(columns := Some(ReadColumns(l, value)), faults := s.faults + Extensions(ReadColumns(l, value)))
              else s.(directives := s.directives[key := value])
  {
    MarkupLine(l, s, lines[i]);
  }

  lemma TheMagicLine(l: Locale, lines: seq<string>, i: nat, s: State)
    requires i < |lines| && SaysMagic(l, lines, i) && (s.magic.Some? <==> Marked(l, lines, i))
    ensures l.magic(Body(lines[i])).Some? && ReadLine(l, s, lines[i]) == s.(magic := l.magic(Body(lines[i])))
  {
    MarkupLine(l, s, lines[i]);
  }

  // ----- Columns -----

  lemma ColumnsNext(l: Locale, lines: seq<string>, i: nat, s: State)
    requires i < |lines| && (s.magic.Some? <==> Marked(l, lines, i)) && CurrentColumns(s) == InForce(l, lines, i)
    ensures CurrentColumns(ReadLine(l, s, lines[i])) == InForce(l, lines, i + 1)
  {
    if IsRow(lines[i]) {
      RowKeepsColumns(l, s, lines[i]);
    } else if !IsMarkup(lines[i]) {
      OtherLine(l, s, lines[i]);
    } else if SaysMagic(l, lines, i) {
      TheMagicLine(l, lines, i, s);
    } else {
      DirectiveColumns(l, lines, i, s);
    }
  }

  lemma RowKeepsColumns(l: Locale, s: State, raw: string)
    requires IsRow(raw)
    ensures CurrentColumns(ReadLine(l, s, raw)) == CurrentColumns(s)
  {
    RowLine(l, s, raw);
  }

  lemma DirectiveColumns(l: Locale, lines: seq<string>, i: nat, s: State)
    requires i < |lines| && IsMarkup(lines[i]) && !SaysMagic(l, lines, i)
    requires (s.magic.Some? <==> Marked(l, lines, i))
    ensures CurrentColumns(ReadLine(l, s, lines[i])) ==
            if NamesColumns(l, lines, i) then ReadColumns(l, ReadDirective(l, Body(lines[i])).value)
            else CurrentColumns(s)
  {
    DirectiveLine(l, lines, i, s);
  }

  ghost function ColumnsAt(l: Locale, lines: seq<string>): nat -> bool {
    (n: nat) => n <= |lines| ==> CurrentColumns(ReadLines(l, lines[..n])) == InForce(l, lines, n)
  }

  lemma ColumnsPass(l: Locale, lines: seq<string>, i: nat)
    requires i < |lines|
    ensures Passes(ColumnsAt(l, lines), i, i + 1)
  {
    MagicOnceMarked(l, lines, i);
    ReadNext(l, lines, i, i + 1);
    if ColumnsAt(l, lines)(i) {
      ColumnsNext(l, lines, i, ReadLines(l, lines[..i]));
    }
  }

  /** At every line the columns are those in force. */
  lemma ColumnsAreInForce(l: Locale, lines: seq<string>, n: nat)
    requires n <= |lines|
    ensures CurrentColumns(ReadLines(l, lines[..n])) == InForce(l, lines, n)
  {
    assert lines[..0] == [];
    forall i: nat, m: nat | i < n && m == i + 1
      ensures Passes(ColumnsAt(l, lines), i, m)
    {
      ColumnsPass(l, lines, i);
    }
    KeptTo(ColumnsAt(l, lines), n);
  }

  // ----- Faults -----

  /** Some column is none of the default ones. */
  predicate HasExtension(columns: seq<string>) {
    exists i :: 0 <= i < |columns| && columns[i] !in FullColumns()
  }

  /** What line i is reported for, beside repeating a row's identity. */
  predicate LineFault(l: Locale, lines: seq<string>, i: nat, f: Fault)
    requires i < |lines|
  {
    match f
    case E_GRAM_001 => IsRow(lines[i]) && !Separated(lines[i])
    case E_GRAM_002 => IsRow(lines[i]) && Separated(lines[i]) && |Pieces(lines[i])| != |InForce(l, lines, i)|
    case W_COL_001 => NamesColumns(l, lines, i) && HasExtension(InForce(l, lines, i + 1))
    case _ => false
  }

  lemma {:induction false} ExtensionsAre(columns: seq<string>, f: Fault)
    ensures f in Extensions(columns) <==> f == W_COL_001 && HasExtension(columns)
    decreases |columns|
  {
    if columns != [] {
      var before, last := columns[..|columns| - 1], columns[|columns| - 1];
      ExtensionsAre(before, f);
      assert columns == before + [last];
      if i :| 0 <= i < |before| && before[i] !in FullColumns() {
        assert columns[i] !in FullColumns();
      }
      if i :| 0 <= i < |columns| && columns[i] !in FullColumns() && i < |before| {
        assert before[i] !in FullColumns();
      }
    }
  }

  /** A row is read where the line has as many pieces as there are columns. */
  predicate IsGoodRow(l: Locale, lines: seq<string>, i: nat)
    requires i < |lines|
  {
    IsRow(lines[i]) && Separated(lines[i]) && |Pieces(lines[i])| == |InForce(l, lines, i)|
  }

  function CellsOf(l: Locale, raw: string): seq<string> {
    NormalizeAll(l, Pieces(raw))
  }

  lemma RowOutcome(l: Locale, s: State, raw: string, columns: seq<string>)
    requires CurrentColumns(s) == columns
    ensures var t := ReadRow(l, s, RStrip(raw));
            && t.magic == s.magic && t.directives == s.directives
            && (!Separated(raw) ==> t.rows == s.rows && t.faults == s.faults + [E_GRAM_001])
            && (Separated(raw) && |Pieces(raw)| != |columns| ==>
               t.rows == s.rows && t.faults == s.faults + [E_GRAM_002])
            && (Separated(raw) && |Pieces(raw)| == |columns| ==>
                  var r := RowOf(columns, CellsOf(l, raw));
                  t.rows == s.rows + [r] && t.faults == s.faults + if Seen(s.rows, RowId(r)) then [E_GRAM_003] else [])
  {
    assert |Pieces(raw)| >= 1;
    assert s.faults + [] == s.faults;
  }

  lemma FaultsNext(l: Locale, lines: seq<string>, i: nat, s: State, f: Fault)
    requires i < |lines| && (s.magic.Some? <==> Marked(l, lines, i)) && CurrentColumns(s) == InForce(l, lines, i)
    requires f != E_GRAM_003
    ensures f in ReadLine(l, s, lines[i]).faults <==> f in s.faults || LineFault(l, lines, i, f)
  {
    if IsRow(lines[i]) {
      RowLine(l, s, lines[i]);
      RowOutcome(l, s, lines[i], InForce(l, lines, i));
    } else if !IsMarkup(lines[i]) {
      OtherLine(l, s, lines[i]);
    } else if SaysMagic(l, lines, i) {
      TheMagicLine(l, lines, i, s);
    } else {
      DirectiveLine(l, lines, i, s);
      ExtensionsAre(InForce(l, lines, i + 1), f);
    }
  }

  ghost function FaultUpTo(l: Locale, lines: seq<string>, f: Fault): nat -> bool {
    (n: nat) => n <= |lines| && f in ReadLines(l, lines[..n]).faults
  }

  ghost function FaultAt(l: Locale, lines: seq<string>, f: Fault): nat -> bool {
    (i: nat) => i < |lines| && LineFault(l, lines, i, f)
  }

  lemma FaultsCollect(l: Locale, lines: seq<string>, f: Fault, i: nat)
    requires i < |lines| && f != E_GRAM_003
    ensures Collects(FaultUpTo(l, lines, f), FaultAt(l, lines, f), i, i + 1)
  {
    MagicOnceMarked(l, lines, i);
    ColumnsAreInForce(l, lines, i);
    ReadNext(l, lines, i, i + 1);
    FaultsNext(l, lines, i, ReadLines(l, lines[..i]), f);
  }

  lemma FaultsAre(l: Locale, lines: seq<string>, f: Fault)
    requires f != E_GRAM_003
    ensures f in ReadLines(l, lines).faults <==> exists i: nat :: i < |lines| && FaultAt(l, lines, f)(i)
  {
    assert lines[..0] == [] && lines[..|lines|] == lines;
    forall i: nat, m: nat | i < |lines| && m == i + 1
      ensures Collects(FaultUpTo(l, lines, f), FaultAt(l, lines, f), i, m)
    {
      FaultsCollect(l, lines, f, i);
    }
    AnyOf(FaultUpTo(l, lines, f), FaultAt(l, lines, f), |lines|);
  }

  // ----- Rows -----

  /** Two of the rows have the same identity. */
  predicate Repeated(rows: seq<Row>) {
    exists i, j :: 0 <= i < j < |rows| && Cell(rows[i], "ROW") == Cell(rows[j], "ROW")
  }

  lemma RepeatedSnoc(rows: seq<Row>, r: Row)
    ensures Repeated(rows + [r]) <==> Repeated(rows) || Seen(rows, RowId(r))
  {
    var all := rows + [r];
    if Repeated(all) {
      var i, j :| 0 <= i < j < |all| && Cell(all[i], "ROW") == Cell(all[j], "ROW");
      if j == |rows| {
        assert RowId(rows[i]) == RowId(r);
      } else {
        assert Cell(rows[i], "ROW") == Cell(rows[j], "ROW");
      }
    }
    if Repeated(rows) {
      var i, j :| 0 <= i < j < |rows| && Cell(rows[i], "ROW") == Cell(rows[j], "ROW");
      assert Cell(all[i], "ROW") == Cell(all[j], "ROW");
    }
    if Seen(rows, RowId(r)) {
      var i :| 0 <= i < |rows| && RowId(rows[i]) == RowId(r);
      assert Cell(all[i], "ROW") == Cell(all[|rows|], "ROW");
    }
  }

  /** What a line does to the rows and to the report of repeated identities. */
  lemma RowsNext(l: Locale, lines: seq<string>, i: nat, s: State)
    requires i < |lines| && (s.magic.Some? <==> Marked(l, lines, i)) && CurrentColumns(s) == InForce(l, lines, i)
    ensures var t := ReadLine(l, s, lines[i]);
            if IsGoodRow(l, lines, i) then
              var r := RowOf(InForce(l, lines, i), CellsOf(l, lines[i]));
              t.rows == s.rows + [r] && (E_GRAM_003 in t.faults <==> E_GRAM_003 in s.faults || Seen(s.rows, RowId(r)))
            else t.rows == s.rows && (E_GRAM_003 in t.faults <==> E_GRAM_003 in s.faults)
  {
    if IsRow(lines[i]) {
      RowLine(l, s, lines[i]);
      RowOutcome(l, s, lines[i], InForce(l, lines, i));
    } else if !IsMarkup(lines[i]) {
      OtherLine(l, s, lines[i]);
    } else if SaysMagic(l, lines, i) {
      TheMagicLine(l, lines, i, s);
    } else {
      DirectiveLine(l, lines, i, s);
      ExtensionsAre(InForce(l, lines, i + 1), E_GRAM_003);
    }
  }

  ghost function RepeatsAt(l: Locale, lines: seq<string>): nat -> bool {
    (n: nat) => n <= |lines| ==>
      (E_GRAM_003 in ReadLines(l, lines[..n]).faults <==> Repeated(ReadLines(l, lines[..n]).rows))
  }

  lemma RowsStep(l: Locale, lines: seq<string>, i: nat, n: nat)
    requires n == i + 1 <= |lines|
    ensures var s, t := ReadLines(l, lines[..i]), ReadLines(l, lines[..n]);
            if IsGoodRow(l, lines, i) then
              var r := RowOf(InForce(l, lines, i), CellsOf(l, lines[i]));
              t.rows == s.rows + [r] && (E_GRAM_003 in t.faults <==> E_GRAM_003 in s.faults || Seen(s.rows, RowId(r)))
            else t.rows == s.rows && (E_GRAM_003 in t.faults <==> E_GRAM_003 in s.faults)
  {
    MagicOnceMarked(l, lines, i);
    ColumnsAreInForce(l, lines, i);
    ReadNext(l, lines, i, n);
    RowsNext(l, lines, i, ReadLines(l, lines[..i]));
  }

  lemma RepeatsPass(l: Locale, lines: seq<string>, i: nat)
    requires i < |lines|
    ensures Passes(RepeatsAt(l, lines), i, i + 1)
  {
    RowsStep(l, lines, i, i + 1);
    if IsGoodRow(l, lines, i) {
      RepeatedSnoc(ReadLines(l, lines[..i]).rows, RowOf(InForce(l, lines, i), CellsOf(l, lines[i])));
    }
  }

  lemma RepeatsAre(l: Locale, lines: seq<string>)
    ensures E_GRAM_003 in ReadLines(l, lines).faults <==> Repeated(ReadLines(l, lines).rows)
  {
    assert lines[..0] == [] && lines[..|lines|] == lines;
    forall i: nat, m: nat | i < |lines| && m == i + 1
      ensures Passes(RepeatsAt(l, lines), i, m)
    {
      RepeatsPass(l, lines, i);
    }
    KeptTo(RepeatsAt(l, lines), |lines|);
  }

  /** How many rows the first n lines give. */
  function RowCount(l: Locale, lines: seq<string>, n: nat): nat
    requires n <= |lines|
  {
    if n == 0 then 0 else RowCount(l, lines, n - 1) + if IsGoodRow(l, lines, n - 1) then 1 else 0
  }

  /** The row that a good line gives, under the columns in force there. */
  function RowAt(l: Locale, lines: seq<string>, i: nat): Row
    requires i < |lines| && IsGoodRow(l, lines, i)
  {
    RowOf(InForce(l, lines, i), CellsOf(l, lines[i]))
  }

  ghost function RowsUpTo(l: Locale, lines: seq<string>): nat -> seq<Row> {
    (n: nat) => if n <= |lines| then ReadLines(l, lines[..n]).rows else []
  }

  ghost function CountUpTo(l: Locale, lines: seq<string>): nat -> nat {
    (n: nat) => if n <= |lines| then RowCount(l, lines, n) else 0
  }

  ghost function GivesAt(l: Locale, lines: seq<string>): nat -> bool {
    (i: nat) => i < |lines| && IsGoodRow(l, lines, i)
  }

  ghost function GivenAt(l: Locale, lines: seq<string>): nat -> Row {
    (i: nat) => if i < |lines| && IsGoodRow(l, lines, i) then RowAt(l, lines, i) else map[]
  }

  lemma RowsGain(l: Locale, lines: seq<string>, i: nat, n: nat)
    requires n == i + 1 <= |lines|
    ensures ReadLines(l, lines[..n]).rows ==
            ReadLines(l, lines[..i]).rows + if IsGoodRow(l, lines, i) then [RowAt(l, lines, i)] else []
  {
    RowsStep(l, lines, i, n);
  }

  lemma CountGains(l: Locale, lines: seq<string>, i: nat, n: nat)
    requires n == i + 1 <= |lines|
    ensures RowCount(l, lines, n) == RowCount(l, lines, i) + if IsGoodRow(l, lines, i) then 1 else 0
  {}

  lemma RowsGrow(l: Locale, lines: seq<string>, i: nat)
    requires i < |lines|
    ensures Grows(RowsUpTo(l, lines), CountUpTo(l, lines), GivesAt(l, lines), GivenAt(l, lines), i, i + 1)
  {
    var n := i + 1;
    RowsGain(l, lines, i, n);
    CountGains(l, lines, i, n);
  }

  /** The rows read are those that the good lines give, in their order and no others. */
  lemma RowsAre(l: Locale, lines: seq<string>)
    ensures |ReadLines(l, lines).rows| == RowCount(l, lines, |lines|)
    ensures forall i: nat :: i < |lines| && GivesAt(l, lines)(i) ==>
              var k := CountUpTo(l, lines)(i);
              k < |ReadLines(l, lines).rows| && ReadLines(l, lines).rows[k] == RowAt(l, lines, i)
  {
    assert lines[..0] == [] && lines[..|lines|] == lines;
    forall i: nat, m: nat | i < |lines| && m == i + 1
      ensures Grows(RowsUpTo(l, lines), CountUpTo(l, lines), GivesAt(l, lines), GivenAt(l, lines), i, m)
    {
      RowsGrow(l, lines, i);
    }
    ItemsAre(RowsUpTo(l, lines), CountUpTo(l, lines), GivesAt(l, lines), GivenAt(l, lines), |lines|);
  }

  // ----- The theorems -----

  /** Each fault is reported exactly when some line, or the whole, gives cause for it. */
  lemma ReportedExactly(l: Locale, lines: seq<string>, f: Fault)
    ensures f in Finish(ReadLines(l, lines)).faults <==>
            match f
            case E_GRAM_003 => Repeated(ReadLines(l, lines).rows)
            case E_GRAM_004 => !Marked(l, lines, |lines|)
            case E_GRAM_005 => Marked(l, lines, |lines|) && RowCount(l, lines, |lines|) == 0
            case _ => exists i: nat :: i < |lines| && FaultAt(l, lines, f)(i)
  {
    assert lines[..|lines|] == lines;
    MagicOnceMarked(l, lines, |lines|);
    RepeatsAre(l, lines);
    RowsAre(l, lines);
    if f != E_GRAM_003 {
      FaultsAre(l, lines, f);
    }
    if f in {E_GRAM_004, E_GRAM_005} {
      assert forall i :: 0 <= i < |lines| ==> !LineFault(l, lines, i, f);
    }
  }

  /** In particular a program is read with a repeated identity reported exactly when two of its rows agree in it. */
  lemma RepeatedIdentityIsReported(l: Locale, lines: seq<string>)
    requires Parsed(l, lines).Some?
    ensures E_GRAM_003 in Finish(ReadLines(l, lines)).faults <==> Repeated(Parsed(l, lines).value.rows)
  {
    ReportedExactly(l, lines, E_GRAM_003);
  }

  // ----- The program that is read -----

  lemma {:induction false} WordIsWhole(k: string)
    requires NoSpace(k)
    ensures FirstWord(k) == k
    decreases |k|
  {
    if k != "" {
      WordIsWhole(k[1..]);
      assert k == [k[0]] + k[1..];
    }
  }

  /** A directive without a value says that it is true. */
  lemma BareDirectiveIsTrue(l: Locale, k: string)
    requires k != "" && NoSpace(k)
    ensures ReadDirective(l, "#" + k) == Directive(l.upper(k), "true")
  {
    assert ("#" + k)[1..] == k && LStrip(k) == k;
    WordIsWhole(k);
    assert k[|k|..] == "";
  }

  /** A row has exactly the named columns, each with the cell of its last place. */
  lemma {:induction false} RowHasItsCells(columns: seq<string>, cells: seq<string>, c: string)
    requires |columns| == |cells|
    ensures c in RowOf(columns, cells) <==> c in columns
    ensures forall i :: 0 <= i < |columns| && columns[i] == c && (forall j :: i < j < |columns| ==> columns[j] != c) ==>
              RowOf(columns, cells)[c] == cells[i]
    decreases |columns|
  {
    if columns != [] {
      var n := |columns| - 1;
      RowHasItsCells(columns[..n], cells[..n], c);
      assert columns == columns[..n] + [columns[n]];
      forall i | 0 <= i < |columns| && columns[i] == c && forall j :: i < j < |columns| ==> columns[j] != c
        ensures RowOf(columns, cells)[c] == cells[i]
      {
        if i < n {
          assert columns[n] != c && columns[..n][i] == c;
        }
      }
    }
  }

  ghost function MagicFrom(l: Locale, lines: seq<string>, i: nat): nat -> bool
    requires i < |lines|
  {
    (n: nat) => i < n <= |lines| ==> ReadLines(l, lines[..n]).magic == l.magic(Body(lines[i]))
  }

  lemma MagicPasses(l: Locale, lines: seq<string>, i: nat, j: nat)
    requires i < |lines| && SaysMagic(l, lines, i) && j < |lines|
    ensures Passes(MagicFrom(l, lines, i), j, j + 1)
  {
    var s := ReadLines(l, lines[..j]);
    MagicOnceMarked(l, lines, j);
    ReadNext(l, lines, j, j + 1);
    if j == i {
      TheMagicLine(l, lines, i, s);
    } else if i < j {
      MarkupLineIf(l, lines, i, j, s);
    }
  }

  lemma MarkupLineIf(l: Locale, lines: seq<string>, i: nat, j: nat, s: State)
    requires i < j < |lines| && SaysMagic(l, lines, i) && s.magic.Some?
    ensures ReadLine(l, s, lines[j]).magic == s.magic
  {
    if IsRow(lines[j]) {
      RowLine(l, s, lines[j]);
    } else if IsMarkup(lines[j]) {
      MarkupLine(l, s, lines[j]);
    } else {
      OtherLine(l, s, lines[j]);
    }
  }

  /** The magic is what the first magic line says. */
  lemma MagicIsFirst(l: Locale, lines: seq<string>, i: nat)
    requires i < |lines| && SaysMagic(l, lines, i)
    ensures ReadLines(l, lines).magic == l.magic(Body(lines[i])) && ReadLines(l, lines).magic.Some?
  {
    assert lines[..|lines|] == lines;
    forall j: nat, m: nat | j < |lines| && m == j + 1
      ensures Passes(MagicFrom(l, lines, i), j, m)
    {
      MagicPasses(l, lines, i, j);
    }
    KeptTo(MagicFrom(l, lines, i), |lines|);
  }

  /** What the last of the first n lines to say a directive says it is. */
  function Said(l: Locale, lines: seq<string>, n: nat, key: string): Option<string>
    requires n <= |lines|
  {
    if n == 0 then None
    else if SaysKey(l, lines, n - 1, key) then Some(ReadDirective(l, Body(lines[n - 1])).value)
    else Said(l, lines, n - 1, key)
  }

  /** A directive line of this name, other than the one that names columns. */
  predicate SaysKey(l: Locale, lines: seq<string>, i: nat, key: string)
    requires i < |lines|
  {
    && key != "COLUMNS" && IsMarkup(lines[i]) && !SaysMagic(l, lines, i)
    && ReadDirective(l, Body(lines[i])).Directive? && ReadDirective(l, Body(lines[i])).key == key
  }

  predicate Has(m: map<string, string>, key: string, value: Option<string>) {
    if value == None then key !in m else key in m && m[key] == value.value
  }

  lemma SaidNext(l: Locale, lines: seq<string>, i: nat, s: State, key: string)
    requires i < |lines| && (s.magic.Some? <==> Marked(l, lines, i)) && Has(s.directives, key, Said(l, lines, i, key))
    ensures Has(ReadLine(l, s, lines[i]).directives, key, Said(l, lines, i + 1, key))
  {
    if IsRow(lines[i]) {
      RowLine(l, s, lines[i]);
    } else if !IsMarkup(lines[i]) {
      OtherLine(l, s, lines[i]);
    } else if SaysMagic(l, lines, i) {
      TheMagicLine(l, lines, i, s);
    } else {
      DirectiveLine(l, lines, i, s);
    }
  }

  ghost function SaidAt(l: Locale, lines: seq<string>, key: string): nat -> bool {
    (n: nat) => n <= |lines| ==> Has(ReadLines(l, lines[..n]).directives, key, Said(l, lines, n, key))
  }

  lemma SaidPasses(l: Locale, lines: seq<string>, key: string, i: nat)
    requires i < |lines|
    ensures Passes(SaidAt(l, lines, key), i, i + 1)
  {
    MagicOnceMarked(l, lines, i);
    ReadNext(l, lines, i, i + 1);
    if SaidAt(l, lines, key)(i) {
      SaidNext(l, lines, i, ReadLines(l, lines[..i]), key);
    }
  }

  /** The directives are those the lines say, each with what its last line says. */
  lemma DirectivesAreLast(l: Locale, lines: seq<string>, key: string)
    ensures Has(ReadLines(l, lines).directives, key, Said(l, lines, |lines|, key))
  {
    assert lines[..0] == [] && lines[..|lines|] == lines;
    forall i: nat, m: nat | i < |lines| && m == i + 1
      ensures Passes(SaidAt(l, lines, key), i, m)
    {
      SaidPasses(l, lines, key, i);
    }
    KeptTo(SaidAt(l, lines, key), |lines|);
  }

  /** The program that is read: its magic from the first magic line, its directives from the last lines that say them,
      the columns in force at the end, or the default ones where those are none, and the rows of the good lines. */
  lemma ProgramIsRead(l: Locale, lines: seq<string>, i: nat, key: string)
    requires i < |lines| && SaysMagic(l, lines, i)
    ensures Parsed(l, lines).Some?
    ensures var p := Parsed(l, lines).value;
            && Some(p.magic) == l.magic(Body(lines[i])) && Has(p.directives, key, Said(l, lines, |lines|, key))
            && p.columns == (if InForce(l, lines, |lines|) == [] then FullColumns() else InForce(l, lines, |lines|))
            && |p.rows| == RowCount(l, lines, |lines|)
            && forall j: nat :: j < |lines| && GivesAt(l, lines)(j) ==>
                 var k := CountUpTo(l, lines)(j);
                 k < |p.rows| && p.rows[k] == RowAt(l, lines, j)
  {
    assert lines[..|lines|] == lines;
    MagicIsFirst(l, lines, i);
    DirectivesAreLast(l, lines, key);
    ColumnsAreInForce(l, lines, |lines|);
    RowsAre(l, lines);
  }
}
