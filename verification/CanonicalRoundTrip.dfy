/** When reading canonical text back gives the same program, and that everywhere else it does not. */
module CanonicalRoundTrip {
  import opened Common
  import opened Text
  import opened CanonicalText

  // ----- What reading produces -----

  ghost predicate CellOk(l: Locale, x: string) {
    Trim(x) && SEP !in x && NormalizeCell(l, x) == x
  }

  ghost predicate NameOk(l: Locale, c: string) {
    Trim(c) && SEP !in c && l.upper(c) == c
  }

  ghost predicate DirectiveOk(l: Locale, k: string, v: string) {
    k != "" && NoSpace(k) && l.upper(k) == k && k != "COLUMNS" && Trim(v)
  }

  /** Trimmed, and read back from after the mark. */
  ghost predicate MagicOk(l: Locale, m: string) {
    Trim(m) && l.magic("#" + m) == Some(m)
  }

  ghost predicate RowOk(l: Locale, r: Row) {
    forall c :: c in r ==> CellOk(l, r[c])
  }

  ghost predicate StateOk(l: Locale, s: State) {
    && (s.magic.Some? ==> MagicOk(l, s.magic.value))
    && (forall k :: k in s.directives ==> DirectiveOk(l, k, s.directives[k]))
    && (s.columns.Some? ==> forall i :: 0 <= i < |s.columns.value| ==> NameOk(l, s.columns.value[i]))
    && (forall i :: 0 <= i < |s.rows| ==> RowOk(l, s.rows[i]))
  }

  ghost predicate ProgramOk(l: Locale, p: Program) {
    && MagicOk(l, p.magic) && (forall k :: k in p.directives ==> DirectiveOk(l, k, p.directives[k]))
    && p.columns != [] && (forall i :: 0 <= i < |p.columns| ==> NameOk(l, p.columns[i]))
    && (forall i :: 0 <= i < |p.rows| ==> RowOk(l, p.rows[i]))
  }

  lemma NullIsOk(l: Locale)
    requires Sound(l)
    ensures CellOk(l, NULL_CELL)
  {
    TidyStays(NULL_CELL);
  }

  lemma NormalizedIsOk(l: Locale, raw: string)
    requires Sound(l) && SEP !in raw
    ensures CellOk(l, NormalizeCell(l, raw))
  {
    assert NfcSound(l, raw);
    TidyIsTidy(l.nfc(raw));
    TidyKeepsOut(l.nfc(raw), SEP);
    NullIsOk(l);
  }

  lemma FullNameOk(l: Locale, i: nat)
    requires i < 22 && Sound(l)
    ensures NameOk(l, ColumnName(i))
  {
    assert FullColumns()[i] == ColumnName(i);
    if i < 11 {
      FirstNames(i);
    } else {
      LastNames(i);
    }
  }

  lemma FirstNames(i: nat)
    requires i < 11
    ensures Trim(ColumnName(i)) && SEP !in ColumnName(i)
  {
  }

  lemma LastNames(i: nat)
    requires 11 <= i < 22
    ensures Trim(ColumnName(i)) && SEP !in ColumnName(i)
  {
  }

  lemma {:induction false} NamesAreOk(l: Locale, parts: seq<string>)
    requires Sound(l) && forall i :: 0 <= i < |parts| ==> SEP !in parts[i]
    ensures forall i :: 0 <= i < |Names(l, parts)| ==> NameOk(l, Names(l, parts)[i])
    decreases |parts|
  {
    if parts != [] {
      NamesAreOk(l, parts[..|parts| - 1]);
      StripKeepsOut(parts[|parts| - 1], SEP);
      assert UpperSound(l, Strip(parts[|parts| - 1]));
    }
  }

  lemma {:induction false} RowOfIsOk(l: Locale, columns: seq<string>, cells: seq<string>)
    requires |columns| == |cells| && forall i :: 0 <= i < |cells| ==> CellOk(l, cells[i])
    ensures RowOk(l, RowOf(columns, cells))
    decreases |columns|
  {
    if columns != [] {
      RowOfIsOk(l, columns[..|columns| - 1], cells[..|cells| - 1]);
    }
  }

  lemma ReadCellsOk(l: Locale, line: string)
    requires Sound(l)
    ensures forall i :: 0 <= i < |ReadCells(l, line)| ==> CellOk(l, ReadCells(l, line)[i])
  {
    if SEP in line || ALIAS in line {
      var parts := Split(line, if SEP in line then SEP else ALIAS);
      if SEP !in line {
        SplitKeepsOut(line, ALIAS, SEP);
      }
      forall i | 0 <= i < |parts|
        ensures CellOk(l, NormalizeCell(l, parts[i]))
      {
        NormalizedIsOk(l, parts[i]);
      }
    }
  }

  lemma ReadRowKeeps(l: Locale, s: State, line: string)
    requires Sound(l) && StateOk(l, s)
    ensures StateOk(l, ReadRow(l, s, line))
  {
    var columns, cells := CurrentColumns(s), ReadCells(l, line);
    ReadCellsOk(l, line);
    if s.columns == None {
      forall i | 0 <= i < 22
        ensures NameOk(l, columns[i])
      {
        FullNameOk(l, i);
      }
    }
    if |cells| == |columns| {
      RowOfIsOk(l, columns, cells);
    }
  }

  lemma ReadMarkupKeeps(l: Locale, s: State, body: string)
    requires Sound(l) && StateOk(l, s) && body != ""
    ensures StateOk(l, ReadMarkup(l, s, body))
  {
    assert MagicSound(l.magic, body);
    var d := ReadDirective(l, body);
    if d.Directive? {
      DirectiveIsOk(l, body);
      ColumnsAreOk(l, d.value);
    }
  }

  lemma ColumnsAreOk(l: Locale, value: string)
    requires Sound(l)
    ensures forall i :: 0 <= i < |ReadColumns(l, value)| ==> NameOk(l, ReadColumns(l, value)[i])
  {
    if SEP !in value {
      SplitKeepsOut(value, ALIAS, SEP);
    }
    NamesAreOk(l, Split(value, if SEP in value then SEP else ALIAS));
  }

  lemma DirectiveIsOk(l: Locale, body: string)
    requires Sound(l) && body != "" && ReadDirective(l, body).Directive?
    ensures var d := ReadDirective(l, body);
            d.key != "" && NoSpace(d.key) && l.upper(d.key) == d.key && Trim(d.value)
  {
    var word := FirstWord(LStrip(body[1..]));
    assert UpperSound(l, word);
  }

  lemma LineIsOk(l: Locale, s: State, raw: string)
    requires Sound(l) && StateOk(l, s)
    ensures StateOk(l, Step(l)(s, raw))
  {
    var line := RStrip(raw);
    var body := LStrip(line);
    if body != "" && !(";;" <= body) {
      if body[0] == '#' {
        ReadMarkupKeeps(l, s, body);
      } else {
        ReadRowKeeps(l, s, line);
      }
    }
  }

  /** What every step keeps, reading keeps. */
  lemma {:induction false} FoldKeeps<S(!new)>(step: (S, string) -> S, kept: S -> bool, s: S, lines: seq<string>)
    requires kept(s) && forall x, raw :: kept(x) ==> kept(step(x, raw))
    ensures kept(Fold(step, s, lines))
    decreases |lines|
  {
    if lines != [] {
      FoldKeeps(step, kept, s, lines[..|lines| - 1]);
    }
  }

  lemma ReadingIsOk(l: Locale, s: State, lines: seq<string>)
    requires Sound(l) && StateOk(l, s)
    ensures StateOk(l, ReadFrom(l, s, lines))
  {
    forall x, raw | StateOk(l, x)
      ensures StateOk(l, Step(l)(x, raw))
    {
      LineIsOk(l, x, raw);
    }
    FoldKeeps(Step(l), x => StateOk(l, x), s, lines);
  }

  lemma ParsedIsOk(l: Locale, lines: seq<string>)
    requires Sound(l) && Parsed(l, lines).Some?
    ensures ProgramOk(l, Parsed(l, lines).value)
  {
    ReadingIsOk(l, BEFORE, lines);
    forall i | 0 <= i < 22
      ensures NameOk(l, FullColumns()[i])
    {
      FullNameOk(l, i);
    }
  }

  // ----- Reading the parts of canonical text back -----

  lemma {:induction false} FoldOn<S>(step: (S, string) -> S, s: S, a: seq<string>, b: seq<string>)
    ensures Fold(step, s, a + b) == Fold(step, Fold(step, s, a), b)
    decreases |b|
  {
    if b == [] {
      assert a + b == a;
    } else {
      FoldOn(step, s, a, b[..|b| - 1]);
      assert (a + b)[..|a + b| - 1] == a + b[..|b| - 1];
    }
  }

  lemma ReadOn(l: Locale, s: State, a: seq<string>, b: seq<string>)
    ensures ReadFrom(l, s, a + b) == ReadFrom(l, ReadFrom(l, s, a), b)
  {
    FoldOn(Step(l), s, a, b);
  }

  lemma ReadOne(l: Locale, s: State, line: string)
    ensures ReadFrom(l, s, [line]) == ReadLine(l, s, line)
  {
    assert [line][..0] == [];
    assert Fold(Step(l), s, []) == s;
  }

  lemma {:induction false} FirstWordIs(w: string, rest: string)
    requires NoSpace(w) && rest != "" && IsSpace(rest[0])
    ensures FirstWord(w + rest) == w
    decreases |w|
  {
    if w == "" {
      assert w + rest == rest;
    } else {
      FirstWordIs(w[1..], rest);
      assert (w + rest)[1..] == w[1..] + rest && w == [w[0]] + w[1..];
    }
  }

  lemma BlankStrips(v: string)
    requires Trim(v)
    ensures Strip(" " + v) == v
  {
    assert (" " + v)[1..] == v && IsSpace(' ');
    StripTrimmed(v);
  }

  /** A name, a blank and a trimmed value are read as that name and value. */
  lemma DirectiveReadsBack(l: Locale, k: string, v: string)
    requires k != "" && NoSpace(k) && l.upper(k) == k && Trim(v)
    ensures var line := "#" + k + " " + v;
            RStrip(line) == line && LStrip(line) == line && !(";;" <= line) && line[0] == '#'
            && ReadDirective(l, line) == Directive(k, v)
  {
    var line := "#" + k + " " + v;
    assert line[|line| - 1] == v[|v| - 1];
    assert line[1..] == k + (" " + v) && (" " + v)[0] == ' ' && IsSpace(' ');
    FirstWordIs(k, " " + v);
    assert (k + (" " + v))[|k|..] == " " + v;
    BlankStrips(v);
  }

  lemma {:induction false} NamesReadBack(l: Locale, columns: seq<string>)
    requires forall i :: 0 <= i < |columns| ==> NameOk(l, columns[i])
    ensures Names(l, columns) == columns
    decreases |columns|
  {
    if columns != [] {
      NamesReadBack(l, columns[..|columns| - 1]);
      StripTrimmed(columns[|columns| - 1]);
    }
  }

  lemma JoinIsTrim(cells: seq<string>)
    requires cells != [] && forall i :: 0 <= i < |cells| ==> Trim(cells[i])
    ensures Trim(Join(cells, SEP)) && (|cells| > 1 ==> SEP in Join(cells, SEP))
  {
    JoinEnds(cells, SEP);
  }

  lemma ColumnsReadBack(l: Locale, columns: seq<string>)
    requires columns != [] && forall i :: 0 <= i < |columns| ==> NameOk(l, columns[i])
    requires |columns| > 1 || ALIAS !in columns[0]
    ensures ReadColumns(l, Join(columns, SEP)) == columns
  {
    JoinIsTrim(columns);
    NamesReadBack(l, columns);
    if |columns| > 1 {
      SplitJoin(columns, SEP);
    } else {
      SplitWhole(columns[0], ALIAS);
    }
  }

  /** The state after the header of a program: its magic, its directives and the columns as read back. */
  function AfterHeader(l: Locale, p: Program, columns: seq<string>): State {
    State(Some(p.magic), p.directives, Some(columns), [], Extensions(columns))
  }

  function Picked(m: map<string, string>, keys: seq<string>): map<string, string>
    requires forall k :: k in keys ==> k in m
  {
    map k | k in keys :: m[k]
  }

  /** Whatever the state, once it has a magic the line sets its directive. */
  ghost predicate LineSets(step: (State, string) -> State, line: string, k: string, v: string) {
    forall x: State {:trigger step(x, line)} :: x.magic.Some? ==>
      step(x, line) == x.(directives := x.directives[k := v])
  }

  lemma {:induction false} FoldSets(step: (State, string) -> State, s: State, m: map<string, string>,
      keys: seq<string>, lines: seq<string>)
    requires s.magic.Some? && s.directives == map[] && (forall k :: k in keys ==> k in m) && |lines| == |keys|
    requires forall i :: 0 <= i < |keys| ==> LineSets(step, lines[i], keys[i], m[keys[i]])
    ensures Fold(step, s, lines) == s.(directives := Picked(m, keys))
    decreases |keys|
  {
    if keys == [] {
      assert Picked(m, keys) == map[];
    } else {
      var n := |keys| - 1;
      assert keys == keys[..n] + [keys[n]];
      FoldSets(step, s, m, keys[..n], lines[..n]);
      assert LineSets(step, lines[n], keys[n], m[keys[n]]);
      assert Picked(m, keys) == Picked(m, keys[..n])[keys[n] := m[keys[n]]];
    }
  }

  lemma DirectiveLineSets(l: Locale, x: State, k: string, v: string)
    requires DirectiveOk(l, k, v) && x.magic.Some?
    ensures Step(l)(x, "#" + k + " " + v) == x.(directives := x.directives[k := v])
  {
    DirectiveReadsBack(l, k, v);
  }

  lemma DirectivesReadBack(l: Locale, s: State, m: map<string, string>, keys: seq<string>)
    requires (forall k :: k in keys ==> k in m) && (forall k :: k in m ==> DirectiveOk(l, k, m[k]))
    requires s.magic.Some? && s.directives == map[]
    ensures ReadFrom(l, s, DirectiveLines(m, keys)) == s.(directives := Picked(m, keys))
  {
    var lines := DirectiveLines(m, keys);
    forall i | 0 <= i < |keys|
      ensures LineSets(Step(l), lines[i], keys[i], m[keys[i]])
    {
      forall x: State | x.magic.Some?
        ensures Step(l)(x, lines[i]) == x.(directives := x.directives[keys[i] := m[keys[i]]])
      {
        DirectiveLineSets(l, x, keys[i], m[keys[i]]);
      }
    }
    FoldSets(Step(l), s, m, keys, lines);
  }

  lemma MagicLineReadsBack(l: Locale, p: Program)
    requires MagicOk(l, p.magic)
    ensures ReadFrom(l, BEFORE, ["#" + p.magic]) == BEFORE.(magic := Some(p.magic))
  {
    var line := "#" + p.magic;
    assert line[|line| - 1] == p.magic[|p.magic| - 1];
    StripTrimmed(line);
    ReadOne(l, BEFORE, line);
  }

  lemma HeaderReadsBack(l: Locale, p: Program)
    requires Sound(l) && ProgramOk(l, p)
    ensures SortedSound(l, p.directives.Keys)
    ensures ReadFrom(l, BEFORE, ["#" + p.magic] + Header(l, p)) ==
            AfterHeader(l, p, ReadColumns(l, Join(p.columns, SEP)))
  {
    assert SortedSound(l, p.directives.Keys);
    var keys := l.sorted(p.directives.Keys);
    var lines, last := DirectiveLines(p.directives, keys), "#COLUMNS " + Join(p.columns, SEP);
    MagicLineReadsBack(l, p);
    var s1 := BEFORE.(magic := Some(p.magic));
    ReadOn(l, BEFORE, ["#" + p.magic], Header(l, p));
    DirectivesReadBack(l, s1, p.directives, keys);
    assert Picked(p.directives, keys) == p.directives;
    ReadOn(l, s1, lines, [last]);
    ColumnLineReadsBack(l, s1.(directives := p.directives), p.columns);
  }

  lemma ColumnLine(l: Locale, s: State, line: string, v: string)
    requires RStrip(line) == line && LStrip(line) == line && !(";;" <= line) && line != "" && line[0] == '#'
    requires s.magic.Some? && ReadDirective(l, line) == Directive("COLUMNS", v)
    ensures ReadLine(l, s, line) ==
            s.(columns := Some(ReadColumns(l, v)), faults := s.faults + Extensions(ReadColumns(l, v)))
  {
  }

  lemma ColumnLineReadsBack(l: Locale, s: State, columns: seq<string>)
    requires Sound(l) && columns != [] && s.magic.Some? && forall i :: 0 <= i < |columns| ==> NameOk(l, columns[i])
    ensures var value := Join(columns, SEP);
            ReadFrom(l, s, ["#COLUMNS " + value]) ==
            s.(columns := Some(ReadColumns(l, value)), faults := s.faults + Extensions(ReadColumns(l, value)))
  {
    var value := Join(columns, SEP);
    JoinIsTrim(columns);
    ColumnsIsAWord(value);
    DirectiveReadsBack(l, "COLUMNS", value);
    var line := "#COLUMNS " + value;
    ReadOne(l, s, line);
    ColumnLine(l, s, line, value);
  }

  lemma ColumnsIsAWord(value: string)
    ensures NoSpace("COLUMNS") && "#" + "COLUMNS" + " " + value == "#COLUMNS " + value
  {
  }

  // ----- Reading rows back -----

  /** A line that reading takes for a comment or a directive. */
  predicate LooksLikeMarkup(line: string) {
    (line != "" && line[0] == '#') || ";;" <= line
  }

  lemma {:induction false} RowOfReadsBack(r: Row, columns: seq<string>, i: nat)
    requires i < |columns|
    ensures Cell(RowOf(columns, Cells(r, columns)), columns[i]) == Cell(r, columns[i])
    decreases |columns|
  {
    var n := |columns| - 1;
    assert Cells(r, columns)[..n] == Cells(r, columns[..n]);
    if columns[i] != columns[n] {
      RowOfReadsBack(r, columns[..n], i);
    }
  }

  lemma RenderReadsBack(r: Row, columns: seq<string>)
    requires columns != []
    ensures Render(RowOf(columns, Cells(r, columns)), columns) == Render(r, columns)
  {
    var again := RowOf(columns, Cells(r, columns));
    forall i | 0 <= i < |columns|
      ensures Cells(again, columns)[i] == Cells(r, columns)[i]
    {
      RowOfReadsBack(r, columns, i);
    }
    assert Cells(again, columns) == Cells(r, columns);
  }

  lemma CellsAreOk(l: Locale, r: Row, columns: seq<string>)
    requires Sound(l) && RowOk(l, r)
    ensures forall i :: 0 <= i < |columns| ==> CellOk(l, Cells(r, columns)[i])
  {
    NullIsOk(l);
  }

  /** A rendered row with a separator is read as its own cells. */
  lemma RowReadsBack(l: Locale, s: State, r: Row, columns: seq<string>)
    requires Sound(l) && RowOk(l, r) && |columns| > 1 && s.columns == Some(columns)
            && !LooksLikeMarkup(Render(r, columns))
    ensures ReadLine(l, s, Render(r, columns)) == AddRow(s, RowOf(columns, Cells(r, columns)))
  {
    var cells, line := Cells(r, columns), Render(r, columns);
    CellsAreOk(l, r, columns);
    JoinIsTrim(cells);
    StripTrimmed(line);
    SplitJoin(cells, SEP);
    assert NormalizeAll(l, cells) == cells;
  }

  /** A step that only adds a row, which renders as the line. */
  predicate AddsRow(render: Row -> string, x: State, y: State, line: string) {
    && y.magic == x.magic && y.directives == x.directives && y.columns == x.columns
    && |y.rows| == |x.rows| + 1 && y.rows[..|x.rows|] == x.rows && render(y.rows[|x.rows|]) == line
  }

  predicate AddsAll(render: Row -> string, x: State, y: State, lines: seq<string>) {
    && y.magic == x.magic && y.directives == x.directives && y.columns == x.columns
    && |y.rows| == |lines| && forall i :: 0 <= i < |lines| ==> render(y.rows[i]) == lines[i]
  }

  lemma AddsOneMore(render: Row -> string, x: State, y: State, z: State, lines: seq<string>, line: string)
    requires AddsAll(render, x, y, lines) && AddsRow(render, y, z, line)
    ensures AddsAll(render, x, z, lines + [line])
  {
    assert forall i :: 0 <= i < |y.rows| ==> z.rows[i] == y.rows[..][i];
  }

  /** Whatever the state, as long as its columns are these, the line adds its row. */
  ghost predicate LineAdds(render: Row -> string, step: (State, string) -> State, columns: Option<seq<string>>,
      line: string) {
    forall x: State {:trigger step(x, line)} :: x.columns == columns ==> AddsRow(render, x, step(x, line), line)
  }

  lemma {:induction false} FoldAddsRows(render: Row -> string, step: (State, string) -> State, s: State,
      lines: seq<string>)
    requires s.rows == [] && forall i :: 0 <= i < |lines| ==> LineAdds(render, step, s.columns, lines[i])
    ensures AddsAll(render, s, Fold(step, s, lines), lines)
    decreases |lines|
  {
    if lines != [] {
      var before, line := lines[..|lines| - 1], lines[|lines| - 1];
      FoldAddsRows(render, step, s, before);
      assert LineAdds(render, step, s.columns, line);
      AddsOneMore(render, s, Fold(step, s, before), step(Fold(step, s, before), line), before, line);
      assert lines == before + [line];
    }
  }

  function Renderer(columns: seq<string>): Row -> string
    requires columns != []
  {
    r => Render(r, columns)
  }

  lemma RowLineAdds(l: Locale, s: State, r: Row, columns: seq<string>)
    requires Sound(l) && RowOk(l, r) && |columns| > 1 && s.columns == Some(columns)
            && !LooksLikeMarkup(Render(r, columns))
    ensures AddsRow(Renderer(columns), s, Step(l)(s, Render(r, columns)), Render(r, columns))
  {
    RowReadsBack(l, s, r, columns);
    RenderReadsBack(r, columns);
  }

  lemma RowsReadBack(l: Locale, s: State, rows: seq<Row>, columns: seq<string>, lines: seq<string>)
    requires Sound(l) && |columns| > 1 && s.columns == Some(columns) && s.rows == []
    requires |lines| == |rows| && forall i :: 0 <= i < |rows| ==> lines[i] == Render(rows[i], columns)
    requires forall i :: 0 <= i < |rows| ==> RowOk(l, rows[i]) && !LooksLikeMarkup(lines[i])
    ensures AddsAll(Renderer(columns), s, ReadFrom(l, s, lines), lines)
  {
    forall i | 0 <= i < |lines|
      ensures LineAdds(Renderer(columns), Step(l), s.columns, lines[i])
    {
      forall x: State | x.columns == Some(columns)
        ensures AddsRow(Renderer(columns), x, Step(l)(x, lines[i]), lines[i])
      {
        RowLineAdds(l, x, rows[i], columns);
      }
    }
    FoldAddsRows(Renderer(columns), Step(l), s, lines);
  }

  // ----- The theorem -----

  /** The lines a program is read back from. */
  function Rereadable(l: Locale, p: Program): seq<string>
    requires p.columns != [] && SortedSound(l, p.directives.Keys)
  {
    ["#" + p.magic] + Header(l, p) + Rendered(p)
  }

  lemma RestoredIsRereadable(l: Locale, p: Program)
    requires p.columns != [] && SortedSound(l, p.directives.Keys)
    ensures Restored(CanonicalLines(l, p)) == Rereadable(l, p)
  {
    var lines := CanonicalLines(l, p);
    assert lines[0] == p.magic && lines[1..] == Header(l, p) + Rendered(p);
  }

  /** Reading back gave the same directives, columns and rendered rows. */
  predicate Faithful(p: Program, again: Option<Program>)
    requires p.columns != []
  {
    && again.Some? && again.value.magic == p.magic && again.value.directives == p.directives
    && again.value.columns == p.columns && Rendered(again.value) == Rendered(p)
  }

  /** Nothing in the text can be taken for something else: two columns or more and no row that looks like markup; or
      a single column without an alias separator, and no rows. */
  predicate Unambiguous(p: Program)
    requires p.columns != []
  {
    if |p.columns| > 1 then forall i :: 0 <= i < |p.rows| ==> !LooksLikeMarkup(Rendered(p)[i])
    else p.rows == [] && ALIAS !in p.columns[0]
  }

  lemma RereadRows(l: Locale, p: Program)
    requires Sound(l) && ProgramOk(l, p)
    ensures SortedSound(l, p.directives.Keys)
    ensures var s := AfterHeader(l, p, ReadColumns(l, Join(p.columns, SEP)));
            ReadLines(l, Rereadable(l, p)) == ReadFrom(l, s, Rendered(p))
  {
    HeaderReadsBack(l, p);
    ReadOn(l, BEFORE, ["#" + p.magic] + Header(l, p), Rendered(p));
  }

  lemma FaithfulIfAllAdded(l: Locale, p: Program, s: State)
    requires p.columns != [] && SortedSound(l, p.directives.Keys) && s == AfterHeader(l, p, p.columns)
    requires AddsAll(Renderer(p.columns), s, ReadLines(l, Rereadable(l, p)), Rendered(p))
    ensures Faithful(p, Parsed(l, Rereadable(l, p)))
  {
    var again := Parsed(l, Rereadable(l, p)).value;
    assert Rendered(again) == Rendered(p);
  }

  lemma UnambiguousReadsBack(l: Locale, p: Program)
    requires Sound(l) && ProgramOk(l, p) && Unambiguous(p)
    ensures SortedSound(l, p.directives.Keys)
    ensures Faithful(p, Parsed(l, Rereadable(l, p)))
  {
    RereadRows(l, p);
    ColumnsReadBack(l, p.columns);
    var s := AfterHeader(l, p, p.columns);
    if |p.columns| > 1 {
      RowsReadBack(l, s, p.rows, p.columns, Rendered(p));
    }
    FaithfulIfAllAdded(l, p, s);
  }

  lemma LineAddsAtMostOneRow(l: Locale, s: State, raw: string)
    ensures |s.rows| <= |Step(l)(s, raw).rows| <= |s.rows| + 1
  {
  }

  lemma {:induction false} FoldCounts<S(!new)>(step: (S, string) -> S, count: S -> nat, s: S, lines: seq<string>)
    requires forall x, raw :: count(x) <= count(step(x, raw)) <= count(x) + 1
    ensures count(s) <= count(Fold(step, s, lines)) <= count(s) + |lines|
    decreases |lines|
  {
    if lines != [] {
      FoldCounts(step, count, s, lines[..|lines| - 1]);
    }
  }

  lemma RowsAreFromLines(l: Locale, s: State, lines: seq<string>)
    ensures |s.rows| <= |ReadFrom(l, s, lines).rows| <= |s.rows| + |lines|
  {
    var count := (x: State) => |x.rows|;
    forall x, raw
      ensures count(x) <= count(Step(l)(x, raw)) <= count(x) + 1
    {
      LineAddsAtMostOneRow(l, x, raw);
    }
    FoldCounts(Step(l), count, s, lines);
  }

  /** If a line adds no row where it stands, there are fewer rows than lines. */
  lemma IdleLineCosts(l: Locale, s: State, lines: seq<string>, i: nat)
    requires i < |lines|
    requires |ReadLine(l, ReadFrom(l, s, lines[..i]), lines[i]).rows| == |ReadFrom(l, s, lines[..i]).rows|
    ensures |ReadFrom(l, s, lines).rows| < |s.rows| + |lines|
  {
    var before, line, after := lines[..i], lines[i], lines[i + 1..];
    assert lines == before + ([line] + after);
    ReadOn(l, s, before, [line] + after);
    ReadOn(l, ReadFrom(l, s, before), [line], after);
    ReadOne(l, ReadFrom(l, s, before), line);
    RowsAreFromLines(l, s, before);
    RowsAreFromLines(l, ReadFrom(l, ReadFrom(l, s, before), [line]), after);
  }

  lemma MarkupAddsNoRow(l: Locale, s: State, line: string)
    requires Trim(line) && LooksLikeMarkup(line)
    ensures ReadLine(l, s, line).rows == s.rows
  {
    StripTrimmed(line);
  }

  lemma RenderedIsTrim(l: Locale, p: Program, i: nat)
    requires Sound(l) && ProgramOk(l, p) && i < |p.rows|
    ensures Trim(Rendered(p)[i])
  {
    CellsAreOk(l, p.rows[i], p.columns);
    JoinIsTrim(Cells(p.rows[i], p.columns));
  }

  lemma {:induction false} SplitsInTwo(s: string, sep: char)
    requires sep in s
    ensures |Split(s, sep)| >= 2
    decreases |s|
  {
    if s[0] != sep {
      assert s == [s[0]] + s[1..];
      SplitsInTwo(s[1..], sep);
    }
  }

  /** Under one column no line reads as a row: without a separator it has no cells, and with one it has too many. */
  lemma OneColumnReadsNoRow(l: Locale, s: State, line: string)
    requires s.columns.Some? && |s.columns.value| == 1
    ensures ReadRow(l, s, line).rows == s.rows
  {
    if SEP in line {
      SplitsInTwo(line, SEP);
    } else if ALIAS in line {
      SplitsInTwo(line, ALIAS);
    }
  }

  lemma MarkupRowIsLost(l: Locale, p: Program, i: nat)
    requires Sound(l) && ProgramOk(l, p) && i < |p.rows| && LooksLikeMarkup(Rendered(p)[i])
    ensures SortedSound(l, p.directives.Keys) && !Faithful(p, Parsed(l, Rereadable(l, p)))
  {
    RereadRows(l, p);
    var s := AfterHeader(l, p, ReadColumns(l, Join(p.columns, SEP)));
    RenderedIsTrim(l, p, i);
    MarkupAddsNoRow(l, ReadFrom(l, s, Rendered(p)[..i]), Rendered(p)[i]);
    IdleLineCosts(l, s, Rendered(p), i);
    LostRowShows(l, p);
  }

  lemma LostRowShows(l: Locale, p: Program)
    requires Sound(l) && ProgramOk(l, p) && SortedSound(l, p.directives.Keys)
    requires |ReadLines(l, Rereadable(l, p)).rows| != |p.rows|
    ensures !Faithful(p, Parsed(l, Rereadable(l, p)))
  {
    var again := Parsed(l, Rereadable(l, p));
    if again.Some? && again.value.columns == p.columns {
      assert |Rendered(again.value)| != |Rendered(p)|;
    }
  }

  lemma {:induction false} NamesHaveNoAlias(l: Locale, parts: seq<string>)
    requires Sound(l) && forall i :: 0 <= i < |parts| ==> ALIAS !in parts[i]
    ensures forall i :: 0 <= i < |Names(l, parts)| ==> ALIAS !in Names(l, parts)[i]
    decreases |parts|
  {
    if parts != [] {
      NamesHaveNoAlias(l, parts[..|parts| - 1]);
      StripKeepsOut(parts[|parts| - 1], ALIAS);
      assert UpperSound(l, Strip(parts[|parts| - 1]));
    }
  }

  /** A single column that holds an alias separator is read back as other columns. */
  lemma AliasColumnIsSplit(l: Locale, p: Program)
    requires Sound(l) && ProgramOk(l, p) && |p.columns| == 1 && ALIAS in p.columns[0]
    ensures ReadColumns(l, Join(p.columns, SEP)) != p.columns
  {
    var c := p.columns[0];
    NamesHaveNoAlias(l, Split(c, ALIAS));
  }

  lemma RowLineKeepsColumns(l: Locale, s: State, line: string)
    requires s.columns.Some? && Trim(line) && !LooksLikeMarkup(line)
    ensures Step(l)(s, line).columns == s.columns
  {
    StripTrimmed(line);
  }

  /** What each of these lines keeps, reading them keeps. */
  lemma {:induction false} FoldKeepsOver<S(!new)>(step: (S, string) -> S, kept: S -> bool, s: S, lines: seq<string>)
    requires kept(s) && forall x, i {:trigger step(x, lines[i])} :: 0 <= i < |lines| && kept(x) ==>
              kept(step(x, lines[i]))
    ensures kept(Fold(step, s, lines))
    decreases |lines|
  {
    if lines != [] {
      var n := |lines| - 1;
      FoldKeepsOver(step, kept, s, lines[..n]);
      assert kept(step(Fold(step, s, lines[..n]), lines[n]));
    }
  }

  lemma NoMarkupKeepsColumns(l: Locale, s: State, lines: seq<string>)
    requires s.columns.Some? && forall i :: 0 <= i < |lines| ==> Trim(lines[i]) && !LooksLikeMarkup(lines[i])
    ensures ReadFrom(l, s, lines).columns == s.columns
  {
    forall x: State, i | 0 <= i < |lines| && x.columns == s.columns
      ensures Step(l)(x, lines[i]).columns == s.columns
    {
      RowLineKeepsColumns(l, x, lines[i]);
    }
    FoldKeepsOver(Step(l), (x: State) => x.columns == s.columns, s, lines);
  }

  lemma OneColumnIsUnfaithful(l: Locale, p: Program)
    requires Sound(l) && ProgramOk(l, p) && |p.columns| == 1 && !Unambiguous(p)
    requires forall i :: 0 <= i < |p.rows| ==> !LooksLikeMarkup(Rendered(p)[i])
    ensures SortedSound(l, p.directives.Keys) && !Faithful(p, Parsed(l, Rereadable(l, p)))
  {
    RereadRows(l, p);
    var columns := ReadColumns(l, Join(p.columns, SEP));
    var s := AfterHeader(l, p, columns);
    forall i | 0 <= i < |p.rows|
      ensures Trim(Rendered(p)[i])
    {
      RenderedIsTrim(l, p, i);
    }
    NoMarkupKeepsColumns(l, s, Rendered(p));
    if columns == p.columns {
      if ALIAS in p.columns[0] {
        AliasColumnIsSplit(l, p);
      } else {
        FirstRowIsLost(l, p, s);
      }
    }
  }

  lemma FirstRowIsLost(l: Locale, p: Program, s: State)
    requires Sound(l) && ProgramOk(l, p) && |p.columns| == 1 && p.rows != [] && SortedSound(l, p.directives.Keys)
    requires !LooksLikeMarkup(Rendered(p)[0]) && s == AfterHeader(l, p, p.columns)
    requires ReadLines(l, Rereadable(l, p)) == ReadFrom(l, s, Rendered(p))
    ensures !Faithful(p, Parsed(l, Rereadable(l, p)))
  {
    var lines := Rendered(p);
    RenderedIsTrim(l, p, 0);
    StripTrimmed(lines[0]);
    assert lines[..0] == [];
    OneColumnReadsNoRow(l, s, lines[0]);
    IdleLineCosts(l, s, lines, 0);
    LostRowShows(l, p);
  }

  /** Restoring the leading mark and reading canonical text back gives the same directives, columns and rendered rows
      exactly when nothing in the text is ambiguous. */
  lemma FaithfulIffUnambiguous(l: Locale, lines: seq<string>)
    requires Sound(l) && Parsed(l, lines).Some?
    ensures var p := Parsed(l, lines).value;
            && p.columns != [] && SortedSound(l, p.directives.Keys)
            && (Faithful(p, Parsed(l, Restored(CanonicalLines(l, p)))) <==> Unambiguous(p))
  {
    ParsedIsOk(l, lines);
    var p := Parsed(l, lines).value;
    assert SortedSound(l, p.directives.Keys);
    RestoredIsRereadable(l, p);
    if Unambiguous(p) {
      UnambiguousReadsBack(l, p);
    } else if i :| 0 <= i < |p.rows| && LooksLikeMarkup(Rendered(p)[i]) {
      MarkupRowIsLost(l, p, i);
    } else {
      OneColumnIsUnfaithful(l, p);
    }
  }

  /** And then the canonical text of what was read back is the same text. */
  lemma CanonicalTextIsAFixpoint(l: Locale, lines: seq<string>)
    requires Sound(l) && Parsed(l, lines).Some? && Parsed(l, lines).value.columns != []
            && Unambiguous(Parsed(l, lines).value)
    ensures var p := Parsed(l, lines).value;
            && SortedSound(l, p.directives.Keys)
            && var again := Parsed(l, Restored(CanonicalLines(l, p)));
            && again.Some? && again.value.columns != [] && SortedSound(l, again.value.directives.Keys)
            && CanonicalLines(l, again.value) == CanonicalLines(l, p)
  {
    FaithfulIffUnambiguous(l, lines);
  }
}
