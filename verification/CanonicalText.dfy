/** Reading a program's lines and writing them back canonically. Unicode composition, upper-casing, the sorting of
    directive names and the recognition of the magic line are parameters; what is assumed of them is stated once, in
    Sound, and the magic line's own pattern is shown to meet it. */
module CanonicalText {
  import opened Common
  import opened Text

  const SEP := '\U{A6}'
  const ALIAS := '|'

  /** The names of the columns a row has by default, in order. */
  function ColumnName(i: nat): string {
    match i
    case 0 => "ROW" case 1 => "FACE" case 2 => "LANE" case 3 => "QSPACE" case 4 => "OP" case 5 => "OUT"
    case 6 => "CTRL" case 7 => "A" case 8 => "B" case 9 => "PARAM" case 10 => "TYPE" case 11 => "BASIS"
    case 12 => "REGIME" case 13 => "ASSUME" case 14 => "ERROR" case 15 => "RESOURCE" case 16 => "CONF"
    case 17 => "PROOF" case 18 => "DOMAIN" case 19 => "NODE" case 20 => "LINK" case _ => "FAMILY"
  }

  function FullColumns(): seq<string> {
    seq(22, i requires 0 <= i < 22 => ColumnName(i))
  }

  datatype Locale = Locale(nfc: string -> string, upper: string -> string, sorted: set<string> -> seq<string>,
                           magic: string -> Option<string>)

  /** Composition is settled once the text is tidy, and neither adds nor removes separators. */
  ghost predicate NfcSound(l: Locale, s: string) {
    l.nfc(Tidy(l.nfc(s))) == Tidy(l.nfc(s)) && (SEP in l.nfc(s) ==> SEP in s)
  }

  /** Upper-casing is settled after one go, and leaves white space and separators as they are. */
  ghost predicate UpperSound(l: Locale, s: string) {
    && l.upper(l.upper(s)) == l.upper(s)
    && (Trim(s) ==> Trim(l.upper(s))) && (s != "" && NoSpace(s) ==> l.upper(s) != "" && NoSpace(l.upper(s)))
    && (SEP !in s ==> SEP !in l.upper(s)) && (ALIAS !in s ==> ALIAS !in l.upper(s))
  }

  ghost predicate SortedSound(l: Locale, keys: set<string>) {
    && (forall k :: k in l.sorted(keys) <==> k in keys)
    && (forall i, j :: 0 <= i < j < |l.sorted(keys)| ==> l.sorted(keys)[i] != l.sorted(keys)[j])
  }

  /** What a magic line says, written out after the mark, says the same. */
  ghost predicate MagicSound(magic: string -> Option<string>, body: string) {
    magic(body).Some? ==> Trim(magic(body).value) && magic("#" + magic(body).value) == magic(body)
  }

  ghost predicate Sound(l: Locale) {
    && (forall s {:trigger MagicSound(l.magic, s)} :: MagicSound(l.magic, s))
    && (forall s {:trigger NfcSound(l, s)} :: NfcSound(l, s)) && l.nfc(NULL_CELL) == NULL_CELL
    && (forall s {:trigger UpperSound(l, s)} :: UpperSound(l, s)) && l.upper("COLUMNS") == "COLUMNS"
    && (forall i :: 0 <= i < |FullColumns()| ==> l.upper(FullColumns()[i]) == FullColumns()[i])
    && (forall keys {:trigger SortedSound(l, keys)} :: SortedSound(l, keys))
  }

  function NormalizeCell(l: Locale, raw: string): string {
    var t := Tidy(l.nfc(raw));
    if t == "" then NULL_CELL else t
  }

  // ----- Programs -----

  /** A row: the cells it was read with, by column. A column it has no cell for reads as null. */
  type Row = map<string, string>

  function Cell(r: Row, column: string): string {
    if column in r then r[column] else NULL_CELL
  }

  function Cells(r: Row, columns: seq<string>): (cells: seq<string>)
    ensures |cells| == |columns| && forall i :: 0 <= i < |columns| ==> cells[i] == Cell(r, columns[i])
  {
    seq(|columns|, i requires 0 <= i < |columns| => Cell(r, columns[i]))
  }

  function Render(r: Row, columns: seq<string>): string
    requires columns != []
  {
    Join(Cells(r, columns), SEP)
  }

  datatype Program = Program(magic: string, directives: map<string, string>, columns: seq<string>, rows: seq<Row>)

  datatype Fault = W_COL_001 | E_GRAM_001 | E_GRAM_002 | E_GRAM_003 | E_GRAM_004 | E_GRAM_005

  // ----- Reading -----

  datatype State = State(magic: Option<string>, directives: map<string, string>, columns: Option<seq<string>>,
                         rows: seq<Row>, faults: seq<Fault>)

  const BEFORE := State(None, map[], None, [], [])

  /** The text up to the first white space. */
  function FirstWord(s: string): (w: string)
    ensures |w| <= |s| && NoSpace(w)
    ensures s != "" && !IsSpace(s[0]) ==> w != ""
  {
    if s == "" || IsSpace(s[0]) then "" else [s[0]] + FirstWord(s[1..])
  }

  datatype Directive = NoDirective | Directive(key: string, value: string)

  function ReadDirective(l: Locale, body: string): Directive
    requires body != ""
  {
    var s := LStrip(body[1..]);
    if s == "" then NoDirective else
    var word := FirstWord(s);
    var value := Strip(s[|word|..]);
    Directive(l.upper(word), if value == "" then "true" else value)
  }

  /** Column names: trimmed and upper-cased, the empty ones left out. */
  function Names(l: Locale, parts: seq<string>): seq<string> {
    if parts == [] then []
    else Names(l, parts[..|parts| - 1]) +
         var c := Strip(parts[|parts| - 1]);
         if c == "" then [] else [l.upper(c)]
  }

  function ReadColumns(l: Locale, value: string): seq<string> {
    Names(l, Split(value, if SEP in value then SEP else ALIAS))
  }

  function Extensions(columns: seq<string>): seq<Fault> {
    if columns == [] then []
    else Extensions(columns[..|columns| - 1]) + if columns[|columns| - 1] in FullColumns() then [] else [W_COL_001]
  }

  function NormalizeAll(l: Locale, cells: seq<string>): (r: seq<string>)
    ensures |r| == |cells| && forall i :: 0 <= i < |cells| ==> r[i] == NormalizeCell(l, cells[i])
  {
    seq(|cells|, i requires 0 <= i < |cells| => NormalizeCell(l, cells[i]))
  }

  /** The cells by column; a column named twice keeps its last cell. */
  function RowOf(columns: seq<string>, cells: seq<string>): Row
    requires |columns| == |cells|
  {
    if columns == [] then map[]
    else RowOf(columns[..|columns| - 1], cells[..|cells| - 1])[columns[|columns| - 1] := cells[|cells| - 1]]
  }

  function RowId(r: Row): string {
    Cell(r, "ROW")
  }

  predicate Seen(rows: seq<Row>, id: string) {
    exists i :: 0 <= i < |rows| && RowId(rows[i]) == id
  }

  function CurrentColumns(s: State): seq<string> {
    if s.columns.Some? then s.columns.value else FullColumns()
  }

  /** The normalized cells of a line, if it has a separator. */
  function ReadCells(l: Locale, line: string): seq<string> {
    if SEP !in line && ALIAS !in line then [] else NormalizeAll(l, Split(line, if SEP in line then SEP else ALIAS))
  }

  function AddRow(s: State, r: Row): State {
    s.(rows := s.rows + [r], faults := if Seen(s.rows, RowId(r)) then s.faults + [E_GRAM_003] else s.faults)
  }

  function ReadRow(l: Locale, s: State, line: string): State {
    var columns, cells := CurrentColumns(s), ReadCells(l, line);
    var s' := s.(columns := Some(columns));
    if cells == [] then s'.(faults := s.faults + [E_GRAM_001])
    else if |cells| != |columns| then s'.(faults := s.faults + [E_GRAM_002])
    else AddRow(s', RowOf(columns, cells))
  }

  function ReadMarkup(l: Locale, s: State, body: string): State
    requires body != ""
  {
    if s.magic == None && l.magic(body).Some? then s.(magic := l.magic(body)) else
    match ReadDirective(l, body)
    case NoDirective => s
    case Directive(key, value) =>
      if key == "COLUMNS" then
        var columns := ReadColumns(l, value);
        s.(columns := Some(columns), faults := s.faults + Extensions(columns))
      else s.(directives := s.directives[key := value])
  }

  function ReadLine(l: Locale, s: State, raw: string): State {
    var line := RStrip(raw);
    var body := LStrip(line);
    if body == "" || ";;" <= body then s
    else if body[0] == '#' then ReadMarkup(l, s, body)
    else ReadRow(l, s, line)
  }

  /** The state after the lines, one step each. */
  function Fold<S>(step: (S, string) -> S, s: S, lines: seq<string>): S {
    if lines == [] then s else step(Fold(step, s, lines[..|lines| - 1]), lines[|lines| - 1])
  }

  function Step(l: Locale): (State, string) -> State {
    (s, raw) => ReadLine(l, s, raw)
  }

  function ReadFrom(l: Locale, s: State, lines: seq<string>): State {
    Fold(Step(l), s, lines)
  }

  function ReadLines(l: Locale, lines: seq<string>): State {
    ReadFrom(l, BEFORE, lines)
  }

  datatype Reading = Reading(program: Option<Program>, faults: seq<Fault>)

  function Finish(s: State): Reading {
    if s.magic == None then Reading(None, s.faults + [E_GRAM_004]) else
    var columns := if s.columns.None? || s.columns.value == [] then FullColumns() else s.columns.value;
    Reading(Some(Program(s.magic.value, s.directives, columns, s.rows)),
            if s.rows == [] then s.faults + [E_GRAM_005] else s.faults)
  }

  function Parsed(l: Locale, lines: seq<string>): Option<Program> {
    Finish(ReadLines(l, lines)).program
  }

  method ReadMarkupLine(l: Locale, before: State, body: string) returns (s: State)
    requires body != ""
    ensures s == ReadMarkup(l, before, body)
  {
    s := before;
    if s.magic == None {
      var magic := l.magic(body);
      if magic.Some? {
        return s.(magic := magic);
      }
    }
    match ReadDirective(l, body) {
      case NoDirective =>
      case Directive(key, value) =>
        if key == "COLUMNS" {
          var columns := ReadColumns(l, value);
          s := s.(columns := Some(columns), faults := s.faults + Extensions(columns));
        } else {
          s := s.(directives := s.directives[key := value]);
        }
    }
  }

  method SeenBefore(rows: seq<Row>, id: string) returns (again: bool)
    ensures again <==> Seen(rows, id)
  {
    again := false;
    for k := 0 to |rows|
      invariant again <==> exists i :: 0 <= i < k && RowId(rows[i]) == id
    {
      again := again || RowId(rows[k]) == id;
    }
  }

  method ReadRowLine(l: Locale, before: State, line: string) returns (s: State)
    ensures s == ReadRow(l, before, line)
  {
    s := before;
    if s.columns == None {
      s := s.(columns := Some(FullColumns()));
    }
    if SEP !in line && ALIAS !in line {
      return s.(faults := s.faults + [E_GRAM_001]);
    }
    var cells := NormalizeAll(l, Split(line, if SEP in line then SEP else ALIAS));
    if |cells| != |s.columns.value| {
      return s.(faults := s.faults + [E_GRAM_002]);
    }
    var r := RowOf(s.columns.value, cells);
    var again := SeenBefore(s.rows, RowId(r));
    if again {
      s := s.(faults := s.faults + [E_GRAM_003]);
    }
    s := s.(rows := s.rows + [r]);
  }

  method Parse(l: Locale, lines: seq<string>) returns (r: Reading)
    ensures r == Finish(ReadLines(l, lines)) && r.program == Parsed(l, lines)
  {
    var s := BEFORE;
    for i := 0 to |lines|
      invariant s == ReadLines(l, lines[..i])
    {
      assert lines[..i + 1][..i] == lines[..i];
      var line := RStrip(lines[i]);
      var body := LStrip(line);
      if body == "" || ";;" <= body {
        continue;
      }
      if body[0] == '#' {
        s := ReadMarkupLine(l, s, body);
      } else {
        s := ReadRowLine(l, s, line);
      }
    }
    assert lines[..|lines|] == lines;
    if s.magic == None {
      return Reading(None, s.faults + [E_GRAM_004]);
    }
    var faults := s.faults;
    if s.rows == [] {
      faults := faults + [E_GRAM_005];
    }
    var columns := if s.columns.None? || s.columns.value == [] then FullColumns() else s.columns.value;
    r := Reading(Some(Program(s.magic.value, s.directives, columns, s.rows)), faults);
  }

  // ----- Writing -----

  function DirectiveLines(directives: map<string, string>, keys: seq<string>): seq<string>
    requires forall k :: k in keys ==> k in directives
  {
    seq(|keys|, i requires 0 <= i < |keys| => "#" + keys[i] + " " + directives[keys[i]])
  }

  function Rendered(p: Program): (lines: seq<string>)
    requires p.columns != []
    ensures |lines| == |p.rows| && forall i :: 0 <= i < |p.rows| ==> lines[i] == Render(p.rows[i], p.columns)
  {
    seq(|p.rows|, i requires 0 <= i < |p.rows| => Render(p.rows[i], p.columns))
  }

  function Header(l: Locale, p: Program): seq<string>
    requires p.columns != [] && SortedSound(l, p.directives.Keys)
  {
    DirectiveLines(p.directives, l.sorted(p.directives.Keys)) + ["#COLUMNS " + Join(p.columns, SEP)]
  }

  /** The lines the program is sealed over: the bare magic, the directives by name, the columns, the rows. */
  function CanonicalLines(l: Locale, p: Program): seq<string>
    requires p.columns != [] && SortedSound(l, p.directives.Keys)
  {
    [p.magic] + (Header(l, p) + Rendered(p))
  }

  /** The same with the leading mark put back on the magic, so that it can be read again. */
  function Restored(lines: seq<string>): seq<string>
    requires lines != []
  {
    ["#" + lines[0]] + lines[1..]
  }
}
