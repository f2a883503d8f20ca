/** What becomes of canonical text that is read as it stands, without the mark of its first line: never the same
    program, and exactly when some program at all. */
module UnmarkedText {
  import opened Common
  import opened Text
  import opened CanonicalText
  import opened CanonicalRoundTrip
  import opened MagicLine

  // ----- What the pattern of the magic line takes a line for -----

  lemma VersionHasNo(v: string, c: char)
    requires IsVersion(v) && !IsDigit(c) && c != '.'
    ensures c !in v
  {
    var k :| 0 < k < |v| && v[k] == '.' && AllDigits(v[..k]) && AllDigits(v[k + 1..]);
    forall i | 0 <= i < |v|
      ensures v[i] != c
    {
      if i < k {
        assert v[i] == v[..k][i];
      } else if i > k {
        assert v[i] == v[k + 1..][i - k - 1];
      }
    }
  }

  lemma SeparatorsAreNoDigits()
    ensures !IsDigit(SEP) && !IsDigit(ALIAS) && !IsDigit(' ') && SEP != '.' && ALIAS != '.' && IsSpace(' ')
  {
  }

  lemma DialectsAreWords(d: string)
    requires d in Dialects()
    ensures d != "" && NoSpace(d) && SEP !in d && ALIAS !in d && '/' !in d && d[0] in "PLQ"
  {
  }

  /** A magic that was read is a dialect, a slash and a version, so it has no separator and does not look marked up. */
  lemma MagicIsPlain(l: Locale, m: string)
    requires l.magic == ReadMagic && MagicOk(l, m)
    ensures SEP !in m && ALIAS !in m && !LooksLikeMarkup(m)
  {
    var d, v := ReadFirstForm("#" + m, Dialects());
    DialectsAreWords(d);
    SeparatorsAreNoDigits();
    VersionHasNo(v, SEP);
    VersionHasNo(v, ALIAS);
    assert m == d + "/" + v && m[0] == d[0];
  }

  lemma {:induction false} NoneReads(body: string, dialects: seq<string>)
    requires body != "" && forall d :: d in dialects ==> MagicOf(body, d) == None
    ensures ReadFirst(body, dialects) == None
    decreases |dialects|
  {
    if dialects != [] {
      assert dialects[0] in dialects;
      NoneReads(body, dialects[1..]);
    }
  }

  /** The line that names the columns is never taken for a magic line. */
  lemma ColumnLineIsNoMagic(value: string)
    ensures ReadMagic("#COLUMNS " + value) == None
  {
    var line := "#COLUMNS " + value;
    assert line[1] == 'C';
    forall d | d in Dialects()
      ensures MagicOf(line, d) == None
    {
      DialectsAreWords(d);
      OtherDialectsDoNot(line, d);
    }
    NoneReads(line, Dialects());
  }

  lemma {:induction false} ReadFirstIff(body: string, dialects: seq<string>)
    requires body != ""
    ensures ReadFirst(body, dialects).Some? <==> exists d :: d in dialects && MagicOf(body, d).Some?
    decreases |dialects|
  {
    if dialects != [] {
      ReadFirstIff(body, dialects[1..]);
      assert dialects == [dialects[0]] + dialects[1..];
    }
  }

  /** The name and value of a directive spell a magic line together: the name is a dialect and the value a slash and a
      version, or the name is a dialect with the slash and the value a version. */
  predicate SpellsMagic(d: string, k: string, v: string) {
    || (k == d && v != "" && v[0] == '/' && IsVersion(Strip(v[1..])))
    || (k == d + "/" && IsVersion(v))
  }

  lemma {:induction false} LStripKeepsEnd(s: string)
    requires s != "" && !IsSpace(s[|s| - 1])
    ensures LStrip(s) != "" && LStrip(s)[|LStrip(s)| - 1] == s[|s| - 1]
    decreases |s|
  {
    if IsSpace(s[0]) {
      LStripKeepsEnd(s[1..]);
    }
  }

  /** Text that starts and ends with no white space but has some inside is no version, however it is stripped. */
  lemma InnerBlankIsNoVersion(w: string, v: string)
    requires w != "" && NoSpace(w) && Trim(v)
    ensures !IsVersion(Strip(w + " " + v))
  {
    var s := w + " " + v;
    assert s[0] == w[0] && s[|s| - 1] == v[|v| - 1];
    StripTrimmed(s);
    SeparatorsAreNoDigits();
    assert s[|w|] == ' ';
    if IsVersion(s) {
      VersionHasNo(s, ' ');
    }
  }

  lemma PrefixOfWord(d: string, k: string, v: string)
    requires NoSpace(d) && d <= k + " " + v
    ensures d <= k
  {
    assert (k + " " + v)[|k|] == ' ' && IsSpace(' ');
  }

  lemma MagicOfDirective(d: string, k: string, v: string)
    requires d in Dialects() && k != "" && NoSpace(k) && Trim(v)
    ensures MagicOf("#" + k + " " + v, d).Some? <==> SpellsMagic(d, k, v)
  {
    var body, s := "#" + k + " " + v, k + " " + v;
    DialectsAreWords(d);
    SeparatorsAreNoDigits();
    assert body[1..] == s && LStrip(s) == s;
    assert d <= k ==> d <= s;
    if d <= s {
      PrefixOfWord(d, k, v);
      AfterDialect(d, k, v);
    }
  }

  lemma AfterDialect(d: string, k: string, v: string)
    requires d in Dialects() && d <= k && NoSpace(k) && Trim(v)
    ensures var t := LStrip((k + " " + v)[|d|..]);
            (t != "" && t[0] == '/' && IsVersion(Strip(t[1..]))) <==> SpellsMagic(d, k, v)
  {
    var rest := k[|d|..];
    assert k == d + rest;
    SeparatorsAreNoDigits();
    assert (k + " " + v)[|d|..] == rest + " " + v;
    if rest == "" {
      assert rest + " " + v == " " + v && (" " + v)[1..] == v;
      StripTrimmed(v);
      assert LStrip(" " + v) == v && d != d + "/";
    } else {
      var t := rest + " " + v;
      assert t[0] == rest[0] == k[|d|] && t[1..] == rest[1..] + " " + v && LStrip(t) == t;
      assert k == d + "/" <==> rest == "/";
      if |rest| > 1 {
        assert forall i :: 0 <= i < |rest| - 1 ==> rest[1..][i] == k[|d| + 1 + i];
        InnerBlankIsNoVersion(rest[1..], v);
      } else {
        assert rest[1..] + " " + v == " " + v;
        BlankStrips(v);
      }
    }
  }

  /** A directive's line is taken for a magic line exactly when its name and value spell one. */
  lemma DirectiveReadsAsMagicIff(k: string, v: string)
    requires k != "" && NoSpace(k) && Trim(v)
    ensures ReadMagic("#" + k + " " + v).Some? <==> exists d :: d in Dialects() && SpellsMagic(d, k, v)
  {
    var line := "#" + k + " " + v;
    ReadFirstIff(line, Dialects());
    forall d | d in Dialects()
      ensures MagicOf(line, d).Some? <==> SpellsMagic(d, k, v)
    {
      MagicOfDirective(d, k, v);
    }
  }

  lemma {:induction false} StrippedKeeps(s: string, c: char)
    requires c in s && !IsSpace(c)
    ensures c in LStrip(s) && c in RStrip(s)
    decreases |s|
  {
    if IsSpace(s[0]) {
      assert s == [s[0]] + s[1..];
      StrippedKeeps(s[1..], c);
    }
    if IsSpace(s[|s| - 1]) {
      assert s == s[..|s| - 1] + [s[|s| - 1]];
      StrippedKeeps(s[..|s| - 1], c);
    }
  }

  /** No line with a separator is taken for a magic line. */
  lemma SeparatedIsNoMagic(line: string)
    requires SEP in line
    ensures ReadMagic(line) == None
  {
    if line[0] == '#' {
      forall d | d in Dialects()
        ensures MagicOf(line, d) == None
      {
        SeparatedDoesNotRead(line, d);
      }
      NoneReads(line, Dialects());
    }
  }

  lemma SeparatedDoesNotRead(line: string, d: string)
    requires line != "" && line[0] == '#' && SEP in line && d in Dialects()
    ensures MagicOf(line, d) == None
  {
    assert line == ['#'] + line[1..];
    StrippedKeeps(line[1..], SEP);
    var s := LStrip(line[1..]);
    DialectsAreWords(d);
    SeparatorsAreNoDigits();
    if d <= s {
      assert s == d + s[|d|..];
      StrippedKeeps(s[|d|..], SEP);
      var t := LStrip(s[|d|..]);
      if t[0] == '/' {
        assert t == ['/'] + t[1..];
        StrippedKeeps(t[1..], SEP);
        StrippedKeeps(LStrip(t[1..]), SEP);
        if IsVersion(Strip(t[1..])) {
          VersionHasNo(Strip(t[1..]), SEP);
        }
      }
    }
  }

  // ----- Reading the header without its mark -----

  /** The unmarked magic is an ungrammatical row: it fixes the default columns and adds nothing. */
  lemma UnmarkedFirstLine(l: Locale, m: string)
    requires l.magic == ReadMagic && MagicOk(l, m)
    ensures ReadFrom(l, BEFORE, [m]) == State(None, map[], Some(FullColumns()), [], [E_GRAM_001])
  {
    MagicIsPlain(l, m);
    StripTrimmed(m);
    ReadOne(l, BEFORE, m);
    PlainLineAddsNothing(l, m);
  }

  lemma PlainLineAddsNothing(l: Locale, m: string)
    requires Trim(m) && SEP !in m && ALIAS !in m && !LooksLikeMarkup(m)
    ensures ReadLine(l, BEFORE, m) == State(None, map[], Some(FullColumns()), [], [E_GRAM_001])
  {
    StripTrimmed(m);
    assert ReadCells(l, m) == [];
  }

  /** What a directive's line does: the first that reads as a magic line gives the magic, every other its directive. */
  function Choose(x: State, k: string, v: string, magic: Option<string>): State {
    if x.magic == None && magic.Some? then x.(magic := magic) else x.(directives := x.directives[k := v])
  }

  lemma DirectiveLineChooses(l: Locale, x: State, k: string, v: string)
    requires DirectiveOk(l, k, v)
    ensures Step(l)(x, "#" + k + " " + v) == Choose(x, k, v, l.magic("#" + k + " " + v))
  {
    DirectiveReadsBack(l, k, v);
  }

  ghost predicate LineChooses(step: (State, string) -> State, line: string, k: string, v: string,
      magic: Option<string>) {
    forall x: State {:trigger step(x, line)} :: step(x, line) == Choose(x, k, v, magic)
  }

  predicate Distinct(keys: seq<string>) {
    forall i, j :: 0 <= i < j < |keys| ==> keys[i] != keys[j]
  }

  function Others(m: map<string, string>, keys: seq<string>, k: string): map<string, string>
    requires forall x :: x in keys ==> x in m
  {
    Picked(m, keys) - {k}
  }

  /** The state in which the directives of these names have been read, with nothing read as a magic line, or with the
      first that could be read so. */
  predicate Chosen(asMagic: string -> Option<string>, m: map<string, string>, keys: seq<string>, s: State, t: State)
    requires forall k :: k in keys ==> k in m
  {
    if t.magic == None then t == s.(directives := Picked(m, keys)) && forall k :: k in keys ==> asMagic(k) == None
    else exists k :: k in keys && asMagic(k) == t.magic && t == s.(magic := t.magic, directives := Others(m, keys, k))
  }

  lemma ChosenMore(asMagic: string -> Option<string>, m: map<string, string>, keys: seq<string>, k: string, s: State,
      t: State)
    requires (forall x :: x in keys + [k] ==> x in m) && k !in keys && Chosen(asMagic, m, keys, s, t)
    ensures Chosen(asMagic, m, keys + [k], s, Choose(t, k, m[k], asMagic(k)))
  {
    var all := keys + [k];
    var u := Choose(t, k, m[k], asMagic(k));
    assert Picked(m, all) == Picked(m, keys)[k := m[k]];
    if t.magic == None {
      if asMagic(k).Some? {
        assert Others(m, all, k) == Picked(m, keys);
        assert k in all;
      }
    } else {
      var first :| first in keys && asMagic(first) == t.magic
                   && t == s.(magic := t.magic, directives := Others(m, keys, first));
      assert Others(m, keys, first)[k := m[k]] == Others(m, all, first);
      assert first in all;
    }
  }

  lemma {:induction false} FoldChooses(step: (State, string) -> State, asMagic: string -> Option<string>, s: State,
                                       m: map<string, string>, keys: seq<string>, lines: seq<string>)
    requires s.magic == None && s.directives == map[] && Distinct(keys) && (forall k :: k in keys ==> k in m)
    requires |lines| == |keys|
    requires forall i :: 0 <= i < |keys| ==> LineChooses(step, lines[i], keys[i], m[keys[i]], asMagic(keys[i]))
    ensures Chosen(asMagic, m, keys, s, Fold(step, s, lines))
    decreases |keys|
  {
    if keys == [] {
      assert Picked(m, keys) == map[];
    } else {
      var n := |keys| - 1;
      assert keys == keys[..n] + [keys[n]];
      FoldChooses(step, asMagic, s, m, keys[..n], lines[..n]);
      assert LineChooses(step, lines[n], keys[n], m[keys[n]], asMagic(keys[n]));
      ChosenMore(asMagic, m, keys[..n], keys[n], s, Fold(step, s, lines[..n]));
    }
  }

  /** What the line of a directive of the program reads as, if it is taken for a magic line. */
  function ReadsAs(p: Program): string -> Option<string> {
    k => if k in p.directives then ReadMagic("#" + k + " " + p.directives[k]) else None
  }

  lemma UnmarkedDirectives(l: Locale, p: Program, s: State)
    requires Sound(l) && l.magic == ReadMagic && ProgramOk(l, p) && s.magic == None && s.directives == map[]
    ensures SortedSound(l, p.directives.Keys)
    ensures var keys := l.sorted(p.directives.Keys);
            Chosen(ReadsAs(p), p.directives, keys, s, ReadFrom(l, s, DirectiveLines(p.directives, keys)))
  {
    assert SortedSound(l, p.directives.Keys);
    var keys := l.sorted(p.directives.Keys);
    var lines := DirectiveLines(p.directives, keys);
    forall i | 0 <= i < |keys|
      ensures LineChooses(Step(l), lines[i], keys[i], p.directives[keys[i]], ReadsAs(p)(keys[i]))
    {
      forall x: State
        ensures Step(l)(x, lines[i]) == Choose(x, keys[i], p.directives[keys[i]], ReadsAs(p)(keys[i]))
      {
        DirectiveLineChooses(l, x, keys[i], p.directives[keys[i]]);
      }
    }
    FoldChooses(Step(l), ReadsAs(p), s, p.directives, keys, lines);
  }

  lemma UnmarkedColumnLine(l: Locale, s: State, columns: seq<string>)
    requires Sound(l) && l.magic == ReadMagic
    requires columns != [] && forall i :: 0 <= i < |columns| ==> NameOk(l, columns[i])
    ensures var value := Join(columns, SEP);
            ReadFrom(l, s, ["#COLUMNS " + value]) ==
            s.(columns := Some(ReadColumns(l, value)), faults := s.faults + Extensions(ReadColumns(l, value)))
  {
    var value := Join(columns, SEP);
    JoinIsTrim(columns);
    ColumnsIsAWord(value);
    DirectiveReadsBack(l, "COLUMNS", value);
    ColumnLineIsNoMagic(value);
    var line := "#COLUMNS " + value;
    ReadOne(l, s, line);
    ColumnLineUnmarked(l, s, line, value);
  }

  lemma ColumnLineUnmarked(l: Locale, s: State, line: string, v: string)
    requires RStrip(line) == line && LStrip(line) == line && !(";;" <= line) && line != "" && line[0] == '#'
    requires l.magic(line) == None && ReadDirective(l, line) == Directive("COLUMNS", v)
    ensures ReadLine(l, s, line) ==
            s.(columns := Some(ReadColumns(l, v)), faults := s.faults + Extensions(ReadColumns(l, v)))
  {
  }

  /** After the header of unmarked text: the columns as read back, no row, and either no magic and every directive, or
      the magic that one directive's line reads as and every directive but that one. */
  ghost predicate AfterUnmarked(l: Locale, p: Program, t: State)
    requires p.columns != []
  {
    && t.rows == [] && t.columns == Some(ReadColumns(l, Join(p.columns, SEP)))
    && if t.magic == None then t.directives == p.directives && forall k :: k in p.directives ==> ReadsAs(p)(k) == None
       else exists k :: k in p.directives && ReadsAs(p)(k) == t.magic && t.directives == p.directives - {k}
  }

  lemma ChosenFromAll(p: Program, keys: seq<string>, s: State, t: State)
    requires (forall k :: k in keys <==> k in p.directives) && Chosen(ReadsAs(p), p.directives, keys, s, t)
    ensures t == s.(magic := t.magic, directives := t.directives)
    ensures if t.magic == None then
              t.directives == p.directives && forall k :: k in p.directives ==> ReadsAs(p)(k) == None
            else exists k :: k in p.directives && ReadsAs(p)(k) == t.magic && t.directives == p.directives - {k}
  {
    assert Picked(p.directives, keys) == p.directives;
  }

  lemma UnmarkedHeader(l: Locale, p: Program) returns (t: State)
    requires Sound(l) && l.magic == ReadMagic && ProgramOk(l, p)
    ensures SortedSound(l, p.directives.Keys)
    ensures AfterUnmarked(l, p, t)
    ensures ReadLines(l, CanonicalLines(l, p)) == ReadFrom(l, t, Rendered(p))
  {
    assert SortedSound(l, p.directives.Keys);
    var keys := l.sorted(p.directives.Keys);
    var directives, last := DirectiveLines(p.directives, keys), "#COLUMNS " + Join(p.columns, SEP);
    UnmarkedFirstLine(l, p.magic);
    var s1 := State(None, map[], Some(FullColumns()), [], [E_GRAM_001]);
    ReadOn(l, BEFORE, [p.magic], Header(l, p) + Rendered(p));
    ReadOn(l, s1, Header(l, p), Rendered(p));
    UnmarkedDirectives(l, p, s1);
    var s2 := ReadFrom(l, s1, directives);
    ChosenFromAll(p, keys, s1, s2);
    ReadOn(l, s1, directives, [last]);
    UnmarkedColumnLine(l, s2, p.columns);
    t := ReadFrom(l, s1, Header(l, p));
  }

  // ----- Reading it never gives the program back -----

  lemma RowKeepsRest(l: Locale, s: State, line: string)
    requires Trim(line) && !LooksLikeMarkup(line)
    ensures Step(l)(s, line).magic == s.magic && Step(l)(s, line).directives == s.directives
  {
    StripTrimmed(line);
  }

  lemma RowsKeepRest(l: Locale, s: State, lines: seq<string>)
    requires forall i :: 0 <= i < |lines| ==> Trim(lines[i]) && !LooksLikeMarkup(lines[i])
    ensures ReadFrom(l, s, lines).magic == s.magic && ReadFrom(l, s, lines).directives == s.directives
  {
    forall x: State, i | 0 <= i < |lines| && x.magic == s.magic && x.directives == s.directives
      ensures Step(l)(x, lines[i]).magic == s.magic && Step(l)(x, lines[i]).directives == s.directives
    {
      RowKeepsRest(l, x, lines[i]);
    }
    FoldKeepsOver(Step(l), (x: State) => x.magic == s.magic && x.directives == s.directives, s, lines);
  }

  lemma LostRowIsSeen(l: Locale, p: Program, lines: seq<string>)
    requires p.columns != [] && |ReadLines(l, lines).rows| != |p.rows|
    ensures !Faithful(p, Parsed(l, lines))
  {
    var again := Parsed(l, lines);
    if again.Some? && again.value.columns == p.columns {
      assert |Rendered(again.value)| != |Rendered(p)|;
    }
  }

  lemma UnmarkedLosesMarkupRow(l: Locale, p: Program, t: State, i: nat)
    requires Sound(l) && ProgramOk(l, p) && SortedSound(l, p.directives.Keys) && t.rows == []
    requires ReadLines(l, CanonicalLines(l, p)) == ReadFrom(l, t, Rendered(p))
    requires i < |p.rows| && LooksLikeMarkup(Rendered(p)[i])
    ensures !Faithful(p, Parsed(l, CanonicalLines(l, p)))
  {
    RenderedIsTrim(l, p, i);
    MarkupAddsNoRow(l, ReadFrom(l, t, Rendered(p)[..i]), Rendered(p)[i]);
    IdleLineCosts(l, t, Rendered(p), i);
    LostRowIsSeen(l, p, CanonicalLines(l, p));
  }

  lemma UnmarkedLosesMagicOrDirective(l: Locale, p: Program, t: State)
    requires Sound(l) && ProgramOk(l, p) && SortedSound(l, p.directives.Keys) && AfterUnmarked(l, p, t)
    requires ReadLines(l, CanonicalLines(l, p)) == ReadFrom(l, t, Rendered(p))
    requires forall i :: 0 <= i < |p.rows| ==> !LooksLikeMarkup(Rendered(p)[i])
    ensures !Faithful(p, Parsed(l, CanonicalLines(l, p)))
  {
    forall i | 0 <= i < |p.rows|
      ensures Trim(Rendered(p)[i])
    {
      RenderedIsTrim(l, p, i);
    }
    RowsKeepRest(l, t, Rendered(p));
    if t.magic.Some? {
      var k :| k in p.directives && ReadsAs(p)(k) == t.magic && t.directives == p.directives - {k};
      assert k !in t.directives;
    }
  }

  /** Canonical text read as it stands never gives the program it was written from. */
  lemma UnmarkedIsNeverFaithful(l: Locale, lines: seq<string>)
    requires Sound(l) && l.magic == ReadMagic && Parsed(l, lines).Some?
    ensures var p := Parsed(l, lines).value;
            && p.columns != [] && SortedSound(l, p.directives.Keys)
            && !Faithful(p, Parsed(l, CanonicalLines(l, p)))
  {
    ParsedIsOk(l, lines);
    var p := Parsed(l, lines).value;
    var t := UnmarkedHeader(l, p);
    if i :| 0 <= i < |p.rows| && LooksLikeMarkup(Rendered(p)[i]) {
      UnmarkedLosesMarkupRow(l, p, t, i);
    } else {
      UnmarkedLosesMagicOrDirective(l, p, t);
    }
  }

  // ----- When it is read as some program -----

  /** A line that gives a reading its magic, if it has none yet. */
  predicate Marks(l: Locale, raw: string) {
    var body := LStrip(RStrip(raw));
    body != "" && !(";;" <= body) && body[0] == '#' && l.magic(body).Some?
  }

  lemma LineMarks(l: Locale, s: State, raw: string)
    ensures Step(l)(s, raw).magic.Some? <==> s.magic.Some? || Marks(l, raw)
  {
  }

  lemma {:induction false} FoldMarks<S(!new)>(step: (S, string) -> S, has: S -> bool, marks: string -> bool, s: S,
      lines: seq<string>)
    requires forall x, raw :: has(step(x, raw)) <==> has(x) || marks(raw)
    ensures has(Fold(step, s, lines)) <==> has(s) || exists i :: 0 <= i < |lines| && marks(lines[i])
    decreases |lines|
  {
    if lines != [] {
      var n := |lines| - 1;
      FoldMarks(step, has, marks, s, lines[..n]);
      assert has(step(Fold(step, s, lines[..n]), lines[n])) <==> has(Fold(step, s, lines[..n])) || marks(lines[n]);
      if i :| 0 <= i < n && marks(lines[..n][i]) {
        assert marks(lines[i]);
      }
      if i :| 0 <= i < |lines| && marks(lines[i]) && i < n {
        assert marks(lines[..n][i]);
      }
    }
  }

  lemma ReadingMarks(l: Locale, s: State, lines: seq<string>)
    ensures ReadFrom(l, s, lines).magic.Some? <==> s.magic.Some? || exists i :: 0 <= i < |lines| && Marks(l, lines[i])
  {
    var has, marks := (x: State) => x.magic.Some?, raw => Marks(l, raw);
    forall x, raw
      ensures has(Step(l)(x, raw)) <==> has(x) || marks(raw)
    {
      LineMarks(l, x, raw);
    }
    FoldMarks(Step(l), has, marks, s, lines);
    assert forall i :: 0 <= i < |lines| ==> marks(lines[i]) == Marks(l, lines[i]);
  }

  lemma TrimmedMarks(l: Locale, line: string)
    requires l.magic == ReadMagic && Trim(line)
    ensures Marks(l, line) <==> ReadMagic(line).Some?
  {
    StripTrimmed(line);
  }

  ghost predicate SomeDirectiveSpellsMagic(p: Program) {
    exists k, d :: k in p.directives && d in Dialects() && SpellsMagic(d, k, p.directives[k])
  }

  ghost predicate SomeRowReadsAsMagic(p: Program)
    requires p.columns != []
  {
    exists i :: 0 <= i < |p.rows| && ReadMagic(Rendered(p)[i]).Some?
  }

  lemma HeaderMagic(l: Locale, p: Program, t: State)
    requires ProgramOk(l, p) && AfterUnmarked(l, p, t)
    ensures t.magic.Some? <==> SomeDirectiveSpellsMagic(p)
  {
    forall k | k in p.directives
      ensures ReadsAs(p)(k).Some? <==> exists d :: d in Dialects() && SpellsMagic(d, k, p.directives[k])
    {
      assert DirectiveOk(l, k, p.directives[k]);
      DirectiveReadsAsMagicIff(k, p.directives[k]);
    }
  }

  lemma RowsMark(l: Locale, p: Program)
    requires Sound(l) && l.magic == ReadMagic && ProgramOk(l, p)
    ensures (exists i :: 0 <= i < |Rendered(p)| && Marks(l, Rendered(p)[i])) <==> SomeRowReadsAsMagic(p)
  {
    forall i: nat | i < |p.rows|
      ensures Marks(l, Rendered(p)[i]) <==> ReadMagic(Rendered(p)[i]).Some?
    {
      RenderedIsTrim(l, p, i);
      TrimmedMarks(l, Rendered(p)[i]);
    }
  }

  /** Unmarked canonical text reads as a program exactly when the name and value of some directive spell a magic line,
      or some row, alone in its column, is one. */
  lemma UnmarkedReadsIff(l: Locale, lines: seq<string>)
    requires Sound(l) && l.magic == ReadMagic && Parsed(l, lines).Some?
    ensures var p := Parsed(l, lines).value;
            && p.columns != [] && SortedSound(l, p.directives.Keys)
            && (Parsed(l, CanonicalLines(l, p)).Some? <==> SomeDirectiveSpellsMagic(p) || SomeRowReadsAsMagic(p))
            && (|p.columns| > 1 ==> !SomeRowReadsAsMagic(p))
  {
    ParsedIsOk(l, lines);
    var p := Parsed(l, lines).value;
    var t := UnmarkedHeader(l, p);
    ReadingMarks(l, t, Rendered(p));
    HeaderMagic(l, p, t);
    RowsMark(l, p);
    if |p.columns| > 1 {
      forall i: nat | i < |p.rows|
        ensures ReadMagic(Rendered(p)[i]) == None
      {
        WideRowIsNoMagic(l, p, i);
      }
    }
  }

  lemma WideRowIsNoMagic(l: Locale, p: Program, i: nat)
    requires Sound(l) && ProgramOk(l, p) && |p.columns| > 1 && i < |p.rows|
    ensures ReadMagic(Rendered(p)[i]) == None
  {
    CellsAreOk(l, p.rows[i], p.columns);
    JoinIsTrim(Cells(p.rows[i], p.columns));
    SeparatedIsNoMagic(Rendered(p)[i]);
  }

  /** Where nothing else is ambiguous, it reads as the same columns and rows under another magic, with the directive
      that spelled it gone. */
  lemma UnmarkedReadsAnother(l: Locale, p: Program)
    requires Sound(l) && l.magic == ReadMagic && ProgramOk(l, p) && Unambiguous(p) && SomeDirectiveSpellsMagic(p)
    ensures SortedSound(l, p.directives.Keys)
    ensures ReadsAnother(p, Parsed(l, CanonicalLines(l, p)))
  {
    var t := UnmarkedHeader(l, p);
    HeaderMagic(l, p, t);
    ColumnsReadBack(l, p.columns);
    if |p.columns| > 1 {
      RowsReadBack(l, t, p.rows, p.columns, Rendered(p));
    }
    AnotherIfAllAdded(l, p, t, ReadLines(l, CanonicalLines(l, p)), Parsed(l, CanonicalLines(l, p)));
  }

  lemma AnotherIfAllAdded(l: Locale, p: Program, t: State, s: State, again: Option<Program>)
    requires p.columns != [] && AfterUnmarked(l, p, t) && t.magic.Some? && t.columns == Some(p.columns)
    requires AddsAll(Renderer(p.columns), t, s, Rendered(p)) && again == Finish(s).program
    ensures ReadsAnother(p, again)
  {
    assert Rendered(again.value) == Rendered(p);
    var k :| k in p.directives && ReadsAs(p)(k) == t.magic && t.directives == p.directives - {k};
    assert k in p.directives && GivesItsDirective(p, again.value, k);
  }

  ghost predicate ReadsAnother(p: Program, again: Option<Program>)
    requires p.columns != []
  {
    && again.Some? && again.value.columns == p.columns && Rendered(again.value) == Rendered(p)
    && exists k :: k in p.directives && GivesItsDirective(p, again.value, k)
  }

  /** The directive of this name has become the magic. */
  ghost predicate GivesItsDirective(p: Program, again: Program, k: string) {
    again.directives == p.directives - {k} && ReadsAs(p)(k) == Some(again.magic)
  }

  // ----- An input -----

  lemma SpacedMagicReads(line: string, m: string, t: string, v: string, w: string, d: string)
    requires line != "" && line[1..] == m && LStrip(m) == m && d <= m && m[|d|..] == t
    requires LStrip(t) == v && v != "" && v[0] == '/' && Strip(v[1..]) == w && IsVersion(w)
    ensures MagicOf(line, d) == Some(d + "/" + w)
  {
  }

  lemma BlankLStrips(v: string)
    requires Trim(v)
    ensures LStrip(" " + v) == v
  {
    SeparatorsAreNoDigits();
    assert (" " + v)[1..] == v;
    StripTrimmed(v);
  }

  lemma SpacedValue(w: string)
    requires IsVersion(w)
    ensures Trim("/ " + w) && LStrip(" " + ("/ " + w)) == "/ " + w && Strip(("/ " + w)[1..]) == w
  {
    var v := "/ " + w;
    VersionIsTrim(w);
    assert v[|v| - 1] == w[|w| - 1] && v[1..] == " " + w;
    BlankStrips(w);
    BlankLStrips(v);
  }

  /** A directive named like a dialect, with a slash, a blank and a version for its value, reads as a magic line. */
  lemma SpacedMagic(d: string, w: string)
    requires d in Dialects() && IsVersion(w)
    ensures Trim("/ " + w) && ReadMagic("#" + d + " " + ("/ " + w)) == Some(d + "/" + w)
  {
    SpacedValue(w);
    DialectsAreWords(d);
    SpacedMagicOf(d, "/ " + w, w);
    var line := "#" + d + " " + ("/ " + w);
    SpacedReadsFirst(line, d, d + "/" + w);
  }

  lemma DirectiveParts(d: string, v: string)
    requires d != "" && !IsSpace(d[0])
    ensures var line, m := "#" + d + " " + v, d + " " + v;
            line[1..] == m && LStrip(m) == m && d <= m && m[|d|..] == " " + v
  {
  }

  lemma SpacedMagicOf(d: string, v: string, w: string)
    requires d != "" && !IsSpace(d[0]) && v != "" && v[0] == '/' && LStrip(" " + v) == v && Strip(v[1..]) == w
    requires IsVersion(w)
    ensures MagicOf("#" + d + " " + v, d) == Some(d + "/" + w)
  {
    DirectiveParts(d, v);
    SpacedMagicReads("#" + d + " " + v, d + " " + v, " " + v, v, w, d);
  }

  lemma SpacedReadsFirst(line: string, d: string, m: string)
    requires d in Dialects() && |line| > 1 && line[0] == '#' && line[1] == d[0] && MagicOf(line, d) == Some(m)
    ensures ReadMagic(line) == Some(m)
  {
    DialectsAreDistinguished();
    OnlyOneReads(line, Dialects(), d, m);
  }

  lemma SpelledMagicIsOk(l: Locale, e: string, u: string)
    requires l.magic == ReadMagic && e in Dialects() && IsVersion(u)
    ensures MagicOk(l, e + "/" + u)
  {
    DialectsAreDistinguished();
    SpelledReadsFirst(Dialects(), e, u);
  }

  /** A program of one row under two columns, whose one directive spells a magic line across its name and value. */
  function Misread(e: string, u: string, d: string, w: string, a: string, b: string, x: string, y: string): Program {
    Program(e + "/" + u, map[d := "/ " + w], [a, b], [map[a := x, b := y]])
  }

  function MisreadText(e: string, u: string, d: string, w: string, a: string, b: string, x: string,
      y: string): seq<string> {
    ["#" + (e + "/" + u), "#" + d + " " + ("/ " + w), "#COLUMNS " + (a + [SEP] + b), x + [SEP] + y]
  }

  /** The words it is made of are what a reader leaves as they are. */
  ghost predicate MisreadWords(l: Locale, d: string, a: string, b: string, x: string, y: string) {
    && l.upper(d) == d && a != b && NameOk(l, a) && NameOk(l, b) && CellOk(l, x) && CellOk(l, y) && !LooksLikeMarkup(x)
  }

  lemma MisreadRow(l: Locale, p: Program, a: string, b: string, x: string, y: string)
    requires p.columns == [a, b] && p.rows == [map[a := x, b := y]] && a != b
    requires CellOk(l, x) && CellOk(l, y) && !LooksLikeMarkup(x)
    ensures Rendered(p) == [x + [SEP] + y] && !LooksLikeMarkup(Rendered(p)[0]) && RowOk(l, p.rows[0])
  {
    assert Cells(p.rows[0], p.columns) == [x, y] && [x, y][1..] == [y];
    var line := x + [SEP] + y;
    assert Join([x, y], SEP) == line && line[0] == x[0] && line[|x|] == SEP;
  }

  lemma MisreadIsOk(l: Locale, p: Program, e: string, u: string, d: string, w: string, a: string, b: string, x: string,
      y: string)
    requires l.magic == ReadMagic && e in Dialects() && d in Dialects() && IsVersion(u) && IsVersion(w)
    requires MisreadWords(l, d, a, b, x, y) && p == Misread(e, u, d, w, a, b, x, y)
    ensures ProgramOk(l, p) && Unambiguous(p) && SomeDirectiveSpellsMagic(p)
  {
    SpelledMagicIsOk(l, e, u);
    SpacedDirectiveIsOk(l, d, w);
    MisreadRow(l, p, a, b, x, y);
    assert d in p.directives && SpellsMagic(d, d, p.directives[d]);
  }

  lemma SpacedDirectiveIsOk(l: Locale, d: string, w: string)
    requires d in Dialects() && IsVersion(w) && l.upper(d) == d
    ensures DirectiveOk(l, d, "/ " + w) && SpellsMagic(d, d, "/ " + w)
  {
    SpacedValue(w);
    DialectsAreWords(d);
    NoDialectNamesColumns(d);
  }

  lemma NoDialectNamesColumns(d: string)
    requires d in Dialects()
    ensures d != "COLUMNS"
  {
  }

  lemma AllAlikeRepeats(keys: seq<string>, k: string)
    requires |keys| > 1 && forall i :: 0 <= i < |keys| ==> keys[i] == k
    ensures !Distinct(keys)
  {
    assert keys[0] == keys[1];
  }

  lemma OneName(l: Locale, names: set<string>, k: string)
    requires SortedSound(l, names) && names == {k}
    ensures l.sorted(names) == [k]
  {
    var keys := l.sorted(names);
    assert k in names && k in keys;
    forall i | 0 <= i < |keys|
      ensures keys[i] == k
    {
      assert keys[i] in keys;
      assert keys[i] in names;
    }
    assert Distinct(keys);
    if |keys| > 1 {
      AllAlikeRepeats(keys, k);
    }
  }

  lemma MisreadLines(l: Locale, p: Program, e: string, u: string, d: string, w: string, a: string, b: string,
      x: string, y: string)
    requires Sound(l) && p == Misread(e, u, d, w, a, b, x, y) && Rendered(p) == [x + [SEP] + y]
    ensures SortedSound(l, p.directives.Keys)
    ensures Rereadable(l, p) == MisreadText(e, u, d, w, a, b, x, y)
  {
    assert p.directives.Keys == {d};
    assert SortedSound(l, p.directives.Keys);
    OneName(l, p.directives.Keys, d);
    assert p.columns[1..] == [b] && Join(p.columns, SEP) == a + [SEP] + b;
    assert DirectiveLines(p.directives, [d]) == ["#" + d + " " + ("/ " + w)];
  }

  /** These four lines read as a program whose unmarked canonical text reads as another: its magic is the directive's,
      and the directive is gone. */
  lemma ReadAnotherWay(l: Locale, e: string, u: string, d: string, w: string, a: string, b: string, x: string,
      y: string)
    requires Sound(l) && l.magic == ReadMagic && e in Dialects() && d in Dialects() && IsVersion(u) && IsVersion(w)
    requires MisreadWords(l, d, a, b, x, y)
    ensures BecomesAnother(l, MisreadText(e, u, d, w, a, b, x, y), e + "/" + u, d, "/ " + w, d + "/" + w)
  {
    var p := Misread(e, u, d, w, a, b, x, y);
    MisreadIsOk(l, p, e, u, d, w, a, b, x, y);
    MisreadRow(l, p, a, b, x, y);
    MisreadLines(l, p, e, u, d, w, a, b, x, y);
    UnambiguousReadsBack(l, p);
    SpacedMagic(d, w);
    BecomesAnotherIf(l, p, Rereadable(l, p), d, "/ " + w, d + "/" + w);
  }

  /** The lines read as a program with this magic and this one directive; its canonical text, unmarked, reads as one
      with the other magic and none. */
  ghost predicate BecomesAnother(l: Locale, lines: seq<string>, magic: string, k: string, v: string, other: string) {
    var p := Parsed(l, lines);
    && p.Some? && p.value.magic == magic && p.value.directives == map[k := v]
    && p.value.columns != [] && SortedSound(l, p.value.directives.Keys)
    && var again := Parsed(l, CanonicalLines(l, p.value));
       again.Some? && again.value.magic == other && again.value.directives == map[]
  }

  lemma BecomesAnotherIf(l: Locale, p: Program, lines: seq<string>, k: string, v: string, other: string)
    requires Sound(l) && l.magic == ReadMagic && p.columns != [] && Faithful(p, Parsed(l, lines))
    requires Unambiguous(p) && SomeDirectiveSpellsMagic(p) && p.directives == map[k := v]
    requires ReadMagic("#" + k + " " + v) == Some(other)
    ensures BecomesAnother(l, lines, p.magic, k, v, other)
  {
    var q := Parsed(l, lines).value;
    ParsedIsOk(l, lines);
    assert |Rendered(q)| == |Rendered(p)|;
    UnmarkedReadsAnother(l, q);
    OnlyOneDirective(q, Parsed(l, CanonicalLines(l, q)), k, v, other);
  }

  lemma OnlyOneDirective(p: Program, again: Option<Program>, k: string, v: string, other: string)
    requires p.columns != [] && p.directives == map[k := v] && ReadsAnother(p, again)
    requires ReadMagic("#" + k + " " + v) == Some(other)
    ensures again.value.magic == other && again.value.directives == map[]
  {
    var x :| x in p.directives && GivesItsDirective(p, again.value, x);
    assert x == k;
  }

  lemma SixIsAVersion()
    ensures IsVersion("1.6")
  {
    var v := "1.6";
    assert v[..1] == "1" && v[2..] == "6" && v[1] == '.';
  }

  lemma PlainWords(l: Locale)
    requires l.upper("LCTL") == "LCTL" && l.upper("A") == "A" && l.upper("B") == "B"
    requires l.nfc("x") == "x" && l.nfc("y") == "y"
    ensures MisreadWords(l, "LCTL", "A", "B", "x", "y")
  {
    TidyStays("x");
    TidyStays("y");
  }

  /** Such are the lines #PA-LCTL/1.6, #LCTL / 1.6, #COLUMNS with A and B, and a row of x and y. */
  lemma SomeTextIsReadAnotherWay(l: Locale)
    requires Sound(l) && l.magic == ReadMagic
    requires l.upper("LCTL") == "LCTL" && l.upper("A") == "A" && l.upper("B") == "B"
    requires l.nfc("x") == "x" && l.nfc("y") == "y"
    ensures BecomesAnother(l, MisreadText("PA-LCTL", "1.6", "LCTL", "1.6", "A", "B", "x", "y"),
                           "PA-LCTL" + "/" + "1.6", "LCTL", "/ " + "1.6", "LCTL" + "/" + "1.6")
  {
    SixIsAVersion();
    PlainWords(l);
    assert Dialects()[0] == "PA-LCTL" && Dialects()[1] == "LCTL";
    ReadAnotherWay(l, "PA-LCTL", "1.6", "LCTL", "1.6", "A", "B", "x", "y");
  }
}
