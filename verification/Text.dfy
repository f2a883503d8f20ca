/** Strings as the parser handles them: trimming, collapsing white space, splitting and joining. */
module Text {

  /** The cell that says there is no value. */
  const NULL_CELL := "-"

  /** The characters that count as white space. */
  predicate IsSpace(c: char) {
    var n := c as int;
    || 9 <= n <= 13 || 28 <= n <= 32 || n == 133 || n == 160 || n == 5760 || 8192 <= n <= 8202
    || n == 8232 || n == 8233 || n == 8239 || n == 8287 || n == 12288
  }

  predicate NoSpace(s: string) {
    forall i :: 0 <= i < |s| ==> !IsSpace(s[i])
  }

  predicate IsDigit(c: char) {
    '0' <= c <= '9'
  }

  predicate AllDigits(s: string) {
    s != "" && forall i :: 0 <= i < |s| ==> IsDigit(s[i])
  }

  function Decimal(n: nat): (s: string)
    ensures AllDigits(s)
  {
    var last := [('0' as int + n % 10) as char];
    if n < 10 then last else Decimal(n / 10) + last
  }

  /** Not empty, and no white space at either end. */
  predicate Trim(s: string) {
    s != "" && !IsSpace(s[0]) && !IsSpace(s[|s| - 1])
  }

  function LStrip(s: string): (r: string)
    ensures r == "" || !IsSpace(r[0])
  {
    if s != "" && IsSpace(s[0]) then LStrip(s[1..]) else s
  }

  function RStrip(s: string): (r: string)
    ensures r == "" || !IsSpace(r[|r| - 1])
    ensures r != "" ==> s != "" && r[0] == s[0]
  {
    if s != "" && IsSpace(s[|s| - 1]) then RStrip(s[..|s| - 1]) else s
  }

  function Strip(s: string): (r: string)
    ensures r == "" || Trim(r)
  {
    RStrip(LStrip(s))
  }

  lemma {:induction false} LStripKeepsOut(s: string, c: char)
    requires c !in s
    ensures c !in LStrip(s)
    decreases |s|
  {
    if s != "" {
      LStripKeepsOut(s[1..], c);
    }
  }

  lemma {:induction false} RStripKeepsOut(s: string, c: char)
    requires c !in s
    ensures c !in RStrip(s)
    decreases |s|
  {
    if s != "" {
      RStripKeepsOut(s[..|s| - 1], c);
    }
  }

  lemma StripKeepsOut(s: string, c: char)
    requires c !in s
    ensures c !in Strip(s)
  {
    LStripKeepsOut(s, c);
    RStripKeepsOut(LStrip(s), c);
  }

  lemma StripTrimmed(s: string)
    requires Trim(s)
    ensures LStrip(s) == s && RStrip(s) == s && Strip(s) == s
  {
  }

  function Untab(s: string): (r: string)
    ensures |r| == |s| && forall i :: 0 <= i < |s| ==> r[i] == if s[i] == '\t' then ' ' else s[i]
  {
    seq(|s|, i requires 0 <= i < |s| => if s[i] == '\t' then ' ' else s[i])
  }

  /** Every run of white space becomes one blank. */
  function Collapse(s: string): (r: string)
    ensures s != "" ==> r != ""
    ensures s != "" && !IsSpace(s[0]) ==> r[0] == s[0]
  {
    if s == "" then ""
    else if !IsSpace(s[0]) then [s[0]] + Collapse(s[1..])
    else if |s| > 1 && IsSpace(s[1]) then Collapse(s[1..])
    else " " + Collapse(s[1..])
  }

  lemma {:induction false} CollapseKeepsOut(s: string, c: char)
    requires c !in s && c != ' '
    ensures c !in Collapse(s)
    decreases |s|
  {
    if s != "" {
      CollapseKeepsOut(s[1..], c);
    }
  }

  predicate Collapsed(s: string) {
    forall i :: 0 <= i < |s| && IsSpace(s[i]) ==> s[i] == ' ' && (i + 1 < |s| ==> !IsSpace(s[i + 1]))
  }

  lemma {:induction false} CollapseCollapses(s: string)
    ensures Collapsed(Collapse(s))
    ensures s != "" && !IsSpace(s[|s| - 1]) ==> Collapse(s)[|Collapse(s)| - 1] == s[|s| - 1]
    decreases |s|
  {
    if s != "" {
      CollapseCollapses(s[1..]);
      var rest := Collapse(s[1..]);
      assert |s| > 1 ==> s[1..][|s| - 2] == s[|s| - 1];
      if !IsSpace(s[0]) {
        assert forall i :: 0 < i < |Collapse(s)| ==> Collapse(s)[i] == rest[i - 1];
      } else if !(|s| > 1 && IsSpace(s[1])) {
        assert forall i :: 0 < i < |Collapse(s)| ==> Collapse(s)[i] == rest[i - 1];
      }
    }
  }

  lemma {:induction false} CollapsedStays(s: string)
    requires Collapsed(s)
    ensures Collapse(s) == s
    decreases |s|
  {
    if s != "" {
      assert forall i :: 0 <= i < |s| - 1 ==> s[1..][i] == s[i + 1];
      CollapsedStays(s[1..]);
      assert s == [s[0]] + s[1..];
    }
  }

  function Tidy(s: string): string {
    Collapse(Strip(Untab(s)))
  }

  /** Tidied text is empty or trimmed and collapsed, and tidying it again changes nothing. */
  lemma TidyIsTidy(s: string)
    ensures Tidy(s) == "" || (Trim(Tidy(s)) && Collapsed(Tidy(s)))
    ensures Tidy(Tidy(s)) == Tidy(s)
  {
    var t := Strip(Untab(s));
    CollapseCollapses(t);
    if t != "" {
      TidyStays(Collapse(t));
    }
  }

  lemma TidyKeepsOut(s: string, c: char)
    requires c !in s && c != ' '
    ensures c !in Tidy(s)
  {
    assert c !in Untab(s);
    StripKeepsOut(Untab(s), c);
    CollapseKeepsOut(Strip(Untab(s)), c);
  }

  lemma TidyStays(t: string)
    requires Trim(t) && Collapsed(t)
    ensures Tidy(t) == t
  {
    assert IsSpace('\t') && Untab(t) == t;
    StripTrimmed(t);
    CollapsedStays(t);
  }

  // ----- Splitting and joining -----

  /** The pieces between separators: always one more than there are separators. */
  function Split(s: string, sep: char): (r: seq<string>)
    ensures |r| >= 1
    ensures forall i :: 0 <= i < |r| ==> sep !in r[i]
  {
    if s == "" then [""]
    else var rest := Split(s[1..], sep);
         if s[0] == sep then [""] + rest else [[s[0]] + rest[0]] + rest[1..]
  }

  lemma {:induction false} SplitKeepsOut(s: string, sep: char, c: char)
    requires c !in s
    ensures forall i :: 0 <= i < |Split(s, sep)| ==> c !in Split(s, sep)[i]
    decreases |s|
  {
    if s != "" {
      SplitKeepsOut(s[1..], sep, c);
    }
  }

  function Join(cells: seq<string>, sep: char): string
    requires cells != []
  {
    if |cells| == 1 then cells[0] else cells[0] + [sep] + Join(cells[1..], sep)
  }

  lemma {:induction false} SplitPrefix(s: string, t: string, sep: char)
    requires sep !in s
    ensures Split(s + [sep] + t, sep) == [s] + Split(t, sep)
    decreases |s|
  {
    if s == "" {
      assert "" + [sep] + t == [sep] + t;
    } else {
      SplitPrefix(s[1..], t, sep);
      assert (s + [sep] + t)[1..] == s[1..] + [sep] + t;
      assert s == [s[0]] + s[1..];
    }
  }

  lemma {:induction false} SplitWhole(s: string, sep: char)
    requires sep !in s
    ensures Split(s, sep) == [s]
    decreases |s|
  {
    if s != "" {
      SplitWhole(s[1..], sep);
      assert s == [s[0]] + s[1..];
    }
  }

  /** Text without a separator only lengthens the last piece. */
  lemma {:induction false} SplitLast(text: string, s: string, sep: char)
    requires sep !in s
    ensures var pieces := Split(text, sep);
            Split(text + s, sep) == pieces[..|pieces| - 1] + [pieces[|pieces| - 1] + s]
    decreases |text|
  {
    if text == "" {
      assert text + s == s;
      SplitWhole(s, sep);
    } else {
      assert (text + s)[1..] == text[1..] + s;
      SplitLast(text[1..], s, sep);
      var rest := Split(text[1..], sep);
      var n := |rest| - 1;
      if text[0] == sep {
        assert [""] + (rest[..n] + [rest[n] + s]) == ([""] + rest)[..n + 1] + [rest[n] + s];
      } else if n == 0 {
        assert rest[..n] + [rest[n] + s] == [rest[0] + s];
        assert [text[0]] + (rest[0] + s) == [text[0]] + rest[0] + s;
      } else {
        var more := rest[..n] + [rest[n] + s];
        assert more[0] == rest[0] && more[1..] == rest[1..n] + [rest[n] + s];
        assert ([[text[0]] + rest[0]] + rest[1..])[..n] == [[text[0]] + rest[0]] + rest[1..n];
      }
    }
  }

  lemma {:induction false} SplitBreak(text: string, sep: char)
    ensures Split(text + [sep], sep) == Split(text, sep) + [""]
    decreases |text|
  {
    if text == "" {
      assert text + [sep] == [sep] && [sep][1..] == "";
      assert Split([sep], sep) == [""] + Split("", sep);
    } else {
      assert (text + [sep])[1..] == text[1..] + [sep];
      SplitBreak(text[1..], sep);
    }
  }

  /** Splitting what was joined gives the cells back, if none holds the separator. */
  lemma {:induction false} SplitJoin(cells: seq<string>, sep: char)
    requires cells != [] && forall i :: 0 <= i < |cells| ==> sep !in cells[i]
    ensures Split(Join(cells, sep), sep) == cells
    decreases |cells|
  {
    if |cells| == 1 {
      SplitWhole(cells[0], sep);
    } else {
      SplitJoin(cells[1..], sep);
      SplitPrefix(cells[0], Join(cells[1..], sep), sep);
    }
  }

  /** A joined line starts with its first cell and ends with its last. */
  lemma {:induction false} JoinEnds(cells: seq<string>, sep: char)
    requires cells != [] && forall i :: 0 <= i < |cells| ==> cells[i] != ""
    ensures var s := Join(cells, sep);
            && s != "" && cells[0] <= s
            && s[|s| - 1] == cells[|cells| - 1][|cells[|cells| - 1]| - 1]
            && (|cells| > 1 ==> sep in s && cells[0] + [sep] <= s)
    decreases |cells|
  {
    if |cells| > 1 {
      JoinEnds(cells[1..], sep);
      var rest := Join(cells[1..], sep);
      assert Join(cells, sep)[|cells[0]|] == sep;
      assert Join(cells, sep)[|Join(cells, sep)| - 1] == rest[|rest| - 1];
    }
  }
}
