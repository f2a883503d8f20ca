/** The pattern of a program's first line: a mark, a dialect, a slash and a version. */
module MagicLine {
  import opened Common
  import opened Text
  import opened CanonicalText

  predicate IsVersion(s: string) {
    exists k :: 0 < k < |s| && s[k] == '.' && AllDigits(s[..k]) && AllDigits(s[k + 1..])
  }

  /** A dialect name, a slash and a version, with white space allowed around each. */
  function MagicOf(body: string, dialect: string): Option<string>
    requires body != ""
  {
    var s := LStrip(body[1..]);
    if !(dialect <= s) then None else
    var t := LStrip(s[|dialect|..]);
    if t == "" || t[0] != '/' then None else
    var v := Strip(t[1..]);
    if IsVersion(v) then Some(dialect + "/" + v) else None
  }

  /** What the first of the dialects that matches reads. */
  function ReadFirst(body: string, dialects: seq<string>): Option<string>
    requires body != ""
  {
    if dialects == [] then None
    else if MagicOf(body, dialects[0]).Some? then MagicOf(body, dialects[0])
    else ReadFirst(body, dialects[1..])
  }

  function Dialects(): seq<string> {
    ["PA-LCTL", "LCTL", "QCTL"]
  }

  function ReadMagic(body: string): Option<string> {
    if body == "" || body[0] != '#' then None else ReadFirst(body, Dialects())
  }

  lemma VersionIsTrim(v: string)
    requires IsVersion(v)
    ensures Trim(v)
  {
    var k :| 0 < k < |v| && v[k] == '.' && AllDigits(v[..k]) && AllDigits(v[k + 1..]);
    assert v[0] == v[..k][0] && v[|v| - 1] == v[k + 1..][|v| - k - 2];
  }

  lemma MagicBySteps(body: string, d: string, m: string, t: string, v: string)
    requires body != "" && body[1..] == m && LStrip(m) == m && d <= m && m[|d|..] == t
    requires LStrip(t) == t && t != "" && t[0] == '/' && Strip(t[1..]) == v && IsVersion(v)
    ensures MagicOf(body, d) == Some(d + "/" + v)
  {
  }

  lemma SpelledMagicReads(d: string, v: string)
    requires d != "" && !IsSpace(d[0]) && IsVersion(v)
    ensures Trim(d + "/" + v) && MagicOf("#" + (d + "/" + v), d) == Some(d + "/" + v)
  {
    VersionIsTrim(v);
    var m, t := d + "/" + v, "/" + v;
    assert m[|m| - 1] == v[|v| - 1] && m[0] == d[0];
    assert ("#" + m)[1..] == m && m[|d|..] == t && t[1..] == v;
    StripTrimmed(v);
    MagicBySteps("#" + m, d, m, t, v);
  }

  /** A dialect that starts with another letter does not match. */
  lemma OtherDialectsDoNot(body: string, e: string)
    requires |body| > 1 && e != "" && body[1] != e[0] && !IsSpace(body[1])
    ensures MagicOf(body, e) == None
  {
    assert body[1..][0] == body[1];
  }

  lemma MagicForm(body: string, d: string)
    requires body != "" && MagicOf(body, d).Some?
    ensures exists v :: IsVersion(v) && MagicOf(body, d).value == d + "/" + v
  {
  }

  lemma {:induction false} ReadFirstForm(body: string, dialects: seq<string>) returns (d: string, v: string)
    requires body != "" && ReadFirst(body, dialects).Some?
    ensures d in dialects && IsVersion(v) && ReadFirst(body, dialects).value == d + "/" + v
    decreases |dialects|
  {
    if MagicOf(body, dialects[0]).Some? {
      d := dialects[0];
      MagicForm(body, d);
      v :| IsVersion(v) && MagicOf(body, d).value == d + "/" + v;
    } else {
      d, v := ReadFirstForm(body, dialects[1..]);
    }
  }

  lemma {:induction false} ReadFirstFinds(body: string, dialects: seq<string>, d: string, m: string)
    requires body != "" && d in dialects && MagicOf(body, d) == Some(m)
    requires forall e :: e in dialects && e != d ==> MagicOf(body, e) == None
    ensures ReadFirst(body, dialects) == Some(m)
    decreases |dialects|
  {
    if dialects[0] != d {
      ReadFirstFinds(body, dialects[1..], d, m);
    }
  }

  /** Dialects told apart by their first letter. */
  predicate Distinguished(dialects: seq<string>) {
    && (forall d :: d in dialects ==> d != "" && !IsSpace(d[0]))
    && (forall d, e :: d in dialects && e in dialects && d != e ==> d[0] != e[0])
  }

  lemma OnlyOneReads(body: string, dialects: seq<string>, d: string, m: string)
    requires Distinguished(dialects) && d in dialects && |body| > 1 && body[1] == d[0] && MagicOf(body, d) == Some(m)
    ensures ReadFirst(body, dialects) == Some(m)
  {
    forall e | e in dialects && e != d
      ensures MagicOf(body, e) == None
    {
      OtherDialectsDoNot(body, e);
    }
    ReadFirstFinds(body, dialects, d, m);
  }

  lemma SpelledReadsFirst(dialects: seq<string>, d: string, v: string)
    requires Distinguished(dialects) && d in dialects && IsVersion(v)
    ensures Trim(d + "/" + v) && ReadFirst("#" + (d + "/" + v), dialects) == Some(d + "/" + v)
  {
    SpelledMagicReads(d, v);
    OnlyOneReads("#" + (d + "/" + v), dialects, d, d + "/" + v);
  }

  lemma DialectsAreDistinguished()
    ensures Distinguished(Dialects())
  {
  }

  /** The pattern is what the reader of programs assumes of it. */
  lemma ReadMagicIsSound(body: string)
    ensures MagicSound(ReadMagic, body)
  {
    if ReadMagic(body).Some? {
      var d, v := ReadFirstForm(body, Dialects());
      DialectsAreDistinguished();
      SpelledReadsFirst(Dialects(), d, v);
    }
  }

  // ----- What the reader assumes can be met -----

  ghost function Enumerated(keys: set<string>): seq<string>
    decreases |keys|
  {
    if keys == {} then [] else
    var k :| k in keys;
    Enumerated(keys - {k}) + [k]
  }

  lemma {:induction false} EnumeratesAll(keys: set<string>, k: string)
    ensures k in Enumerated(keys) <==> k in keys
    decreases |keys|
  {
    if keys != {} {
      var last := Enumerated(keys)[|Enumerated(keys)| - 1];
      assert Enumerated(keys) == Enumerated(keys - {last}) + [last];
      EnumeratesAll(keys - {last}, k);
    }
  }

  lemma {:induction false} EnumeratesOnce(keys: set<string>, i: nat, j: nat)
    requires i < j < |Enumerated(keys)|
    ensures Enumerated(keys)[i] != Enumerated(keys)[j]
    decreases |keys|
  {
    var last := Enumerated(keys)[|Enumerated(keys)| - 1];
    var rest := Enumerated(keys - {last});
    assert Enumerated(keys) == rest + [last];
    if j < |rest| {
      EnumeratesOnce(keys - {last}, i, j);
    } else {
      EnumeratesAll(keys - {last}, rest[i]);
    }
  }

  lemma IdentityIsTextSound(l: Locale, s: string)
    requires l.nfc == Same && l.upper == Same
    ensures NfcSound(l, s) && UpperSound(l, s)
  {
    TidyIsTidy(s);
    if SEP !in s {
      TidyKeepsOut(s, SEP);
    }
  }

  function Same(s: string): string { s }

  /** There is a locale that meets every assumption, with the real pattern of the magic line. */
  lemma AssumptionsCanBeMet()
    ensures exists l: Locale :: Sound(l) && l.magic == ReadMagic
  {
    var l := Locale(Same, Same, Enumerated, ReadMagic);
    forall s
      ensures NfcSound(l, s) && UpperSound(l, s) && MagicSound(l.magic, s)
    {
      IdentityIsTextSound(l, s);
      ReadMagicIsSound(s);
    }
    forall keys
      ensures SortedSound(l, keys)
    {
      forall k
        ensures k in l.sorted(keys) <==> k in keys
      {
        EnumeratesAll(keys, k);
      }
      forall i, j | 0 <= i < j < |l.sorted(keys)|
        ensures l.sorted(keys)[i] != l.sorted(keys)[j]
      {
        EnumeratesOnce(keys, i, j);
      }
    }
    assert Sound(l);
  }
}
