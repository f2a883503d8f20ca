/** The text of a reference: a name, optionally an index or a range of indices in brackets. The text of a key tells
    keys apart, so ownership may be kept by key. */
module RefSyntax {
  import opened Common
  import opened Text
  import opened Catalog

  predicate IsLetter(c: char) {
    'a' <= c <= 'z' || 'A' <= c <= 'Z' || c == '_'
  }

  predicate IsIdentifier(s: string) {
    s != "" && IsLetter(s[0]) && forall i :: 0 <= i < |s| ==> IsLetter(s[i]) || IsDigit(s[i])
  }

  /** The length of the longest run of letters and digits at the start. */
  function WordLength(s: string): (n: nat)
    ensures n <= |s|
    ensures forall i :: 0 <= i < n ==> IsLetter(s[i]) || IsDigit(s[i])
    ensures n < |s| ==> !IsLetter(s[n]) && !IsDigit(s[n])
  {
    if s == "" || !(IsLetter(s[0]) || IsDigit(s[0])) then 0 else 1 + WordLength(s[1..])
  }

  function Value(digits: string): nat
    requires forall i :: 0 <= i < |digits| ==> IsDigit(digits[i])
  {
    if digits == "" then 0 else
    var last := digits[|digits| - 1];
    assert IsDigit(last);
    10 * Value(digits[..|digits| - 1]) + (last - '0') as int
  }

  /** The numbers between the brackets. */
  function ParseIndices(name: string, inner: string): Option<Ref> {
    var parts := Split(inner, ':');
    if |parts| == 1 && AllDigits(parts[0]) then Some(Ref(name, Some(Value(parts[0])), None))
    else if |parts| == 2 && AllDigits(parts[0]) && AllDigits(parts[1]) then
      Some(Ref(name, Some(Value(parts[0])), Some(Value(parts[1]))))
    else None
  }

  function ParseRef(cell: string): Option<Ref> {
    if cell == NULL_CELL then None else
    var n := WordLength(cell);
    if !IsIdentifier(cell[..n]) then None
    else if n == |cell| then Some(Ref(cell, None, None))
    else if n + 1 < |cell| && cell[n] == '[' && cell[|cell| - 1] == ']' then
      ParseIndices(cell[..n], cell[n + 1..|cell| - 1])
    else None
  }

  function ReadCell(text: string): Cell {
    Cell(text, ParseRef(text))
  }

  predicate WellFormed(r: Ref) {
    IsIdentifier(r.name) && (r.hi.Some? ==> r.lo.Some?)
  }

  function Indices(r: Ref): string
    requires r.lo.Some?
  {
    Decimal(r.lo.value) + if r.hi.Some? then ":" + Decimal(r.hi.value) else ""
  }

  function RefText(r: Ref): string {
    if r.lo == None then r.name else r.name + "[" + Indices(r) + "]"
  }

  /** The name an ownership record is kept under. */
  function KeyText(k: Key): string {
    match k
    case Whole(name) => name
    case Indexed(name, index) => name + "[" + Decimal(index) + "]"
    case Raw(text) => text
  }

  lemma {:induction false} ValueOfDecimal(n: nat)
    ensures Value(Decimal(n)) == n
  {
    var last := [('0' as int + n % 10) as char];
    if n < 10 {
      assert Decimal(n) == last && last[..0] == "";
    } else {
      ValueOfDecimal(n / 10);
      assert (Decimal(n / 10) + last)[..|Decimal(n / 10) + last| - 1] == Decimal(n / 10);
    }
  }

  lemma {:induction false} WordStops(w: string, rest: string)
    requires forall i :: 0 <= i < |w| ==> IsLetter(w[i]) || IsDigit(w[i])
    requires rest != "" ==> !IsLetter(rest[0]) && !IsDigit(rest[0])
    ensures WordLength(w + rest) == |w|
    decreases |w|
  {
    if w == "" {
      assert w + rest == rest;
    } else {
      WordStops(w[1..], rest);
      assert (w + rest)[1..] == w[1..] + rest;
    }
  }

  lemma IndicesReadBack(r: Ref)
    requires r.lo.Some?
    ensures ParseIndices(r.name, Indices(r)) == Some(r)
  {
    var lo := Decimal(r.lo.value);
    ValueOfDecimal(r.lo.value);
    if r.hi.Some? {
      var hi := Decimal(r.hi.value);
      ValueOfDecimal(r.hi.value);
      SplitPrefix(lo, hi, ':');
      SplitWhole(hi, ':');
      assert Indices(r) == lo + [':'] + hi;
    } else {
      SplitWhole(lo, ':');
      assert Indices(r) == lo;
    }
  }

  /** A well-formed reference reads back from its own text. */
  lemma RefReadsBack(r: Ref)
    requires WellFormed(r)
    ensures ParseRef(RefText(r)) == Some(r)
  {
    if r.lo == None {
      WordStops(r.name, "");
      assert r.name + "" == r.name && r.name[..|r.name|] == r.name;
    } else {
      var rest := "[" + Indices(r) + "]";
      var text := r.name + rest;
      assert RefText(r) == text;
      WordStops(r.name, rest);
      assert text[..|r.name|] == r.name && text[|r.name|] == '[' && text[|text| - 1] == ']';
      assert text[|r.name| + 1..|text| - 1] == Indices(r);
      IndicesReadBack(r);
    }
  }

  lemma ParsedIsWellFormed(cell: string)
    ensures ParseRef(cell).Some? ==> WellFormed(ParseRef(cell).value)
  {
  }

  /** The reference that is just this key. */
  function RefOf(k: Key): Ref
    requires !k.Raw?
  {
    if k.Whole? then Ref(k.name, None, None) else Ref(k.name, Some(k.index), None)
  }

  lemma KeyReadsBack(k: Key)
    requires !k.Raw? && IsIdentifier(k.name)
    ensures Keys(ReadCell(KeyText(k))) == [k]
  {
    RefReadsBack(RefOf(k));
    assert k.Indexed? ==> Indices(RefOf(k)) == Decimal(k.index) + "";
    assert KeyText(k) == RefText(RefOf(k));
  }

  /** What a program records ownership under: keys of references, or the text of an output that refers to nothing. */
  predicate Arises(k: Key) {
    if k.Raw? then Keys(ReadCell(k.text)) == [] else IsIdentifier(k.name)
  }

  /** Distinct keys have distinct texts, so records kept by text and records kept by key are the same records. */
  lemma KeyTextsDiffer(j: Key, k: Key)
    requires Arises(j) && Arises(k) && KeyText(j) == KeyText(k)
    ensures j == k
  {
    if !j.Raw? {
      KeyReadsBack(j);
    }
    if !k.Raw? {
      KeyReadsBack(k);
    }
  }

  lemma KeysArise(text: string, k: Key)
    requires k in Keys(ReadCell(text))
    ensures Arises(k)
  {
    ParsedIsWellFormed(text);
  }
}
