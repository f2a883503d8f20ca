/** The hash-chained ledger file: parsing with torn-tail detection, chain verification, and append. */
module Ledger {
  import opened Common
  import opened Records
  import opened Text

  const LEDGER_SCHEMA: string := "VEC/LEDGER_EVENT/1"

  datatype Fault = NotObject | BadSchema | BadEventKind | BadPayload | BadTick | NoTimestamp | BadSequence | BadPrev
                 | BadHash | MalformedLine | TornTail

  // ----- The chain -----

  function ContentOf(r: Record): Content
    requires r.Record?
  {
    EventContent(r.sequence, r.tick, r.utc, r.kind, r.payload, r.prev)
  }

  /** The first thing wrong with a record that should be number `count` after head `prev`. */
  function RecordFault(r: Record, count: nat, prev: Hash): Option<Fault> {
    if r.Malformed? then Some(NotObject)
    else if r.schema != LEDGER_SCHEMA then Some(BadSchema)
    else if r.kind == BadKind then Some(BadEventKind)
    else if r.payload == NotAnObject then Some(BadPayload)
    else if r.tick < 0 then Some(BadTick)
    else if r.utc == "" then Some(NoTimestamp)
    else if r.sequence != count then Some(BadSequence)
    else if r.prev != prev then Some(BadPrev)
    else if r.hash != Digest(ContentOf(r)) then Some(BadHash)
    else None
  }

  /** The head of a chain whose every record is in order, or nothing. */
  function Head(records: seq<Record>): Option<Hash> {
    if records == [] then Some(Zeros) else
    var before, r := records[..|records| - 1], records[|records| - 1];
    match Head(before)
    case None => None
    case Some(prev) => if RecordFault(r, |before|, prev) == None then Some(r.hash) else None
  }

  function NewRecord(records: seq<Record>, tick: int, utc: string, kind: Kind, payload: Payload): Record
    requires Head(records).Some?
  {
    var prev := Head(records).value;
    Record(LEDGER_SCHEMA, |records|, tick, utc, kind, payload, prev,
      Digest(EventContent(|records|, tick, utc, kind, payload, prev)))
  }

  /** A chain of a given length and head is one chain: the anchor fixes the whole history. */
  lemma {:induction false} AnchorFixesHistory(a: seq<Record>, b: seq<Record>)
    requires Head(a).Some? && Head(a) == Head(b) && |a| == |b|
    ensures a == b
    decreases |a|
  {
    if a != [] {
      var x, y := a[|a| - 1], b[|b| - 1];
      assert ContentOf(x) == ContentOf(y);
      AnchorFixesHistory(a[..|a| - 1], b[..|b| - 1]);
      assert a == a[..|a| - 1] + [x] && b == b[..|b| - 1] + [y];
    }
  }

  lemma {:induction false} PrefixHasHead(records: seq<Record>, n: nat)
    requires n <= |records| && Head(records).Some?
    ensures Head(records[..n]).Some?
    ensures n < |records| ==> RecordFault(records[n], n, Head(records[..n]).value) == None
    decreases |records|
  {
    if n == |records| {
      assert records[..n] == records;
    } else if n < |records| - 1 {
      PrefixHasHead(records[..|records| - 1], n);
      assert records[..|records| - 1][..n] == records[..n];
    }
  }

  /** Appending keeps the chain exactly when the event itself is well formed. */
  lemma AppendKeepsChain(records: seq<Record>, tick: int, utc: string, kind: Kind, payload: Payload)
    requires Head(records).Some?
    ensures var after := records + [NewRecord(records, tick, utc, kind, payload)];
            && (Head(after).Some? <==> tick >= 0 && utc != "" && kind != BadKind && payload != NotAnObject)
            && (Head(after).Some? ==> Head(after).value == NewRecord(records, tick, utc, kind, payload).hash)
  {
    var after := records + [NewRecord(records, tick, utc, kind, payload)];
    assert after[..|after| - 1] == records;
  }

  // ----- The file -----

  /** How one record is written on a line and read back. */
  datatype Codec = Codec(encode: Record -> string, decode: string -> Option<Record>)

  predicate Blank(s: string) {
    forall i :: 0 <= i < |s| ==> s[i] in " \t\r"
  }

  /** A written line has no line break, is not blank, reads back as itself, and no proper part of it reads. */
  ghost predicate Reads(codec: Codec, r: Record) {
    var s := codec.encode(r);
    && '\n' !in s && !Blank(s)
    && codec.decode(s) == Some(r)
    && forall k :: 0 <= k < |s| ==> codec.decode(s[..k]) == None && (k > 0 ==> !Blank(s[..k]))
  }

  ghost predicate Sound(codec: Codec) {
    forall r :: Reads(codec, r)
  }

  datatype Parse = Parse(records: seq<Record>, torn: bool) | Broken

  /** The records of complete lines; blank lines are skipped. */
  function Lines(codec: Codec, lines: seq<string>): Option<seq<Record>> {
    if lines == [] then Some([]) else
    var before, last := Lines(codec, lines[..|lines| - 1]), lines[|lines| - 1];
    if before == None || Blank(last) then before else
    match codec.decode(last)
    case None => None
    case Some(r) => Some(before.value + [r])
  }

  /** An unreadable last piece is a torn write, an unreadable earlier one corruption. */
  function ParseText(codec: Codec, text: string): Parse {
    var lines := Split(text, '\n');
    var tail := lines[|lines| - 1];
    match Lines(codec, lines[..|lines| - 1])
    case None => Broken
    case Some(records) =>
      if Blank(tail) then Parse(records, false) else
      match codec.decode(tail)
      case None => Parse(records, true)
      case Some(r) => Parse(records + [r], true)
  }

  datatype Verdict = Verified(events: nat, head: Hash, missing: bool) | Failed(events: nat, why: Fault)

  /** How far the chain goes before its first fault. */
  function ChainVerdict(records: seq<Record>): Verdict {
    match Head(records)
    case Some(h) => Verified(|records|, h, false)
    case None =>
      assert records != [];
      var before := records[..|records| - 1];
      match Head(before)
      case Some(prev) => Failed(|before|, RecordFault(records[|records| - 1], |before|, prev).value)
      case None => ChainVerdict(before)
  }

  function VerdictOf(codec: Codec, file: Option<string>): Verdict {
    if file == None then Verified(0, Zeros, true) else
    match ParseText(codec, file.value)
    case Broken => Failed(0, MalformedLine)
    case Parse(records, torn) =>
      match ChainVerdict(records)
      case Failed(n, why) => Failed(n, why)
      case Verified(n, head, _) => if torn then Failed(n, TornTail) else Verified(n, head, false)
  }

  class LedgerFile {
    const codec: Codec
    var file: Option<string>

    constructor (codec: Codec)
      ensures this.codec == codec && file == None
    {
      this.codec := codec;
      file := None;
    }

    method ParseRecords(text: string) returns (p: Parse)
      ensures p == ParseText(codec, text)
    {
      var lines := Split(text, '\n');
      var torn := !Blank(lines[|lines| - 1]);
      var out: seq<Record> := [];
      for i := 0 to |lines|
        invariant i < |lines| ==> Lines(codec, lines[..i]) == Some(out)
        invariant i == |lines| ==> ParseText(codec, text) == Parse(out, torn)
      {
        assert lines[..i + 1][..i] == lines[..i];
        assert i == |lines| - 1 ==> lines[..i] == lines[..|lines| - 1];
        if !Blank(lines[i]) {
          match codec.decode(lines[i]) {
            case None =>
              if torn && i == |lines| - 1 {
                return Parse(out, true);
              }
              UnreadableBreaks(codec, lines, i);
              return Broken;
            case Some(r) => out := out + [r];
          }
        }
      }
      return Parse(out, torn);
    }

    method Verify() returns (v: Verdict)
      ensures v == VerdictOf(codec, file)
    {
      if file == None {
        return Verified(0, Zeros, true);
      }
      var parse := ParseRecords(file.value);
      if parse.Broken? {
        return Failed(0, MalformedLine);
      }
      var prev := Zeros;
      var count := 0;
      while count < |parse.records|
        invariant count <= |parse.records|
        invariant Head(parse.records[..count]) == Some(prev)
      {
        var rec := parse.records[count];
        var fault := RecordFault(rec, count, prev);
        assert parse.records[..count + 1][..count] == parse.records[..count];
        if fault.Some? {
          FirstFaultDecides(parse.records, count);
          return Failed(count, fault.value);
        }
        prev := rec.hash;
        count := count + 1;
      }
      assert parse.records[..count] == parse.records;
      if parse.torn {
        return Failed(count, TornTail);
      }
      return Verified(count, prev, false);
    }

    /** Refuses to extend a file that does not verify; otherwise adds one line. */
    method AppendEvent(tick: int, utc: string, kind: Kind, payload: Payload) returns (r: Result<Record, Fault>)
      modifies this
      ensures r.Ok? <==> VerdictOf(codec, old(file)).Verified?
      ensures r.Refused? ==> file == old(file)
      ensures r.Ok? ==>
                var v := VerdictOf(codec, old(file));
                && r.value == Record(LEDGER_SCHEMA, v.events, tick, utc, kind, payload, v.head,
                                     Digest(EventContent(v.events, tick, utc, kind, payload, v.head)))
                && file == Some((if old(file) == None then "" else old(file).value) + codec.encode(r.value) + "\n")
    {
      var v := Verify();
      if v.Failed? {
        return Refused(v.why);
      }
      var rec := Record(LEDGER_SCHEMA, v.events, tick, utc, kind, payload, v.head,
                        Digest(EventContent(v.events, tick, utc, kind, payload, v.head)));
      file := Some((if file == None then "" else file.value) + codec.encode(rec) + "\n");
      return Ok(rec);
    }
  }

  lemma {:induction false} UnreadableBreaks(codec: Codec, lines: seq<string>, i: nat)
    requires i < |lines| - 1 && !Blank(lines[i]) && codec.decode(lines[i]) == None
    ensures Lines(codec, lines[..|lines| - 1]) == None
    decreases |lines|
  {
    var all := lines[..|lines| - 1];
    if i < |all| - 1 {
      UnreadableBreaks(codec, all, i);
    }
  }

  lemma {:induction false} FirstFaultDecides(records: seq<Record>, i: nat)
    requires i < |records| && Head(records[..i]).Some?
    requires RecordFault(records[i], i, Head(records[..i]).value).Some?
    ensures Head(records) == None
    ensures ChainVerdict(records) == Failed(i, RecordFault(records[i], i, Head(records[..i]).value).value)
    decreases |records|
  {
    var before := records[..|records| - 1];
    if i < |before| {
      assert before[..i] == records[..i];
      FirstFaultDecides(before, i);
    }
  }

  // ----- Writing and cutting lines -----

  /** The file holds these records and nothing torn: it is empty or ends with a line break. */
  ghost predicate Holds(codec: Codec, text: string, records: seq<Record>) {
    var lines := Split(text, '\n');
    lines[|lines| - 1] == "" && Lines(codec, lines[..|lines| - 1]) == Some(records)
  }

  lemma HoldsParses(codec: Codec, text: string, records: seq<Record>)
    requires Holds(codec, text, records)
    ensures ParseText(codec, text) == Parse(records, false)
  {
  }

  /** A whole line written at the end adds its record. */
  lemma WholeLineAdds(codec: Codec, text: string, records: seq<Record>, r: Record)
    requires Sound(codec) && Holds(codec, text, records)
    ensures Holds(codec, text + codec.encode(r) + "\n", records + [r])
  {
    assert Reads(codec, r);
    var s := codec.encode(r);
    SplitLast(text, s, '\n');
    SplitBreak(text + s, '\n');
    var lines := Split(text, '\n');
    var after := Split(text + s + "\n", '\n');
    assert "" + s == s;
    assert after[..|after| - 1] == lines[..|lines| - 1] + [s];
    assert (lines[..|lines| - 1] + [s])[..|lines| - 1] == lines[..|lines| - 1];
  }

  /** A file cut inside its new line reads as the old records, or all of them, with a torn end. */
  lemma CutLineParses(codec: Codec, text: string, records: seq<Record>, r: Record, k: nat)
    requires Sound(codec) && Holds(codec, text, records) && 0 < k <= |codec.encode(r)|
    ensures ParseText(codec, text + codec.encode(r)[..k]) ==
            Parse(if k == |codec.encode(r)| then records + [r] else records, true)
  {
    assert Reads(codec, r);
    var s := codec.encode(r);
    SplitLast(text, s[..k], '\n');
    var lines := Split(text, '\n');
    var after := Split(text + s[..k], '\n');
    assert "" + s[..k] == s[..k];
    assert after[..|after| - 1] == lines[..|lines| - 1];
    if k == |s| {
      assert s[..k] == s;
    }
  }

  /** Every cut strictly inside the line is seen as torn: the chain so far is intact, but the file fails. */
  lemma CutLineIsTorn(codec: Codec, text: string, records: seq<Record>, r: Record, k: nat)
    requires Sound(codec) && Holds(codec, text, records) && Head(records).Some?
    requires RecordFault(r, |records|, Head(records).value) == None
    requires 0 < k <= |codec.encode(r)|
    ensures var v := VerdictOf(codec, Some(text + codec.encode(r)[..k]));
            v.Failed? && v.why == TornTail && |records| <= v.events <= |records| + 1
  {
    CutLineParses(codec, text, records, r, k);
    assert (records + [r])[..|records|] == records;
  }

  /** Appending to a verified file gives a verified file with the old records as a prefix, whose head and count
      are the new record's; after a cut inside the new line every further append is refused. */
  lemma AppendIsAllOrTorn(codec: Codec, text: string, records: seq<Record>, tick: int, utc: string, kind: Kind,
      payload: Payload)
    requires Sound(codec) && Holds(codec, text, records) && Head(records).Some?
    requires tick >= 0 && utc != "" && kind != BadKind && payload != NotAnObject
    ensures var r := NewRecord(records, tick, utc, kind, payload);
            var line := codec.encode(r) + "\n";
            && Holds(codec, text + line, records + [r])
            && VerdictOf(codec, Some(text + line)) == Verified(|records| + 1, r.hash, false)
            && forall k :: 0 < k < |line| ==> VerdictOf(codec, Some(text + line[..k])).Failed?
  {
    var r := NewRecord(records, tick, utc, kind, payload);
    var line := codec.encode(r) + "\n";
    AppendKeepsChain(records, tick, utc, kind, payload);
    WholeLineAdds(codec, text, records, r);
    assert text + line == text + codec.encode(r) + "\n";
    HoldsParses(codec, text + line, records + [r]);
    assert (records + [r])[..|records|] == records;
    forall k | 0 < k < |line|
      ensures VerdictOf(codec, Some(text + line[..k])).Failed?
    {
      assert line[..k] == codec.encode(r)[..k];
      CutLineIsTorn(codec, text, records, r, k);
    }
  }
}
