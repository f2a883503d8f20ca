/** What a verified ledger is, record by record and field by field, and what is wrong with the first record that is
    not. */
module LedgerRules {
  import opened Common
  import opened Records
  import opened Ledger
  import opened Text

  /** Record i says it is number i, follows the one before, is dated and typed, and hashes what it says. */
  predicate InChain(records: seq<Record>, i: nat)
    requires i < |records|
  {
    var r := records[i];
    && r.Record? && r.schema == "VEC/LEDGER_EVENT/1" && r.kind != BadKind && r.payload != NotAnObject
    && r.tick >= 0 && |r.utc| > 0 && r.sequence == i
    && (if i == 0 then r.prev == Zeros else records[i - 1].Record? && r.prev == records[i - 1].hash)
    && r.hash == Digest(EventContent(i, r.tick, r.utc, r.kind, r.payload, r.prev))
  }

  /** The hash the next record must name. */
  function LastOf(records: seq<Record>): Hash {
    if records != [] && records[|records| - 1].Record? then records[|records| - 1].hash else Zeros
  }

  lemma {:induction false} ChainExactly(records: seq<Record>)
    ensures Head(records).Some? <==> forall i :: 0 <= i < |records| ==> InChain(records, i)
    ensures Head(records).Some? ==> Head(records).value == LastOf(records)
    decreases |records|
  {
    if records != [] {
      var n := |records| - 1;
      var before := records[..n];
      ChainExactly(before);
      forall i | 0 <= i < n
        ensures InChain(records, i) <==> InChain(before, i)
      {
      }
      if Head(before).Some? {
        LastInChain(records, n);
      }
    }
  }

  lemma LastInChain(records: seq<Record>, n: nat)
    requires n == |records| - 1 && Head(records[..n]) == Some(LastOf(records[..n]))
    requires forall i :: 0 <= i < n ==> InChain(records[..n], i)
    ensures RecordFault(records[n], n, LastOf(records[..n])) == None <==> InChain(records, n)
  {
    if n > 0 {
      assert InChain(records[..n], n - 1);
    }
  }

  // ----- What is reported of a faulty record -----

  /** The tests of a record that should be number `count` after `prev`, in the order they are made. */
  predicate Test(n: nat, r: Record, count: nat, prev: Hash) {
    r.Record? &&
    match n
    case 0 => true
    case 1 => r.schema == "VEC/LEDGER_EVENT/1"
    case 2 => r.kind != BadKind
    case 3 => r.payload != NotAnObject
    case 4 => r.tick >= 0
    case 5 => |r.utc| > 0
    case 6 => r.sequence == count
    case 7 => r.prev == prev
    case _ => r.hash == Digest(EventContent(r.sequence, r.tick, r.utc, r.kind, r.payload, r.prev))
  }

  function FaultOf(n: nat): Fault {
    match n
    case 0 => NotObject case 1 => BadSchema case 2 => BadEventKind case 3 => BadPayload case 4 => BadTick
    case 5 => NoTimestamp case 6 => BadSequence case 7 => BadPrev case _ => BadHash
  }

  /** The fault of the first test that fails. */
  lemma FaultIsFirstFailing(r: Record, count: nat, prev: Hash, n: nat)
    requires n < 9
    ensures RecordFault(r, count, prev) == Some(FaultOf(n)) <==>
              !Test(n, r, count, prev) && forall m: nat :: m < n ==> Test(m, r, count, prev)
  {
    assert Test(0, r, count, prev) <==> r.Record?;
    if r.Record? {
      FirstFailing(r, count, prev, n);
    }
  }

  lemma FirstFailing(r: Record, count: nat, prev: Hash, n: nat)
    requires n < 9 && r.Record?
    ensures RecordFault(r, count, prev) == Some(FaultOf(n)) <==>
              !Test(n, r, count, prev) && forall m: nat :: m < n ==> Test(m, r, count, prev)
  {
    var t := (m: nat) => Test(m, r, count, prev);
    assert t(0) == Test(0, r, count, prev) && t(1) == Test(1, r, count, prev) && t(2) == Test(2, r, count, prev);
    assert t(3) == Test(3, r, count, prev) && t(4) == Test(4, r, count, prev) && t(5) == Test(5, r, count, prev);
    assert t(6) == Test(6, r, count, prev) && t(7) == Test(7, r, count, prev) && t(8) == Test(8, r, count, prev);
  }

  // ----- Files -----

  predicate Readable(codec: Codec, line: string) {
    Ledger.Blank(line) || codec.decode(line).Some?
  }

  /** The records of the lines that are not blank, in order. */
  function Decoded(codec: Codec, lines: seq<string>): seq<Record>
    requires forall i :: 0 <= i < |lines| ==> Readable(codec, lines[i])
  {
    if lines == [] then [] else
    assert Readable(codec, lines[0]);
    (if Ledger.Blank(lines[0]) then [] else [codec.decode(lines[0]).value])
    + Decoded(codec, lines[1..])
  }

  lemma {:induction false} DecodedSnoc(codec: Codec, lines: seq<string>, line: string)
    requires (forall i :: 0 <= i < |lines| ==> Readable(codec, lines[i])) && Readable(codec, line)
    requires forall i :: 0 <= i < |lines + [line]| ==> Readable(codec, (lines + [line])[i])
    ensures Decoded(codec, lines + [line]) ==
            Decoded(codec, lines) + if Ledger.Blank(line) then [] else [codec.decode(line).value]
    decreases |lines|
  {
    if lines == [] {
      assert lines + [line] == [line] && [line][1..] == [];
    } else {
      assert (lines + [line])[1..] == lines[1..] + [line];
      DecodedSnoc(codec, lines[1..], line);
    }
  }

  /** Complete lines give records exactly when each is blank or can be read, and then those of the lines not blank. */
  lemma {:induction false} LinesExactly(codec: Codec, lines: seq<string>)
    ensures Lines(codec, lines).Some? <==> forall i :: 0 <= i < |lines| ==> Readable(codec, lines[i])
    ensures Lines(codec, lines).Some? ==> Lines(codec, lines).value == Decoded(codec, lines)
    decreases |lines|
  {
    if lines != [] {
      var n := |lines| - 1;
      var before, last := lines[..n], lines[n];
      LinesExactly(codec, before);
      assert lines == before + [last];
      if Lines(codec, before).Some? && Readable(codec, last) {
        forall i | 0 <= i < |lines|
          ensures Readable(codec, lines[i])
        {
          if i < n {
            assert Readable(codec, before[i]);
          }
        }
        DecodedSnoc(codec, before, last);
      }
    }
  }

  lemma {:induction false} VerdictIsHead(records: seq<Record>)
    ensures ChainVerdict(records).Verified? <==> Head(records).Some?
    ensures Head(records).Some? ==> ChainVerdict(records) == Verified(|records|, Head(records).value, false)
    decreases |records|
  {
    if records != [] && Head(records[..|records| - 1]) == None {
      VerdictIsHead(records[..|records| - 1]);
    }
  }

  /** A ledger file verifies exactly when it is missing, or ends with nothing after its last line break, every line is
      blank or can be read, and the records are in chain; count and head are then those of the records. */
  lemma VerifiedExactly(codec: Codec, file: Option<string>)
    ensures VerdictOf(codec, file).Verified? <==>
            file == None ||
            (var pieces := Split(file.value, '\n');
             var whole := pieces[..|pieces| - 1];
             && Ledger.Blank(pieces[|pieces| - 1]) && (forall i :: 0 <= i < |whole| ==> Readable(codec, whole[i]))
             && forall i :: 0 <= i < |Decoded(codec, whole)| ==> InChain(Decoded(codec, whole), i))
    ensures file.Some? && VerdictOf(codec, file).Verified? ==>
              var pieces := Split(file.value, '\n');
              var whole := pieces[..|pieces| - 1];
              (forall i :: 0 <= i < |whole| ==> Readable(codec, whole[i])) &&
              var records := Decoded(codec, whole);
              VerdictOf(codec, file) == Verified(|records|, LastOf(records), false)
  {
    if file.Some? {
      var pieces := Split(file.value, '\n');
      var whole := pieces[..|pieces| - 1];
      LinesExactly(codec, whole);
      if Lines(codec, whole).Some? {
        ChainExactly(Decoded(codec, whole));
        VerdictIsHead(Decoded(codec, whole));
      }
    }
  }
}
