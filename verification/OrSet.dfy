/** The observed-remove set over every interleaving of local adds, local removes and exchanges: tags are never
    reused, and an add loses only to a remove that had observed it. */
module OrSet {
  import opened Common
  import opened AntiEntropy

  type Element = string

  datatype Tag = Tag(issuer: Id, n: nat)

  datatype Entry = Entry(element: Element, tag: Tag)

  datatype SetState = SetState(adds: set<Entry>, removed: set<Tag>, counter: nat)

  function TagsOf(adds: set<Entry>, e: Element): set<Tag> {
    set a | a in adds && a.element == e :: a.tag
  }

  predicate Contains(s: SetState, e: Element) {
    exists a :: a in s.adds && a.element == e && a.tag !in s.removed
  }

  function NextTag(s: SetState, r: Id): Tag {
    Tag(r, s.counter + 1)
  }

  function WithAdd(s: SetState, r: Id, e: Element): SetState {
    SetState(s.adds + {Entry(e, NextTag(s, r))}, s.removed, s.counter + 1)
  }

  function WithRemove(s: SetState, e: Element): SetState {
    s.(removed := s.removed + TagsOf(s.adds, e))
  }

  function JoinSets(a: SetState, b: SetState): SetState {
    SetState(a.adds + b.adds, a.removed + b.removed, if a.counter >= b.counter then a.counter else b.counter)
  }

  /** What the replica's hash covers: the counter is not part of it. */
  function Hashed(s: SetState): (set<Entry>, set<Tag>) {
    (s.adds, s.removed)
  }

  predicate AnySet(s: SetState) { true }

  lemma JoinSetsIsSemilattice()
    ensures Semilattice(JoinSets, AnySet) && ViewRespectsMerge(JoinSets, Hashed, AnySet)
  {
    forall a, b, c
      ensures JoinLaws(JoinSets, AnySet, a, b, c)
    {
      assert (a.adds + b.adds) + c.adds == a.adds + (b.adds + c.adds);
      assert (a.removed + b.removed) + c.removed == a.removed + (b.removed + c.removed);
      assert a.adds + b.adds == b.adds + a.adds && a.removed + b.removed == b.removed + a.removed;
      assert a.adds + a.adds == a.adds && a.removed + a.removed == a.removed;
    }
    forall a, b
      ensures ViewKept(JoinSets, Hashed, AnySet, a, b)
    {
      if Hashed(a) == Hashed(b) {
        assert a.adds == b.adds && a.removed == b.removed;
        assert a.adds + a.adds == a.adds && a.removed + a.removed == a.removed;
      }
    }
  }

  class ORSet {
    var replicaId: Id
    var adds: set<Entry>
    var removedTags: set<Tag>
    var counter: nat

    function State(): SetState
      reads this
    {
      SetState(adds, removedTags, counter)
    }

    constructor (replicaId: Id, s: SetState)
      ensures this.replicaId == replicaId && State() == s
    {
      this.replicaId := replicaId;
      adds, removedTags, counter := s.adds, s.removed, s.counter;
    }

    method FreshTag() returns (t: Tag)
      modifies this
      ensures replicaId == old(replicaId) && adds == old(adds) && removedTags == old(removedTags)
      ensures counter == old(counter) + 1 && t == Tag(replicaId, counter)
    {
      counter := counter + 1;
      return Tag(replicaId, counter);
    }

    /** Without a tag of the caller's, the add gets the next tag of this replica. */
    method Add(e: Element, tag: Option<Tag>) returns (t: Tag)
      modifies this
      ensures replicaId == old(replicaId)
      ensures tag == None ==> State() == WithAdd(old(State()), replicaId, e) && t == NextTag(old(State()), replicaId)
      ensures tag.Some? ==> t == tag.value && State() == old(State()).(adds := old(adds) + {Entry(e, t)})
    {
      if tag == None {
        t := FreshTag();
      } else {
        t := tag.value;
      }
      adds := adds + {Entry(e, t)};
    }

    method Remove(e: Element) returns (tags: set<Tag>)
      modifies this
      ensures replicaId == old(replicaId) && tags == TagsOf(adds, e)
      ensures State() == WithRemove(old(State()), e)
      ensures !Contains(State(), e)
    {
      tags := TagsOf(adds, e);
      removedTags := removedTags + tags;
    }

    method Merge(other: ORSet) returns (out: ORSet)
      ensures fresh(out) && out.replicaId == replicaId && out.State() == JoinSets(State(), other.State())
    {
      out := new ORSet(replicaId, SetState(adds + other.adds, removedTags + other.removedTags,
                                           if counter >= other.counter then counter else other.counter));
    }

    method Value() returns (live: set<Element>)
      ensures forall e :: e in live <==> Contains(State(), e)
    {
      live := set a | a in adds && a.tag !in removedTags :: a.element;
    }
  }

  // ----- Runs -----

  datatype SetEvent = Add(at: Id, element: Element) | Remove(at: Id, element: Element) | Exchange(a: Id, b: Id)

  /** What replica r holds after the run; adds take their default tags. */
  function SetAfter(run: seq<SetEvent>, r: Id): SetState {
    if run == [] then SetState({}, {}, 0) else
    var before, e := run[..|run| - 1], run[|run| - 1];
    match e
    case Add(q, x) => if q == r then WithAdd(SetAfter(before, r), r, x) else SetAfter(before, r)
    case Remove(q, x) => if q == r then WithRemove(SetAfter(before, r), x) else SetAfter(before, r)
    case Exchange(a, b) =>
      if r == a || r == b then JoinSets(SetAfter(before, a), SetAfter(before, b)) else SetAfter(before, r)
  }

  lemma AfterLast(run: seq<SetEvent>, e: SetEvent, r: Id)
    ensures (run + [e])[..|run|] == run
    ensures e.Add? ==>
              SetAfter(run + [e], r) == if e.at == r then WithAdd(SetAfter(run, r), r, e.element) else SetAfter(run, r)
    ensures e.Remove? ==>
              SetAfter(run + [e], r) == if e.at == r then WithRemove(SetAfter(run, r), e.element) else SetAfter(run, r)
    ensures e.Exchange? ==> SetAfter(run + [e], r) ==
                            if r == e.a || r == e.b then JoinSets(SetAfter(run, e.a), SetAfter(run, e.b))
                              else SetAfter(run, r)
  {
    assert (run + [e])[..|run|] == run;
  }

  /** No tag a replica holds is numbered above its issuer's own counter. */
  lemma {:induction false} TagsWithinCounter(run: seq<SetEvent>, r: Id, t: Tag)
    requires t in SetAfter(run, r).removed || exists a :: a in SetAfter(run, r).adds && a.tag == t
    ensures 1 <= t.n <= SetAfter(run, t.issuer).counter
    decreases |run|
  {
    if run != [] {
      var before, e := run[..|run| - 1], run[|run| - 1];
      CounterGrows(before, e, t.issuer);
      var s := SetAfter(before, r);
      if t in s.removed || exists a :: a in s.adds && a.tag == t {
        TagsWithinCounter(before, r, t);
      } else if e.Exchange? {
        var p, q := SetAfter(before, e.a), SetAfter(before, e.b);
        if t in p.removed || exists a :: a in p.adds && a.tag == t {
          TagsWithinCounter(before, e.a, t);
        } else {
          TagsWithinCounter(before, e.b, t);
        }
      }
    }
  }

  lemma CounterGrows(run: seq<SetEvent>, e: SetEvent, r: Id)
    ensures SetAfter(run, r).counter <= SetAfter(run + [e], r).counter
    ensures SetAfter(run, r).adds <= SetAfter(run + [e], r).adds
    ensures SetAfter(run, r).removed <= SetAfter(run + [e], r).removed
  {
    AfterLast(run, e, r);
  }

  /** The entry the add at position p creates. */
  ghost function Created(run: seq<SetEvent>, p: nat): Entry
    requires p < |run| && run[p].Add?
  {
    Entry(run[p].element, NextTag(SetAfter(run[..p], run[p].at), run[p].at))
  }

  lemma {:induction false} HeldFromThenOn(run: seq<SetEvent>, p: nat, r: Id)
    requires p <= |run|
    ensures SetAfter(run[..p], r).adds <= SetAfter(run, r).adds
    ensures SetAfter(run[..p], r).removed <= SetAfter(run, r).removed
    ensures SetAfter(run[..p], r).counter <= SetAfter(run, r).counter
    decreases |run|
  {
    if p == |run| {
      assert run[..p] == run;
    } else {
      var before, e := run[..|run| - 1], run[|run| - 1];
      assert before[..p] == run[..p] && before + [e] == run;
      HeldFromThenOn(before, p, r);
      CounterGrows(before, e, r);
    }
  }

  /** Every entry held anywhere was created by some add of the run. */
  lemma {:induction false} EntryWasCreated(run: seq<SetEvent>, r: Id, a: Entry) returns (p: nat)
    requires a in SetAfter(run, r).adds
    ensures p < |run| && run[p].Add? && a == Created(run, p)
    decreases |run|
  {
    var before, e := run[..|run| - 1], run[|run| - 1];
    if a in SetAfter(before, r).adds {
      p := EntryWasCreated(before, r, a);
    } else if e.Exchange? {
      if a in SetAfter(before, e.a).adds {
        p := EntryWasCreated(before, e.a, a);
      } else {
        p := EntryWasCreated(before, e.b, a);
      }
    } else {
      p := |before|;
    }
    if p < |before| {
      assert before[..p] == run[..p];
    }
  }

  /** Different adds create different tags. */
  lemma TagsAreFresh(run: seq<SetEvent>, p: nat, q: nat)
    requires p < q < |run| && run[p].Add? && run[q].Add?
    ensures Created(run, p).tag != Created(run, q).tag
  {
    var r := run[p].at;
    if run[q].at == r {
      assert run[..p + 1] == run[..p] + [run[p]];
      AfterLast(run[..p], run[p], r);
      HeldFromThenOn(run[..q], p + 1, r);
      assert run[..q][..p + 1] == run[..p + 1];
    }
  }

  /** In any run no tag, wherever it is held, names two elements. */
  lemma TagNamesOneElement(run: seq<SetEvent>, r: Id, a: Entry, s: Id, b: Entry)
    requires a in SetAfter(run, r).adds && b in SetAfter(run, s).adds && a.tag == b.tag
    ensures a == b
  {
    var p := EntryWasCreated(run, r, a);
    var q := EntryWasCreated(run, s, b);
    if p < q {
      TagsAreFresh(run, p, q);
    } else if q < p {
      TagsAreFresh(run, q, p);
    }
  }

  /** Tombstones name only entries the same replica holds. */
  lemma {:induction false} TombstonesAreOfHeldEntries(run: seq<SetEvent>, r: Id, t: Tag) returns (a: Entry)
    requires t in SetAfter(run, r).removed
    ensures a in SetAfter(run, r).adds && a.tag == t
    decreases |run|
  {
    var before, e := run[..|run| - 1], run[|run| - 1];
    if t in SetAfter(before, r).removed {
      a := TombstonesAreOfHeldEntries(before, r, t);
    } else if e.Exchange? {
      if t in SetAfter(before, e.a).removed {
        a := TombstonesAreOfHeldEntries(before, e.a, t);
      } else {
        a := TombstonesAreOfHeldEntries(before, e.b, t);
      }
    } else {
      a :| a in SetAfter(before, r).adds && a.element == e.element && a.tag == t;
    }
  }

  /** An add is visible at its replica at once, whatever was removed before. */
  lemma AddIsVisibleAtOnce(run: seq<SetEvent>, r: Id, x: Element)
    ensures Contains(SetAfter(run + [Add(r, x)], r), x)
  {
    AfterLast(run, Add(r, x), r);
    var s := SetAfter(run, r);
    var t := NextTag(s, r);
    if t in s.removed {
      TagsWithinCounter(run, r, t);
    }
    assert Entry(x, t) in WithAdd(s, r, x).adds;
  }

  /** The remove at position q had the entry in sight. */
  ghost predicate Observed(run: seq<SetEvent>, q: nat, a: Entry)
    requires q < |run|
  {
    run[q].Remove? && run[q].element == a.element && a in SetAfter(run[..q], run[q].at).adds
  }

  /** A held entry is tombstoned at r only if some remove in the run observed it. */
  lemma {:induction false} RemovalWasObserved(run: seq<SetEvent>, r: Id, a: Entry) returns (q: nat)
    requires a in SetAfter(run, r).adds && a.tag in SetAfter(run, r).removed
    ensures q < |run| && Observed(run, q, a)
    decreases |run|
  {
    var before, e := run[..|run| - 1], run[|run| - 1];
    assert run == before + [e];
    var who := if a.tag in SetAfter(before, r).removed then r
               else if e.Exchange? then (if a.tag in SetAfter(before, e.a).removed then e.a else e.b) else r;
    if a.tag in SetAfter(before, who).removed {
      var b := TombstonesAreOfHeldEntries(before, who, a.tag);
      CounterGrows(before, e, who);
      TagNamesOneElement(run, r, a, who, b);
      q := RemovalWasObserved(before, who, a);
    } else {
      var b :| b in SetAfter(before, r).adds && b.element == e.element && b.tag == a.tag;
      CounterGrows(before, e, r);
      TagNamesOneElement(run, r, a, r, b);
      q := |before|;
    }
    if q < |before| {
      assert before[..q] == run[..q];
    }
    assert run[..|before|] == before;
  }

  /** Add wins: an entry present at r is hidden there only by a remove that had observed it; a remove elsewhere
      that had not seen this add never hides it. */
  lemma AddSurvivesUnobservingRemoves(run: seq<SetEvent>, r: Id, a: Entry)
    requires a in SetAfter(run, r).adds
    requires forall q :: 0 <= q < |run| ==> !Observed(run, q, a)
    ensures a.tag !in SetAfter(run, r).removed && Contains(SetAfter(run, r), a.element)
  {
    if a.tag in SetAfter(run, r).removed {
      var q := RemovalWasObserved(run, r, a);
    }
  }

  // ----- What a reconciled fleet agrees on -----

  ghost function Fleet(run: seq<SetEvent>, ids: seq<Id>): map<Id, SetState> {
    map k | k in ids :: SetAfter(run, k)
  }

  ghost predicate Among(run: seq<SetEvent>, ids: set<Id>) {
    forall i :: 0 <= i < |run| ==> if run[i].Exchange? then run[i].a in ids && run[i].b in ids else run[i].at in ids
  }

  lemma {:induction false} JoinedMembership(run: seq<SetEvent>, ids: seq<Id>, n: nat, a: Entry, t: Tag)
    requires n < |ids|
    ensures var j := JoinUpTo(JoinSets, Fleet(run, ids), ids, n);
            && (a in j.adds <==> exists i :: 0 <= i <= n && a in SetAfter(run, ids[i]).adds)
            && (t in j.removed <==> exists i :: 0 <= i <= n && t in SetAfter(run, ids[i]).removed)
  {
    assert ids[n] in ids && ids[0] in ids;
    if n > 0 {
      JoinedMembership(run, ids, n - 1, a, t);
    }
  }

  /** The add at p is one no remove of the run observed. */
  ghost predicate Survives(run: seq<SetEvent>, p: nat)
    requires p < |run| && run[p].Add?
  {
    forall q :: 0 <= q < |run| ==> !Observed(run, q, Created(run, p))
  }

  lemma CreatorHolds(run: seq<SetEvent>, p: nat)
    requires p < |run| && run[p].Add?
    ensures Created(run, p) in SetAfter(run, run[p].at).adds
  {
    assert run[..p + 1] == run[..p] + [run[p]];
    AfterLast(run[..p], run[p], run[p].at);
    HeldFromThenOn(run, p + 1, run[p].at);
  }

  lemma RemoverTombstones(run: seq<SetEvent>, q: nat, a: Entry)
    requires q < |run| && Observed(run, q, a)
    ensures a.tag in SetAfter(run, run[q].at).removed
  {
    assert run[..q + 1] == run[..q] + [run[q]];
    AfterLast(run[..q], run[q], run[q].at);
    HeldFromThenOn(run, q + 1, run[q].at);
  }

  lemma IdIsListed(ids: seq<Id>, keys: set<Id>, k: Id) returns (i: nat)
    requires Enumerates(ids, keys) && k in keys
    ensures i < |ids| && ids[i] == k
  {
    assert k in ids;
    i :| 0 <= i < |ids| && ids[i] == k;
  }

  /** After any run among a fleet, the agreed set contains exactly the elements with some add that no remove of
      the run had observed. */
  lemma AgreedMembers(run: seq<SetEvent>, ids: seq<Id>, keys: set<Id>, x: Element)
    requires ids != [] && Enumerates(ids, keys) && Among(run, keys)
    ensures Contains(JoinUpTo(JoinSets, Fleet(run, ids), ids, |ids| - 1), x) <==>
            exists p :: 0 <= p < |run| && run[p].Add? && run[p].element == x && Survives(run, p)
  {
    var j := JoinUpTo(JoinSets, Fleet(run, ids), ids, |ids| - 1);
    if Contains(j, x) {
      var a :| a in j.adds && a.element == x && a.tag !in j.removed;
      var p := PresentMeansSurvivor(run, ids, keys, a);
    }
    if exists p :: 0 <= p < |run| && run[p].Add? && run[p].element == x && Survives(run, p) {
      var p :| 0 <= p < |run| && run[p].Add? && run[p].element == x && Survives(run, p);
      SurvivorIsPresent(run, ids, keys, p);
    }
  }

  lemma PresentMeansSurvivor(run: seq<SetEvent>, ids: seq<Id>, keys: set<Id>, a: Entry) returns (p: nat)
    requires ids != [] && Enumerates(ids, keys) && Among(run, keys)
    requires var j := JoinUpTo(JoinSets, Fleet(run, ids), ids, |ids| - 1); a in j.adds && a.tag !in j.removed
    ensures p < |run| && run[p].Add? && run[p].element == a.element && Survives(run, p)
  {
    JoinedMembership(run, ids, |ids| - 1, a, a.tag);
    var i :| 0 <= i <= |ids| - 1 && a in SetAfter(run, ids[i]).adds;
    p := EntryWasCreated(run, ids[i], a);
    forall q | 0 <= q < |run|
      ensures !Observed(run, q, a)
    {
      if Observed(run, q, a) {
        RemoverTombstones(run, q, a);
        var k := IdIsListed(ids, keys, run[q].at);
      }
    }
  }

  lemma SurvivorIsPresent(run: seq<SetEvent>, ids: seq<Id>, keys: set<Id>, p: nat)
    requires ids != [] && Enumerates(ids, keys) && Among(run, keys)
    requires p < |run| && run[p].Add? && Survives(run, p)
    ensures Contains(JoinUpTo(JoinSets, Fleet(run, ids), ids, |ids| - 1), run[p].element)
  {
    var a := Created(run, p);
    var j := JoinUpTo(JoinSets, Fleet(run, ids), ids, |ids| - 1);
    JoinedMembership(run, ids, |ids| - 1, a, a.tag);
    CreatorHolds(run, p);
    var k := IdIsListed(ids, keys, run[p].at);
    assert a in j.adds;
    if a.tag in j.removed {
      var i :| 0 <= i <= |ids| - 1 && a.tag in SetAfter(run, ids[i]).removed;
      var b := TombstonesAreOfHeldEntries(run, ids[i], a.tag);
      TagNamesOneElement(run, run[p].at, a, ids[i], b);
      var q := RemovalWasObserved(run, ids[i], a);
    }
  }
}
