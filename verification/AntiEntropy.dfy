/** The pairwise reconciler over replicas of a state-based type, for any type whose merge is a join. */
module AntiEntropy {
  import opened Common

  /** The join laws for one triple of states. */
  ghost predicate JoinLaws<T>(merge: (T, T) -> T, dom: T -> bool, a: T, b: T, c: T) {
    dom(a) && dom(b) && dom(c) ==>
      && dom(merge(a, b)) && merge(a, b) == merge(b, a) && merge(a, a) == a
      && merge(merge(a, b), c) == merge(a, merge(b, c))
  }

  /** merge is a join on the states satisfying dom. */
  ghost predicate Semilattice<T(!new)>(merge: (T, T) -> T, dom: T -> bool) {
    forall a, b, c :: JoinLaws(merge, dom, a, b, c)
  }

  lemma Laws<T(!new)>(merge: (T, T) -> T, dom: T -> bool, a: T, b: T, c: T)
    requires Semilattice(merge, dom) && dom(a) && dom(b) && dom(c)
    ensures dom(merge(a, b)) && merge(a, b) == merge(b, a) && merge(a, a) == a
    ensures merge(merge(a, b), c) == merge(a, merge(b, c))
  {
    assert JoinLaws(merge, dom, a, b, c);
  }

  /** Merging two states that hash alike changes neither hash. */
  ghost predicate ViewRespectsMerge<T(!new), V>(merge: (T, T) -> T, view: T -> V, dom: T -> bool) {
    forall a, b :: ViewKept(merge, view, dom, a, b)
  }

  ghost predicate ViewKept<T, V>(merge: (T, T) -> T, view: T -> V, dom: T -> bool, a: T, b: T) {
    dom(a) && dom(b) && view(a) == view(b) ==> view(merge(a, b)) == view(a)
  }

  /** Ids among the keys, in sorted order and so without repetition. */
  ghost predicate Lists(ids: seq<Id>, keys: set<Id>) {
    && (forall i :: 0 <= i < |ids| ==> ids[i] in keys)
    && forall i, j :: 0 <= i < j < |ids| ==> ids[i].rank < ids[j].rank
  }

  ghost predicate Enumerates(ids: seq<Id>, keys: set<Id>) {
    Lists(ids, keys) && forall k :: k in keys ==> k in ids
  }

  /** The join of the first n + 1 replicas. */
  ghost function JoinUpTo<T(!new)>(merge: (T, T) -> T, start: map<Id, T>, ids: seq<Id>, n: nat): T
    requires n < |ids| && forall i :: 0 <= i < |ids| ==> ids[i] in start
  {
    if n == 0 then start[ids[0]] else merge(JoinUpTo(merge, start, ids, n - 1), start[ids[n]])
  }

  ghost predicate SameViews<T(!new), V>(view: T -> V, state: map<Id, T>) {
    forall a, b :: a in state && b in state ==> view(state[a]) == view(state[b])
  }

  lemma {:induction false} JoinUpToInside<T(!new)>(merge: (T, T) -> T, dom: T -> bool, start: map<Id, T>, ids: seq<Id>,
      n: nat)
    requires n < |ids| && forall i :: 0 <= i < |ids| ==> ids[i] in start
    requires Semilattice(merge, dom) && forall k :: k in start ==> dom(start[k])
    ensures dom(JoinUpTo(merge, start, ids, n))
    ensures var joined := JoinUpTo(merge, start, ids, n);
            n > 0 ==> merge(JoinUpTo(merge, start, ids, n - 1), joined) == joined
  {
    if n > 0 {
      JoinUpToInside(merge, dom, start, ids, n - 1);
      var p, x := JoinUpTo(merge, start, ids, n - 1), start[ids[n]];
      assert ids[n] in start;
      Laws(merge, dom, p, x, x);
      Laws(merge, dom, p, p, x);
    }
  }

  /** The first n replicas hash alike. */
  ghost predicate Alike<T(!new), V>(view: T -> V, start: map<Id, T>, ids: seq<Id>, n: nat)
    requires n <= |ids| && forall i :: 0 <= i < |ids| ==> ids[i] in start
  {
    forall k :: 0 <= k < n ==> view(start[ids[k]]) == view(start[ids[0]])
  }

  lemma {:induction false} JoinKeepsSharedView<T(!new), V>(merge: (T, T) -> T, view: T -> V, dom: T -> bool,
                                                           start: map<Id, T>, ids: seq<Id>, n: nat)
    requires n < |ids| && forall i :: 0 <= i < |ids| ==> ids[i] in start
    requires Semilattice(merge, dom) && ViewRespectsMerge(merge, view, dom)
    requires Alike(view, start, ids, n + 1) && forall k :: k in start ==> dom(start[k])
    ensures view(JoinUpTo(merge, start, ids, n)) == view(start[ids[0]])
  {
    if n > 0 {
      JoinKeepsSharedView(merge, view, dom, start, ids, n - 1);
      JoinUpToInside(merge, dom, start, ids, n - 1);
      assert ids[n] in start && ids[0] in start;
      assert ViewKept(merge, view, dom, JoinUpTo(merge, start, ids, n - 1), start[ids[n]]);
    }
  }

  /** What each replica holds once the pairs before (i, j) have met. */
  ghost predicate Reached<T(!new)>(merge: (T, T) -> T, start: map<Id, T>, ids: seq<Id>, i: nat, j: nat,
      state: map<Id, T>)
    requires i < j <= |ids| && forall k :: 0 <= k < |ids| ==> ids[k] in start
  {
    && state.Keys == start.Keys
    && forall k :: 0 <= k < |ids| ==> state[ids[k]] == Held(merge, start, ids, i, j, k)
  }

  ghost function Held<T(!new)>(merge: (T, T) -> T, start: map<Id, T>, ids: seq<Id>, i: nat, j: nat, k: nat): T
    requires i < j <= |ids| && k < |ids| && forall k :: 0 <= k < |ids| ==> ids[k] in start
  {
    if k < i then JoinUpTo(merge, start, ids, |ids| - 1)
    else if k == i then JoinUpTo(merge, start, ids, j - 1)
    else if i == 0 && k >= j then start[ids[k]]
    else JoinUpTo(merge, start, ids, k)
  }

  /** Both replicas take the merge of the two. */
  function Exchanged<T>(merge: (T, T) -> T, state: map<Id, T>, a: Id, b: Id): map<Id, T>
    requires a in state && b in state
  {
    var merged := merge(state[a], state[b]);
    state[a := merged][b := merged]
  }

  /** The merge hashes differently from one of the two. */
  predicate Changes<T, V(==)>(merge: (T, T) -> T, view: T -> V, ra: T, rb: T) {
    view(ra) != view(merge(ra, rb)) || view(rb) != view(merge(ra, rb))
  }

  /** The exchange of pair (i, j) gives both the join of the first j + 1 starting states. */
  lemma ExchangeReaches<T(!new)>(merge: (T, T) -> T, dom: T -> bool, start: map<Id, T>, ids: seq<Id>, i: nat, j: nat,
                                 state: map<Id, T>)
    requires i < j < |ids| && (forall k :: 0 <= k < |ids| ==> ids[k] in start)
    requires forall k, l :: 0 <= k < l < |ids| ==> ids[k].rank < ids[l].rank
    requires Semilattice(merge, dom) && forall k :: k in start ==> dom(start[k])
    requires Reached(merge, start, ids, i, j, state)
    ensures var m := merge(state[ids[i]], state[ids[j]]);
            && m == JoinUpTo(merge, start, ids, j)
            && Reached(merge, start, ids, i, j + 1, Exchanged(merge, state, ids[i], ids[j]))
    ensures state[ids[i]] == JoinUpTo(merge, start, ids, j - 1)
    ensures state[ids[j]] == if i == 0 then start[ids[j]] else JoinUpTo(merge, start, ids, j)
  {
    JoinUpToInside(merge, dom, start, ids, j);
    assert state[ids[i]] == Held(merge, start, ids, i, j, i) && state[ids[j]] == Held(merge, start, ids, i, j, j);
    var m := merge(state[ids[i]], state[ids[j]]);
    var after := state[ids[i] := m][ids[j] := m];
    forall k | 0 <= k < |ids|
      ensures after[ids[k]] == Held(merge, start, ids, i, j + 1, k)
    {
      assert state[ids[k]] == Held(merge, start, ids, i, j, k);
    }
  }

  lemma RowReaches<T(!new)>(merge: (T, T) -> T, start: map<Id, T>, ids: seq<Id>, i: nat, state: map<Id, T>)
    requires i + 1 < |ids| && forall k :: 0 <= k < |ids| ==> ids[k] in start
    requires Reached(merge, start, ids, i, |ids|, state)
    ensures Reached(merge, start, ids, i + 1, i + 2, state)
  {
    forall k | 0 <= k < |ids|
      ensures state[ids[k]] == Held(merge, start, ids, i + 1, i + 2, k)
    {
      assert state[ids[k]] == Held(merge, start, ids, i, |ids|, k);
    }
  }

  /** Once the first replica has met those before j, meeting j changes a hash exactly when j hashes differently. */
  lemma FirstRowNotices<T(!new), V>(merge: (T, T) -> T, view: T -> V, dom: T -> bool, start: map<Id, T>, ids: seq<Id>,
      j: nat)
    requires 0 < j < |ids| && forall i :: 0 <= i < |ids| ==> ids[i] in start
    requires Semilattice(merge, dom) && ViewRespectsMerge(merge, view, dom)
    requires Alike(view, start, ids, j) && forall k :: k in start ==> dom(start[k])
    ensures var p, m := JoinUpTo(merge, start, ids, j - 1), JoinUpTo(merge, start, ids, j);
            view(p) != view(m) || view(start[ids[j]]) != view(m) <==> !Alike(view, start, ids, j + 1)
  {
    JoinKeepsSharedView(merge, view, dom, start, ids, j - 1);
    if Alike(view, start, ids, j + 1) {
      JoinKeepsSharedView(merge, view, dom, start, ids, j);
    }
  }

  lemma LaterRowsAreQuiet<T(!new), V>(merge: (T, T) -> T, view: T -> V, dom: T -> bool, start: map<Id, T>,
      ids: seq<Id>, j: nat)
    requires 0 < j < |ids| && forall i :: 0 <= i < |ids| ==> ids[i] in start
    requires Semilattice(merge, dom) && ViewRespectsMerge(merge, view, dom)
    requires Alike(view, start, ids, |ids|) && forall k :: k in start ==> dom(start[k])
    ensures view(JoinUpTo(merge, start, ids, j - 1)) == view(JoinUpTo(merge, start, ids, j))
  {
    JoinKeepsSharedView(merge, view, dom, start, ids, j - 1);
    JoinKeepsSharedView(merge, view, dom, start, ids, j);
  }

  /** The agreed state is an upper bound of every replica's starting state, and of nothing less. */
  lemma {:induction false} JoinIsLeastUpperBound<T(!new)>(merge: (T, T) -> T, dom: T -> bool, start: map<Id, T>,
      ids: seq<Id>, n: nat, bound: T)
    requires n < |ids| && forall i :: 0 <= i < |ids| ==> ids[i] in start
    requires Semilattice(merge, dom) && dom(bound) && forall k :: k in start ==> dom(start[k])
    ensures var join := JoinUpTo(merge, start, ids, n);
            && (forall i :: 0 <= i <= n ==> merge(start[ids[i]], join) == join)
            && ((forall i :: 0 <= i <= n ==> merge(start[ids[i]], bound) == bound) ==> merge(join, bound) == bound)
  {
    if n > 0 {
      JoinIsLeastUpperBound(merge, dom, start, ids, n - 1, bound);
      JoinUpToInside(merge, dom, start, ids, n - 1);
      var p, x := JoinUpTo(merge, start, ids, n - 1), start[ids[n]];
      Laws(merge, dom, p, x, bound);
      Laws(merge, dom, x, bound, bound);
      forall i | 0 <= i <= n
        ensures merge(start[ids[i]], merge(p, x)) == merge(p, x)
      {
        assert ids[i] in start;
        if i < n {
          Laws(merge, dom, start[ids[i]], p, x);
        } else {
          Laws(merge, dom, x, merge(p, x), x);
          Laws(merge, dom, p, x, x);
        }
      }
    } else {
      assert ids[0] in start;
      Laws(merge, dom, start[ids[0]], start[ids[0]], start[ids[0]]);
    }
  }

  /** What one exchange reports, in the first row of pairs and in the later ones. */
  lemma ExchangeReports<T(!new), V>(merge: (T, T) -> T, view: T -> V, dom: T -> bool, start: map<Id, T>, ids: seq<Id>,
                                    i: nat, j: nat, state: map<Id, T>)
    requires i < j < |ids| && Lists(ids, start.Keys)
    requires Semilattice(merge, dom) && ViewRespectsMerge(merge, view, dom) && forall k :: k in start ==> dom(start[k])
    requires Reached(merge, start, ids, i, j, state)
    ensures var changed := Changes(merge, view, state[ids[i]], state[ids[j]]);
            && Reached(merge, start, ids, i, j + 1, Exchanged(merge, state, ids[i], ids[j]))
            && (i == 0 ==> (Alike(view, start, ids, j + 1) <==> Alike(view, start, ids, j) && !changed))
            && (i > 0 && Alike(view, start, ids, |ids|) ==> !changed)
  {
    ExchangeReaches(merge, dom, start, ids, i, j, state);
    if i == 0 && Alike(view, start, ids, j) {
      FirstRowNotices(merge, view, dom, start, ids, j);
    } else if i > 0 && Alike(view, start, ids, |ids|) {
      LaterRowsAreQuiet(merge, view, dom, start, ids, j);
    }
  }

  lemma AllReached<T(!new)>(merge: (T, T) -> T, start: map<Id, T>, ids: seq<Id>, state: map<Id, T>)
    requires |ids| >= 2 && Enumerates(ids, start.Keys)
    requires Reached(merge, start, ids, |ids| - 1, |ids|, state)
    ensures forall k :: k in state ==> state[k] == JoinUpTo(merge, start, ids, |ids| - 1)
  {
    forall k | k in state
      ensures state[k] == JoinUpTo(merge, start, ids, |ids| - 1)
    {
      assert k in ids;
      var n :| 0 <= n < |ids| && ids[n] == k;
      assert state[ids[n]] == Held(merge, start, ids, |ids| - 1, |ids|, n);
    }
  }

  lemma AlikeIsSame<T(!new), V>(view: T -> V, start: map<Id, T>, ids: seq<Id>)
    requires ids != [] && Enumerates(ids, start.Keys)
    ensures Alike(view, start, ids, |ids|) <==> SameViews(view, start)
  {
    if Alike(view, start, ids, |ids|) {
      forall a | a in start
        ensures view(start[a]) == view(start[ids[0]])
      {
        assert a in ids;
        var n :| 0 <= n < |ids| && ids[n] == a;
      }
    }
  }

  datatype SyncRecord<V> = SyncRecord(round: nat, a: Id, b: Id, before: (V, V), merged: V, changed: bool)

  datatype Report<V> = Report(converged: bool, rounds: nat, ids: seq<Id>, final: Option<V>)

  lemma LeastExists(keys: set<Id>)
    requires keys != {}
    ensures exists k :: k in keys && forall j :: j in keys ==> k.rank <= j.rank
  {
    var k :| k in keys;
    var rest := keys - {k};
    if rest == {} {
      assert keys == {k};
    } else {
      LeastExists(rest);
      var m :| m in rest && forall j :: j in rest ==> m.rank <= j.rank;
      var least := if k.rank <= m.rank then k else m;
      assert keys == rest + {k};
      assert least in keys && forall j :: j in keys ==> least.rank <= j.rank;
    }
  }

  method Sorted(keys: set<Id>) returns (ids: seq<Id>)
    ensures Enumerates(ids, keys)
  {
    ids := [];
    var rest := keys;
    while rest != {}
      invariant rest <= keys
      invariant forall i :: 0 <= i < |ids| ==> ids[i] in keys
      invariant forall k :: k in keys ==> k in rest || k in ids
      invariant forall i, j :: 0 <= i < j < |ids| ==> ids[i].rank < ids[j].rank
      invariant forall i, k :: 0 <= i < |ids| && k in rest ==> ids[i].rank < k.rank
    {
      LeastExists(rest);
      var k :| k in rest && forall j :: j in rest ==> k.rank <= j.rank;
      ids := ids + [k];
      rest := rest - {k};
    }
  }

  /** What row i may have reported up to replica j: the first row reports exactly the states that do not hash alike;
      later rows report nothing if all do. */
  ghost predicate Reported<T(!new), V>(view: T -> V, start: map<Id, T>, ids: seq<Id>, i: nat, j: nat, changed: bool)
    requires Lists(ids, start.Keys) && j <= |ids|
  {
    && (i == 0 ==> (changed <==> !Alike(view, start, ids, j)))
    && (i > 0 && Alike(view, start, ids, |ids|) ==> !changed)
  }

  class AntiEntropy<T(!new), V(==)> {
    const merge: (T, T) -> T
    const view: T -> V
    ghost const dom: T -> bool
    var replicas: map<Id, T>
    var history: seq<SyncRecord<V>>

    ghost predicate Valid()
      reads this
    {
      && Semilattice(merge, dom) && ViewRespectsMerge(merge, view, dom)
      && forall k :: k in replicas ==> dom(replicas[k])
    }

    constructor (merge: (T, T) -> T, view: T -> V, ghost dom: T -> bool, replicas: map<Id, T>)
      requires Semilattice(merge, dom) && ViewRespectsMerge(merge, view, dom)
      requires forall k :: k in replicas ==> dom(replicas[k])
      ensures Valid() && this.merge == merge && this.view == view && this.dom == dom
      ensures this.replicas == replicas && history == []
    {
      this.merge := merge;
      this.view := view;
      this.dom := dom;
      this.replicas := replicas;
      history := [];
    }

    /** One exchange: both replicas take the merge. Unknown ids are refused. */
    method Sync(a: Id, b: Id, round: nat) returns (r: Result<SyncRecord<V>, ()>)
      requires Valid()
      modifies this
      ensures Valid()
      ensures r.Ok? <==> a in old(replicas) && b in old(replicas)
      ensures r.Refused? ==> replicas == old(replicas) && history == old(history)
      ensures r.Ok? ==>
                var ra, rb := old(replicas)[a], old(replicas)[b];
                var m := merge(ra, rb);
                && replicas == Exchanged(merge, old(replicas), a, b)
                && r.value == SyncRecord(round, a, b, (view(ra), view(rb)), view(m), Changes(merge, view, ra, rb))
                && history == old(history) + [r.value]
    {
      if a !in replicas || b !in replicas {
        return Refused(());
      }
      var ra, rb := replicas[a], replicas[b];
      var ha, hb := view(ra), view(rb);
      var merged := merge(ra, rb);
      Laws(merge, dom, ra, rb, rb);
      var mh := view(merged);
      replicas := replicas[a := merged];
      replicas := replicas[b := merged];
      var rec := SyncRecord(round, a, b, (ha, hb), mh, ha != mh || hb != mh);
      history := history + [rec];
      return Ok(rec);
    }

    /** The exchange of pair (i, j) within a round, given whether the row has changed anything so far. */
    method Meet(ghost start: map<Id, T>, ids: seq<Id>, i: nat, j: nat, round: nat, soFar: bool) returns (changed: bool)
      requires Valid() && i < j < |ids| && Lists(ids, start.Keys)
      requires forall k :: k in start ==> dom(start[k])
      requires Reached(merge, start, ids, i, j, replicas) && Reported(view, start, ids, i, j, soFar)
      modifies this
      ensures Valid() && Reached(merge, start, ids, i, j + 1, replicas) && Reported(view, start, ids, i, j + 1, changed)
    {
      ExchangeReports(merge, view, dom, start, ids, i, j, replicas);
      var rec := Sync(ids[i], ids[j], round);
      return soFar || rec.value.changed;
    }

    /** Replica i meets every later replica in order. */
    method Row(ghost start: map<Id, T>, ids: seq<Id>, i: nat, round: nat) returns (changed: bool)
      requires Valid() && i + 1 < |ids| && Lists(ids, start.Keys)
      requires forall k :: k in start ==> dom(start[k])
      requires Reached(merge, start, ids, i, i + 1, replicas)
      modifies this
      ensures Valid() && Reached(merge, start, ids, i + 1, i + 2, replicas)
      ensures Reported(view, start, ids, i, |ids|, changed)
    {
      changed := false;
      for j := i + 1 to |ids|
        invariant Valid() && Reached(merge, start, ids, i, j, replicas) && Reported(view, start, ids, i, j, changed)
      {
        changed := Meet(start, ids, i, j, round, changed);
      }
      RowReaches(merge, start, ids, i, replicas);
    }

    /** One pass over all pairs in order leaves every replica at the join of all starting states, and reports a
        change exactly when the starting states did not all hash alike. */
    method Round(ids: seq<Id>, round: nat) returns (changed: bool)
      requires Valid() && |ids| >= 2 && Enumerates(ids, replicas.Keys)
      modifies this
      ensures Valid() && replicas.Keys == old(replicas).Keys
      ensures forall k :: k in replicas ==> replicas[k] == JoinUpTo(merge, old(replicas), ids, |ids| - 1)
      ensures changed <==> !SameViews(view, old(replicas))
    {
      ghost var start := replicas;
      changed := false;
      for i := 0 to |ids| - 1
        invariant Valid() && Reached(merge, start, ids, i, i + 1, replicas)
        invariant changed <==> i > 0 && !Alike(view, start, ids, |ids|)
      {
        var inRow := Row(start, ids, i, round);
        changed := changed || inRow;
      }
      AllReached(merge, start, ids, replicas);
      AlikeIsSame(view, start, ids);
    }

    /** Converging stops after one round if all states hashed alike, and otherwise in the second. */
    method Converge(maxRounds: nat) returns (report: Report<V>)
      requires Valid()
      modifies this
      ensures Valid() && replicas.Keys == old(replicas).Keys && Enumerates(report.ids, replicas.Keys)
      ensures |report.ids| < 2 ==> report.converged && report.rounds == 0 && replicas == old(replicas)
      ensures |report.ids| == 0 ==> report.final == None
      ensures |report.ids| == 1 ==> report.final == Some(view(replicas[report.ids[0]]))
      ensures |report.ids| >= 2 ==>
                report.rounds == if maxRounds == 0 then 0
                                 else if SameViews(view, old(replicas)) then 1
                                 else if maxRounds == 1 then 1 else 2
      ensures |report.ids| >= 2 && maxRounds > 0 ==>
                && report.converged
                && (forall k :: k in replicas ==>
                      replicas[k] == JoinUpTo(merge, old(replicas), report.ids, |report.ids| - 1))
                && report.final == Some(view(JoinUpTo(merge, old(replicas), report.ids, |report.ids| - 1)))
      ensures |report.ids| >= 2 && maxRounds == 0 ==>
                && replicas == old(replicas) && (report.converged <==> SameViews(view, replicas))
                && report.final == if report.converged then Some(view(replicas[report.ids[0]])) else None
    {
      var ids := Sorted(replicas.Keys);
      if |ids| < 2 {
        return Report(true, 0, ids, if ids == [] then None else Some(view(replicas[ids[0]])));
      }
      ghost var start := replicas;
      ghost var join := JoinUpTo(merge, start, ids, |ids| - 1);
      var rounds := 0;
      var done := false;
      JoinUpToInside(merge, dom, start, ids, |ids| - 1);
      while rounds < maxRounds && !done
        invariant Valid() && replicas.Keys == start.Keys && rounds <= maxRounds
        invariant rounds == 0 ==> replicas == start && !done
        invariant rounds > 0 ==> forall k :: k in replicas ==> replicas[k] == join
        invariant rounds == 1 ==> (done <==> SameViews(view, start))
        invariant rounds == 2 ==> done && !SameViews(view, start)
        invariant rounds <= 2
      {
        ghost var before := replicas;
        var changed := Round(ids, rounds);
        if rounds > 0 {
          JoinOfEqual(merge, dom, before, ids, |ids| - 1, join);
        }
        rounds := rounds + 1;
        var same := forall k :: k in replicas ==> view(replicas[k]) == view(replicas[ids[0]]);
        done := same && !changed;
      }
      var agreed := forall k :: k in replicas ==> view(replicas[k]) == view(replicas[ids[0]]);
      return Report(agreed, rounds, ids, if agreed then Some(view(replicas[ids[0]])) else None);
    }
  }

  lemma {:induction false} JoinOfEqual<T(!new)>(merge: (T, T) -> T, dom: T -> bool, state: map<Id, T>, ids: seq<Id>,
      n: nat, x: T)
    requires n < |ids| && forall i :: 0 <= i < |ids| ==> ids[i] in state
    requires Semilattice(merge, dom) && dom(x) && forall k :: k in state ==> state[k] == x
    ensures JoinUpTo(merge, state, ids, n) == x
  {
    if n > 0 {
      JoinOfEqual(merge, dom, state, ids, n - 1, x);
      assert ids[n] in state;
      Laws(merge, dom, x, x, x);
    }
  }
}
