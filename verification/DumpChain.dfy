/** The predecessor chain of a dump directory: every chained dump names the digest of the dump it was
    appended to, or GENESIS, and the chain is accepted only when it is one list. */
module DumpChain {
  datatype Option<+T> = None | Some(value: T)

  const GENESIS: string := "GENESIS"

  /** SHA-256 in hexadecimal. */
  type Digest = s: string | |s| == 64 witness seq(64, _ => '0')

  /** The digests of the verified dumps; a legacy dump names no predecessor. */
  type Records = map<Digest, Option<string>>

  datatype Error = PredecessorMissing | Fork | NotOneHead | Disconnected

  datatype Outcome = Head(head: Option<Digest>) | Refused(error: Error)

  function Chained(records: Records): (c: set<Digest>)
    ensures c <= records.Keys
  {
    set d | d in records && records[d].Some?
  }

  /** A predecessor behind which the chain begins. */
  predicate Root(records: Records, previous: string) {
    previous == GENESIS || (previous in records && records[previous].None?)
  }

  /** The chained records form one list, newest first: each was appended to the next one, and the
      oldest to a root. */
  predicate Chain(records: Records, list: seq<Digest>) {
    && |list| > 0
    && (forall i, j :: 0 <= i < j < |list| ==> list[i] != list[j])
    && (set d | d in list) == Chained(records)
    && (forall i :: 0 <= i < |list| - 1 ==> records[list[i]] == Some(list[i + 1]))
    && (var oldest := list[|list| - 1]; oldest in Chained(records) && Root(records, records[oldest].value))
  }

  ghost predicate IsHead(records: Records, head: Digest) {
    exists list :: Chain(records, list) && |list| > 0 && list[0] == head
  }

  /** Nothing is chained, or all that is chained is one list. */
  ghost predicate Linear(records: Records) {
    Chained(records) == {} || exists list :: Chain(records, list)
  }

  // ----- What a list implies

  lemma Member(records: Records, list: seq<Digest>, d: Digest) returns (i: nat)
    requires Chain(records, list) && d in Chained(records)
    ensures i < |list| && list[i] == d
  {
    assert d in (set e | e in list);
    i :| 0 <= i < |list| && list[i] == d;
  }

  /** The predecessor of a list element is the next element, or a root behind the last one. */
  lemma PreviousInList(records: Records, list: seq<Digest>, i: nat)
    requires Chain(records, list) && i < |list|
    ensures list[i] in records && records[list[i]].Some?
    ensures var p := records[list[i]].value;
            if i + 1 < |list| then p == list[i + 1] && p in Chained(records) else Root(records, p) && p !in Chained(records)
  {
    assert list[i] in (set e | e in list);
    if i + 1 < |list| {
      assert list[i + 1] in (set e | e in list);
    }
  }

  lemma ListMeansKnown(records: Records, list: seq<Digest>, d: Digest)
    requires Chain(records, list) && d in Chained(records)
    ensures records[d].value == GENESIS || records[d].value in records
  {
    var i := Member(records, list, d);
    PreviousInList(records, list, i);
  }

  lemma ListMeansNoFork(records: Records, list: seq<Digest>, d: Digest, e: Digest)
    requires Chain(records, list) && d in Chained(records) && e in Chained(records)
    requires records[d].value == records[e].value
    ensures d == e
  {
    var i := Member(records, list, d);
    var j := Member(records, list, e);
    PreviousInList(records, list, i);
    PreviousInList(records, list, j);
  }

  /** The chained records that no chained record was appended to. */
  function Heads(records: Records): set<Digest> {
    set d | d in Chained(records) && forall e :: e in Chained(records) ==> records[e].value != d
  }

  lemma ListMeansOneHead(records: Records, list: seq<Digest>)
    requires Chain(records, list)
    ensures Heads(records) == {list[0]}
  {
    PreviousInList(records, list, 0);
    forall d | d in Chained(records) ensures d in Heads(records) <==> d == list[0] {
      var i := Member(records, list, d);
      if i > 0 {
        PreviousInList(records, list, i - 1);
      } else {
        forall e | e in Chained(records) ensures records[e].value != d {
          var j := Member(records, list, e);
          PreviousInList(records, list, j);
        }
      }
    }
  }

  /** There is at most one list. */
  lemma {:induction false} SameList(records: Records, list: seq<Digest>, walk: seq<Digest>)
    requires Chain(records, list) && |walk| > 0 && walk[0] == list[0]
    requires forall i :: 0 <= i < |walk| ==> walk[i] in Chained(records)
    requires forall i :: 0 <= i < |walk| - 1 ==> records[walk[i]] == Some(walk[i + 1])
    ensures |walk| <= |list| && walk == list[..|walk|]
  {
    if |walk| > 1 {
      var n := |walk| - 1;
      SameList(records, list, walk[..n]);
      PreviousInList(records, list, n - 1);
      assert walk == walk[..n] + [walk[n]];
    }
  }

  lemma ListUnique(records: Records, a: seq<Digest>, b: seq<Digest>)
    requires Chain(records, a) && Chain(records, b)
    ensures a == b
  {
    ListMeansOneHead(records, a);
    ListMeansOneHead(records, b);
    assert a[0] in {b[0]};
    forall i | 0 <= i < |a| ensures a[i] in Chained(records) { PreviousInList(records, a, i); }
    forall i | 0 <= i < |b| ensures b[i] in Chained(records) { PreviousInList(records, b, i); }
    SameList(records, a, b);
    SameList(records, b, a);
  }

  // ----- Finding the head

  /** The predecessors, each with the one record appended to it; fails on a fork or an unknown one. */
  method Successors(records: Records, chained: set<Digest>) returns (successor: map<string, Digest>, error: Option<Error>)
    requires chained == Chained(records) != {}
    ensures error.Some? ==> !exists list :: Chain(records, list)
    ensures error.None? ==>
      && (forall p :: p in successor ==> successor[p] in chained && records[successor[p]].value == p)
      && (forall d :: d in chained ==> records[d].value in successor && successor[records[d].value] == d)
      && (forall d :: d in chained ==> records[d].value == GENESIS || records[d].value in records)
  {
    successor := map[];
    var todo := chained;
    while todo != {}
      invariant todo <= chained
      invariant forall p :: p in successor ==> successor[p] in chained - todo && records[successor[p]].value == p
      invariant forall d :: d in chained - todo ==> records[d].value in successor && successor[records[d].value] == d
      invariant forall d :: d in chained - todo ==> records[d].value == GENESIS || records[d].value in records
      decreases todo
    {
      var d :| d in todo;
      var previous := records[d].value;
      if previous != GENESIS && previous !in records {
        forall list | Chain(records, list) ensures false {
          ListMeansKnown(records, list, d);
        }
        return successor, Some(PredecessorMissing);
      }
      if previous in successor {
        forall list | Chain(records, list) ensures false {
          ListMeansNoFork(records, list, d, successor[previous]);
        }
        return successor, Some(Fork);
      }
      successor := successor[previous := d];
      todo := todo - {d};
    }
    return successor, None;
  }

  /** The walk from the head back to the root. The check for a revisited record never fires: without
      forks a walk can only come back to its own start, and nothing was appended to the head. */
  method Walk(records: Records, chained: set<Digest>, head: Digest) returns (visited: set<Digest>, ghost walk: seq<Digest>)
    requires chained == Chained(records) && head in Heads(records)
    requires forall d, e :: d in chained && e in chained && records[d].value == records[e].value ==> d == e
    ensures |walk| > 0 && walk[0] == head && visited == set d | d in walk
    ensures visited <= chained
    ensures forall i, j :: 0 <= i < j < |walk| ==> walk[i] != walk[j]
    ensures forall i :: 0 <= i < |walk| - 1 ==> records[walk[i]] == Some(walk[i + 1])
    ensures var last := walk[|walk| - 1]; last in chained && (records[last].value == GENESIS || records[last].value !in chained)
  {
    visited, walk := {}, [];
    var current: string := head;
    while current in chained
      invariant current in chained && visited == (set d | d in walk) <= chained
      invariant if walk == [] then current == head else records[walk[|walk| - 1]] == Some(current)
      invariant |walk| > 0 ==> walk[0] == head
      invariant forall i, j :: 0 <= i < j < |walk| ==> walk[i] != walk[j]
      invariant forall i :: 0 <= i < |walk| - 1 ==> records[walk[i]] == Some(walk[i + 1])
      decreases chained - visited
    {
      NotRevisited(records, walk, current);
      if current in visited {
        assert false;
        break;
      }
      visited := visited + {current};
      walk := walk + [current];
      var previous := records[current].value;
      if previous == GENESIS || previous !in chained {
        break;
      }
      current := previous;
    }
  }

  lemma NotRevisited(records: Records, walk: seq<Digest>, current: Digest)
    requires current in Chained(records) && forall d :: d in walk ==> d in Chained(records)
    requires forall d, e :: d in Chained(records) && e in Chained(records) && records[d].value == records[e].value ==> d == e
    requires |walk| > 0 ==> walk[0] in Heads(records) && records[walk[|walk| - 1]] == Some(current)
    requires forall i, j :: 0 <= i < j < |walk| ==> walk[i] != walk[j]
    requires forall i :: 0 <= i < |walk| - 1 ==> records[walk[i]] == Some(walk[i + 1])
    ensures current !in walk
  {
    forall i | 0 <= i < |walk| ensures walk[i] != current {
      assert walk[|walk| - 1] in walk;
      if i == 0 {
        assert walk[0] in Heads(records);
      } else {
        assert walk[i - 1] in walk && records[walk[i - 1]] == Some(walk[i]);
      }
    }
  }

  /** A head is returned exactly when the chained records form one list, and it is the newest of it. */
  method ChainHead(records: Records) returns (r: Outcome)
    ensures r == Head(None) <==> Chained(records) == {}
    ensures forall head :: r == Head(Some(head)) <==> IsHead(records, head)
    ensures r.Head? <==> Linear(records)
  {
    hide Chain, Heads;
    var chained := set d | d in records && records[d].Some?;
    if chained == {} {
      ListNotEmpty(records);
      return Head(None);
    }
    var successor, error := Successors(records, chained);
    if error.Some? {
      return Refused(error.value);
    }
    var heads := chained - set previous | previous in successor && previous in chained;
    HeadsFromSuccessors(records, successor);
    if |heads| != 1 {
      forall list | Chain(records, list) ensures false {
        ListMeansOneHead(records, list);
      }
      return Refused(NotOneHead);
    }
    var head :| head in heads;
    var visited, walk := Walk(records, chained, head);
    if visited != chained {
      forall list | Chain(records, list) ensures false {
        WalkIsComplete(records, list, walk);
      }
      return Refused(Disconnected);
    }
    WalkIsChain(records, walk);
    forall list | Chain(records, list) ensures list == walk {
      ListUnique(records, list, walk);
    }
    return Head(Some(head));
  }

  lemma ListNotEmpty(records: Records)
    ensures Chained(records) == {} ==> forall list :: !Chain(records, list)
  {
  }

  lemma HeadsFromSuccessors(records: Records, successor: map<string, Digest>)
    requires forall p :: p in successor ==> successor[p] in Chained(records) && records[successor[p]].value == p
    requires forall d :: d in Chained(records) ==> records[d].value in successor
    ensures Chained(records) - (set p | p in successor && p in Chained(records)) == Heads(records)
  {
  }

  lemma WalkIsChain(records: Records, walk: seq<Digest>)
    requires |walk| > 0 && (set d | d in walk) == Chained(records)
    requires forall i, j :: 0 <= i < j < |walk| ==> walk[i] != walk[j]
    requires forall i :: 0 <= i < |walk| - 1 ==> records[walk[i]] == Some(walk[i + 1])
    requires forall i :: 0 <= i < |walk| ==> walk[i] in Chained(records)
    requires records[walk[|walk| - 1]].value !in Chained(records)
    requires forall d :: d in Chained(records) ==> records[d].value == GENESIS || records[d].value in records
    ensures Chain(records, walk)
  {
    var oldest := walk[|walk| - 1];
    assert oldest in (set d | d in walk);
  }

  lemma WalkIsComplete(records: Records, list: seq<Digest>, walk: seq<Digest>)
    requires Chain(records, list) && |walk| > 0 && walk[0] in Heads(records)
    requires forall i :: 0 <= i < |walk| ==> walk[i] in Chained(records)
    requires forall i :: 0 <= i < |walk| - 1 ==> records[walk[i]] == Some(walk[i + 1])
    requires records[walk[|walk| - 1]].value !in Chained(records)
    ensures (set d | d in walk) == Chained(records)
  {
    ListMeansOneHead(records, list);
    SameList(records, list, walk);
    PreviousInList(records, list, |walk| - 1);
    assert walk == list;
  }

  // ----- Appending

  /** What a new dump must name: GENESIS in an empty directory, the head of the chain, or, before
      anything is chained, some legacy dump. */
  ghost predicate Expected(records: Records, previous: string) {
    if records == map[] then previous == GENESIS
    else if Chained(records) == {} then previous in records
    else previous in records && IsHead(records, previous)
  }

  /** Nothing has been appended to an expected predecessor yet. */
  lemma ExpectedIsFree(records: Records, previous: string, d: Digest)
    requires Expected(records, previous) && d in records
    ensures records[d] != Some(previous)
  {
    if d in Chained(records) {
      var list :| Chain(records, list) && list[0] == previous;
      ListMeansOneHead(records, list);
      assert previous in Heads(records);
    }
  }

  /** A dump that names the expected predecessor becomes the new head, in front of the old list. */
  lemma AppendChained(records: Records, d: Digest, previous: string) returns (list: seq<Digest>)
    requires Linear(records) && Expected(records, previous) && d !in records
    ensures Chain(records[d := Some(previous)], list) && list[0] == d
    ensures if Chained(records) == {} then list == [d] else Chain(records, list[1..])
  {
    hide Chain;
    if Chained(records) == {} {
      list := [d];
      AppendFirst(records, d, previous);
    } else {
      var before :| Chain(records, before) && |before| > 0 && before[0] == previous;
      list := [d] + before;
      AppendNext(records, d, before);
      assert list[1..] == before;
    }
  }

  lemma AppendFirst(records: Records, d: Digest, previous: string)
    requires Chained(records) == {} && d !in records
    requires previous == GENESIS || previous in records
    ensures Chain(records[d := Some(previous)], [d])
  {
    var after := records[d := Some(previous)];
    assert Chained(after) == {d} == set e | e in [d];
    if previous in records {
      assert previous !in Chained(records);
    }
  }

  lemma AppendNext(records: Records, d: Digest, before: seq<Digest>)
    requires Chain(records, before) && d !in records
    ensures |before| > 0 && Chain(records[d := Some(before[0])], [d] + before)
  {
    var after, list := records[d := Some(before[0])], [d] + before;
    forall i | 0 <= i < |before| ensures before[i] in records && before[i] != d { PreviousInList(records, before, i); }
    assert Chained(after) == Chained(records) + {d};
    assert (set e | e in list) == (set e | e in before) + {d};
    forall i | 0 <= i < |list| - 1 ensures after[list[i]] == Some(list[i + 1]) {
      if i > 0 { assert list[i] == before[i - 1] && list[i + 1] == before[i]; }
    }
    assert list[|list| - 1] == before[|before| - 1];
  }

  /** A dump without a predecessor leaves the list as it is. */
  lemma AppendLegacy(records: Records, d: Digest)
    requires Linear(records) && d !in records
    ensures Linear(records[d := None])
    ensures forall list :: Chain(records, list) ==> Chain(records[d := None], list)
    ensures Chained(records) == {} ==> Chained(records[d := None]) == {}
  {
    var after := records[d := None];
    assert Chained(after) == Chained(records);
    forall list | Chain(records, list) ensures Chain(after, list) {
      forall i | 0 <= i < |list| ensures list[i] in records { PreviousInList(records, list, i); }
    }
  }
}
