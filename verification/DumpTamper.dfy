/** What changing a dump directory behind the back of its writers comes to: which changes every later
    writer notices, and which no writer can. */
module DumpTamper {
  import opened DumpChain
  import opened DumpDirectory

  // ----- Changing the dumps alone, or the digest files alone

  /** In an accepted directory the dumps determine the digest files and the other way round, so a change
      to one kind of file alone, whatever it changes, adds or removes, is never accepted. */
  lemma SoundDetermined(f: Format, d: Directory, e: Directory)
    requires f.Valid() && Within(f, d.dumps) && Within(f, e.dumps) && Sound(f, d) && Sound(f, e)
    ensures d.dumps == e.dumps ==> d == e
    ensures d.sidecars == e.sidecars ==> d == e
  {
    hide Linear, RecordsOf;
    assert forall n :: n in d.dumps ==> DumpOk(f, d, n);
    assert forall n :: n in e.dumps ==> DumpOk(f, e, n);
    if d.dumps == e.dumps {
      forall n | n in d.sidecars.Keys ensures d.sidecars[n] == e.sidecars[n] {
        assert n in d.dumps.Keys;
      }
      assert d.sidecars == e.sidecars;
    }
    if d.sidecars == e.sidecars {
      forall n | n in d.dumps.Keys ensures d.dumps[n] == e.dumps[n] {
        assert d.sidecars[n] == [f.sha(d.dumps[n]), n] && e.sidecars[n] == [f.sha(e.dumps[n]), n];
      }
      assert d.dumps == e.dumps;
    }
  }

  function Altered(d: Directory, n: Name, body: Body): Directory {
    d.(dumps := d.dumps[n := body])
  }

  function Relabelled(d: Directory, n: Name, words: seq<string>): Directory {
    d.(sidecars := d.sidecars[n := words])
  }

  lemma AlteredDump(f: Format, d: Directory, n: Name, body: Body)
    requires f.Valid() && Within(f, d.dumps) && Sound(f, d)
    requires n in d.dumps && body in f.bodies && body != d.dumps[n]
    ensures !Sound(f, Altered(d, n, body))
  {
    hide Sound;
    var e := Altered(d, n, body);
    assert e.dumps[n] != d.dumps[n];
    if Sound(f, e) {
      SoundDetermined(f, d, e);
      assert false;
    }
  }

  lemma AlteredDigest(f: Format, d: Directory, n: Name, words: seq<string>)
    requires f.Valid() && Within(f, d.dumps) && Sound(f, d)
    requires n in d.sidecars && words != d.sidecars[n]
    ensures !Sound(f, Relabelled(d, n, words))
  {
    hide Sound;
    var e := Relabelled(d, n, words);
    assert e.sidecars[n] != d.sidecars[n];
    if Sound(f, e) {
      SoundDetermined(f, d, e);
      assert false;
    }
  }

  // ----- Over whole runs

  /** The dump and its digest file are there, and the file does not state the digest of the dump. */
  predicate Mismatch(f: Format, d: Directory, n: Name) {
    n in d.dumps && n in d.sidecars && !MatchesAt(f, d, n)
  }

  predicate MatchesAt(f: Format, d: Directory, n: Name) {
    n in d.sidecars && n in d.dumps && d.sidecars[n] == [f.sha(d.dumps[n]), n]
  }

  predicate Matching(f: Format, d: Directory) {
    forall n :: n in d.sidecars ==> MatchesAt(f, d, n)
  }

  predicate Past(p: Phase) {
    p.Publishing? || p.Done?
  }

  lemma MismatchUnsound(f: Format, d: Directory, n: Name)
    requires f.Valid() && Mismatch(f, d, n)
    ensures !Sound(f, d)
  {
    hide Linear, RecordsOf;
    assert !DumpOk(f, d, n);
  }

  /** Every file of `d` is there in `e`, unchanged. */
  predicate KeepsFiles(d: Directory, e: Directory) {
    && (forall n :: n in d.dumps ==> n in e.dumps && e.dumps[n] == d.dumps[n])
    && (forall n :: n in d.sidecars ==> n in e.sidecars && e.sidecars[n] == d.sidecars[n])
  }

  lemma StepKeepsFiles(f: Format, s: State, a: Action)
    requires f.Valid()
    ensures KeepsFiles(s.dir, Step(f, s, a).dir)
  {
    hide Sound, Accepts, Lists;
  }

  lemma {:induction false} RunKeepsFiles(f: Format, s: State, actions: seq<Action>)
    requires f.Valid()
    ensures KeepsFiles(s.dir, Run(f, s, actions).dir)
    decreases |actions|
  {
    hide Step;
    if actions != [] {
      StepKeepsFiles(f, s, actions[0]);
      RunKeepsFiles(f, Step(f, s, actions[0]), actions[1..]);
    }
  }

  lemma NotChecked(f: Format, s: State, a: Action)
    requires f.Valid() && !Sound(f, s.dir)
    ensures forall w :: Past(PhaseOf(Step(f, s, a), w)) ==> Past(PhaseOf(s, w))
  {
    hide Sound, Accepts, Lists;
  }

  /** Once a digest file does not state the digest of its dump, nothing ever mends it: no writer passes
      the check again, so those that still get done had passed it before. */
  lemma {:induction false} MismatchForever(f: Format, s: State, actions: seq<Action>, n: Name)
    requires f.Valid() && Mismatch(f, s.dir, n)
    ensures KeepsFiles(s.dir, Run(f, s, actions).dir) && Mismatch(f, Run(f, s, actions).dir, n)
    ensures forall w :: Past(PhaseOf(Run(f, s, actions), w)) ==> Past(PhaseOf(s, w))
    decreases |actions|
  {
    hide Step, Past;
    if actions != [] {
      var next := Step(f, s, actions[0]);
      StepKeepsFiles(f, s, actions[0]);
      MismatchUnsound(f, s.dir, n);
      NotChecked(f, s, actions[0]);
      MismatchForever(f, next, actions[1..], n);
    }
  }

  lemma PublishedDigest(f: Format, s: State, w: Writer, dump: Dump, at: nat)
    requires at <= 6
    ensures PublishNext(f, s, w, dump, at).dir.sidecars
         == if at == 4 && dump.name !in s.dir.sidecars then WithSidecar(f, s.dir, dump).sidecars else s.dir.sidecars
  {
  }

  lemma PublishMatches(f: Format, s: State, w: Writer)
    requires f.Valid() && Inv(f, s) && Matching(f, s.dir) && PhaseOf(s, w).Publishing?
    ensures Matching(f, Step(f, s, Publish(w)).dir)
  {
    hide Linear, Fits, Sound, Logged, RecordsOf, NoTwoShare, Accepts, Lists, PublishNext;
    var dump, at := s.phases[w].dump, s.phases[w].at;
    assert Unfinished(f, s, w, dump, at);
    var base :| UnfinishedOn(f, base, s, w, dump, at);
    PublishShape(f, s, w, dump, at);
    PublishedDigest(f, s, w, dump, at);
    assert at == 4 ==> dump.name in s.dir.dumps && s.dir.dumps[dump.name] == dump.body;
  }

  lemma StepMatches(f: Format, s: State, a: Action)
    requires f.Valid() && Inv(f, s) && Matching(f, s.dir)
    ensures Matching(f, Step(f, s, a).dir)
  {
    hide Inv, Sound, Accepts, Lists, PublishNext;
    if a.Publish? && PhaseOf(s, a.w).Publishing? {
      PublishMatches(f, s, a.w);
    }
  }

  lemma {:induction false} RunMatches(f: Format, s: State, actions: seq<Action>)
    requires f.Valid() && Inv(f, s) && Matching(f, s.dir) && KnownActions(f, actions)
    ensures Matching(f, Run(f, s, actions).dir)
    decreases |actions|
  {
    hide Inv, Step, Matching;
    if actions != [] {
      StepKeeps(f, s, actions[0]);
      StepMatches(f, s, actions[0]);
      RunMatches(f, Step(f, s, actions[0]), actions[1..]);
    }
  }

  /** Start from an accepted directory, let any writers run, fail and be killed, then alter one dump that
      has its digest file: from then on no writer that has not yet passed the check is ever done, and the
      altered dump is never accepted. */
  lemma AlterationStopsWriters(f: Format, dir: Directory, actions: seq<Action>, n: Name, body: Body, more: seq<Action>)
    requires f.Valid() && Within(f, dir.dumps) && Sound(f, dir) && KnownActions(f, actions)
    requires var d := Run(f, Start(dir), actions).dir; n in d.dumps && n in d.sidecars && body != d.dumps[n]
    requires body in f.bodies
    ensures var s := Run(f, Start(dir), actions);
            var t := Run(f, s.(dir := Altered(s.dir, n, body)), more);
      && !Sound(f, t.dir) && n in t.dir.dumps && t.dir.dumps[n] == body
      && forall w :: Past(PhaseOf(t, w)) ==> Past(PhaseOf(s, w))
  {
    hide Run, Sound, Inv, Past, Mismatch;
    var s := Run(f, Start(dir), actions);
    StartMatches(f, dir);
    RunKeeps(f, Start(dir), actions);
    RunMatches(f, Start(dir), actions);
    var changed := s.(dir := Altered(s.dir, n, body));
    AlteredMismatch(f, s, n, body);
    MismatchForever(f, changed, more, n);
    var t := Run(f, changed, more);
    MismatchUnsound(f, t.dir, n);
  }

  lemma StartMatches(f: Format, dir: Directory)
    requires f.Valid() && Within(f, dir.dumps) && Sound(f, dir)
    ensures Inv(f, Start(dir)) && Matching(f, dir)
  {
    hide Linear, RecordsOf, Inv;
    StartHolds(f, dir);
    assert forall n :: n in dir.dumps ==> DumpOk(f, dir, n);
    assert forall n :: n in dir.sidecars ==> n in dir.sidecars.Keys;
  }

  lemma AlteredMismatch(f: Format, s: State, n: Name, body: Body)
    requires f.Valid() && Inv(f, s) && Matching(f, s.dir)
    requires n in s.dir.dumps && n in s.dir.sidecars && body in f.bodies && body != s.dir.dumps[n]
    ensures Mismatch(f, Altered(s.dir, n, body), n)
  {
    hide Linear, RecordsOf, Unfinished, Logged, NoTwoShare, Sound;
    assert MatchesAt(f, s.dir, n);
    assert s.dir.dumps[n] in f.bodies;
  }

  // ----- Changing a dump together with its digest file

  /** No record names `d` as its predecessor. */
  predicate Unnamed(records: Records, d: Digest) {
    forall e :: e in records ==> records[e] != Some(d)
  }

  lemma NamedIsNeeded(records: Records, d: Digest, e: Digest)
    requires d !in records && e in records && records[e] == Some(d)
    ensures !Linear(records)
  {
    hide Chain;
    assert e in Chained(records);
    forall list | Chain(records, list) ensures false {
      ListMeansKnown(records, list, e);
    }
  }

  lemma NotItsOwn(records: Records, d: Digest)
    requires Linear(records) && d in records
    ensures records[d] != Some(d)
  {
    hide Chain;
    if records[d] == Some(d) {
      assert d in Chained(records);
      var list :| Chain(records, list);
      var i := Member(records, list, d);
      PreviousInList(records, list, i);
      DistinctInList(records, list, i);
    }
  }

  lemma DistinctInList(records: Records, list: seq<Digest>, i: nat)
    requires Chain(records, list) && i + 1 < |list|
    ensures list[i] != list[i + 1]
  {
  }

  /** Taking a record out of the list is possible at its new end only. */
  lemma OnlyTheHeadGoes(records: Records, list: seq<Digest>, d: Digest)
    requires Chain(records, list) && d in records && Unnamed(records, d)
    ensures if d !in Chained(records) then Chain(records - {d}, list)
            else list[0] == d && if |list| == 1 then Chained(records - {d}) == {} else Chain(records - {d}, list[1..])
  {
    var rest := records - {d};
    assert Chained(rest) == Chained(records) - {d};
    PreviousInList(records, list, |list| - 1);
    if d in Chained(records) {
      var i := Member(records, list, d);
      assert i == 0 by {
        if i > 0 { PreviousInList(records, list, i - 1); }
      }
      assert list == [d] + list[1..];
    }
  }

  lemma RemoveExact(records: Records, d: Digest)
    requires Linear(records) && d in records
    ensures Linear(records - {d}) <==> Unnamed(records, d)
  {
    hide Chain;
    NotItsOwn(records, d);
    if !Unnamed(records, d) {
      var e :| e in records && records[e] == Some(d);
      NamedIsNeeded(records - {d}, d, e);
    } else if Chained(records) == {} {
      assert Chained(records - {d}) == {};
    } else {
      var list :| Chain(records, list);
      OnlyTheHeadGoes(records, list, d);
    }
  }

  /** The same for putting another record in its place. */
  lemma ReplaceExact(records: Records, d: Digest, e: Digest)
    requires Linear(records) && d in records && e !in records
    ensures Linear((records - {d})[e := records[d]]) <==> Unnamed(records, d)
  {
    hide Chain;
    var rest := records - {d};
    NotItsOwn(records, d);
    RemoveExact(records, d);
    if !Unnamed(records, d) {
      var x :| x in records && records[x] == Some(d);
      NamedIsNeeded(rest[e := records[d]], d, x);
    } else {
      match records[d]
      case None => AppendLegacy(rest, e);
      case Some(p) =>
        PutInPlace(records, d, e, p);
    }
  }

  lemma PutInPlace(records: Records, d: Digest, e: Digest, p: string)
    requires Linear(records) && Unnamed(records, d) && d in records && records[d] == Some(p) && e !in records
    ensures Linear((records - {d})[e := Some(p)])
  {
    hide Chain;
    var rest := records - {d};
    assert d in Chained(records);
    var list :| Chain(records, list);
    OnlyTheHeadGoes(records, list, d);
    PreviousInList(records, list, 0);
    if |list| == 1 {
      AppendFirst(rest, e, p);
    } else {
      AppendNext(rest, e, list[1..]);
    }
  }

  function Withdrawn(d: Directory, n: Name): Directory {
    d.(dumps := d.dumps - {n}, sidecars := d.sidecars - {n})
  }

  function Forged(f: Format, d: Directory, n: Name, body: Body): Directory {
    d.(dumps := d.dumps[n := body], sidecars := d.sidecars[n := [f.sha(body), n]])
  }

  /** No other dump has the same contents. */
  predicate Sole(dumps: map<Name, Body>, n: Name)
    requires n in dumps
  {
    forall m :: m in dumps && dumps[m] == dumps[n] ==> m == n
  }

  lemma WithdrawnRecords(f: Format, dumps: map<Name, Body>, n: Name)
    requires f.Valid() && Within(f, dumps) && n in dumps && Sole(dumps, n)
    ensures RecordsOf(f, dumps - {n}) == RecordsOf(f, dumps) - {f.sha(dumps[n])}
  {
    hide RecordsOf, Format.Previous;
    var before, after, d := RecordsOf(f, dumps), RecordsOf(f, dumps - {n}), f.sha(dumps[n]);
    forall e | e in after ensures e in before && e != d && after[e] == before[e] {
      var m := RecordOf(f, dumps - {n}, e);
      RecordFor(f, dumps, m);
    }
    forall e | e in before && e != d ensures e in after {
      var m := RecordOf(f, dumps, e);
      RecordFor(f, dumps - {n}, m);
    }
  }

  lemma NewContent(f: Format, dumps: map<Name, Body>, body: Body)
    requires f.Valid() && body in f.bodies && body !in dumps.Values
    ensures f.sha(body) !in RecordsOf(f, dumps)
  {
    forall n | n in dumps ensures dumps[n] != body {
      assert dumps[n] in dumps.Values;
    }
  }

  /** Removing a dump with its digest file is noticed exactly when another dump names it as predecessor. */
  lemma WithdrawnExact(f: Format, d: Directory, n: Name)
    requires f.Valid() && Within(f, d.dumps) && Sound(f, d) && n in d.dumps && Sole(d.dumps, n)
    ensures Sound(f, Withdrawn(d, n)) <==> Unnamed(RecordsOf(f, d.dumps), f.sha(d.dumps[n]))
  {
    hide Linear, RecordsOf;
    RecordFor(f, d.dumps, n);
    WithdrawnRecords(f, d.dumps, n);
    RemoveExact(RecordsOf(f, d.dumps), f.sha(d.dumps[n]));
    assert Intact(f, Withdrawn(d, n)) by {
      forall m | m in Withdrawn(d, n).dumps ensures DumpOk(f, Withdrawn(d, n), m) {
        assert DumpOk(f, d, m);
      }
    }
  }

  /** Rewriting a dump and its digest file, keeping the predecessor it names, is noticed exactly when
      another dump names it: only what nothing was appended to can be forged. */
  lemma ForgedExact(f: Format, d: Directory, n: Name, body: Body)
    requires f.Valid() && Within(f, d.dumps) && Sound(f, d) && n in d.dumps && Sole(d.dumps, n)
    requires body in f.bodies && body !in d.dumps.Values
    requires f.parse(body).Parsed? && f.Previous(body) == f.Previous(d.dumps[n])
    ensures Sound(f, Forged(f, d, n, body)) <==> Unnamed(RecordsOf(f, d.dumps), f.sha(d.dumps[n]))
  {
    hide Linear, RecordsOf, Format.Previous;
    var records, id := RecordsOf(f, d.dumps), f.sha(body);
    RecordFor(f, d.dumps, n);
    NewContent(f, d.dumps, body);
    WithdrawnRecords(f, d.dumps, n);
    RecordsAfter(f, d.dumps - {n}, Dump(n, body));
    assert (d.dumps - {n})[n := body] == d.dumps[n := body];
    ReplaceExact(records, f.sha(d.dumps[n]), id);
    assert Intact(f, Forged(f, d, n, body)) by {
      forall m | m in Forged(f, d, n, body).dumps ensures DumpOk(f, Forged(f, d, n, body), m) {
        assert m != n ==> DumpOk(f, d, m);
      }
    }
  }
}
