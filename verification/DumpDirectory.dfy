/** Writers that append dumps to a shared directory. A writer reads a predecessor and builds a dump
    without holding the lock; under the lock it checks the directory, links the dump and then its
    digest file, each through a temporary file, and may fail or be killed at every step. */
module DumpDirectory {
  import opened DumpChain

  type Name = string
  type Body = seq<char>

  /** What the parser finds under capture_provenance.previous_dump_sha256. */
  datatype Field = Absent | NotText | Text(previous: string)
  datatype Parsed = Unreadable | Parsed(field: Field)

  /** SHA-256, the JSON parser, and the file contents that occur: those in the directory at the start
      and those that writers build. No two of them may have the same digest. */
  datatype Format = Format(sha: Body -> Digest, parse: Body -> Parsed, bodies: set<Body>)
  {
    ghost predicate Valid() {
      forall a, b :: a in bodies && b in bodies && sha(a) == sha(b) ==> a == b
    }

    function Previous(body: Body): Option<string> {
      match parse(body)
      case Parsed(Text(p)) => Some(p)
      case _ => None
    }
  }

  /** Dumps by file name, the words in the digest file of each name, and the files that temporary
      names were made for. */
  datatype Directory = Directory(dumps: map<Name, Body>, sidecars: map<Name, seq<string>>, temps: set<Name>)

  const SUFFIX: string := ".sha256"

  datatype Dump = Dump(name: Name, body: Body)

  // ----- What validation accepts

  predicate DumpOk(f: Format, d: Directory, n: Name)
    requires n in d.dumps
  {
    n in d.sidecars && d.sidecars[n] == [f.sha(d.dumps[n]), n] && f.parse(d.dumps[n]).Parsed?
  }

  predicate Intact(f: Format, d: Directory) {
    d.temps == {} && d.sidecars.Keys == d.dumps.Keys && forall n :: n in d.dumps ==> DumpOk(f, d, n)
  }

  /** Only contents that are taken into account occur. */
  predicate Within(f: Format, dumps: map<Name, Body>) {
    forall n :: n in dumps ==> dumps[n] in f.bodies
  }

  ghost function RecordsOf(f: Format, dumps: map<Name, Body>): Records
    requires f.Valid()
  {
    map n | n in dumps && dumps[n] in f.bodies :: f.sha(dumps[n]) := f.Previous(dumps[n])
  }

  ghost predicate Sound(f: Format, d: Directory)
    requires f.Valid()
  {
    Intact(f, d) && Linear(RecordsOf(f, d.dumps))
  }

  /** How a writer sees the directory: the order in which it lists the dumps, and their order by
      modification time and then by name. */
  datatype Listing = Listing(names: seq<Name>, rank: Name -> nat)

  predicate Lists(l: Listing, dumps: map<Name, Body>) {
    && (forall n :: n in dumps ==> n in l.names)
    && (forall n :: n in l.names ==> n in dumps)
    && (forall m, n :: m in l.names && n in l.names && l.rank(m) == l.rank(n) ==> m == n)
  }

  /** Of several files with the same digest the last one listed stands for it. */
  function FileOf(f: Format, dumps: map<Name, Body>, names: seq<Name>, e: Digest): Option<Name>
    decreases |names|
  {
    if names == [] then None
    else
      var n := names[|names| - 1];
      if n in dumps && f.sha(dumps[n]) == e then Some(n) else FileOf(f, dumps, names[..|names| - 1], e)
  }

  function RankOf(f: Format, dumps: map<Name, Body>, l: Listing, e: Digest): nat {
    match FileOf(f, dumps, l.names, e)
    case Some(n) => l.rank(n)
    case None => 0
  }

  ghost predicate Newest(f: Format, dumps: map<Name, Body>, l: Listing, p: string)
    requires f.Valid()
  {
    p in RecordsOf(f, dumps) && forall e :: e in RecordsOf(f, dumps) ==> RankOf(f, dumps, l, e) <= RankOf(f, dumps, l, p)
  }

  /** What the next dump has to name: GENESIS in an empty directory, the newest dump before anything is
      chained, and the head of the list afterwards. */
  ghost predicate Due(f: Format, dumps: map<Name, Body>, l: Listing, p: string)
    requires f.Valid()
  {
    var records := RecordsOf(f, dumps);
    if records == map[] then p == GENESIS
    else if Chained(records) == {} then Newest(f, dumps, l, p)
    else p in records && IsHead(records, p)
  }

  /** The predecessor check: a dump without the field is not checked at all. */
  ghost predicate Accepts(f: Format, d: Directory, dump: Dump, l: Listing)
    requires f.Valid()
  {
    match f.parse(dump.body)
    case Parsed(Absent) => true
    case Parsed(Text(p)) => Due(f, d.dumps, l, p)
    case _ => false
  }

  /** The part of the check that does not depend on the listing: any dump will do as a predecessor
      before the first one is chained. */
  ghost predicate Fits(f: Format, d: Directory, dump: Dump)
    requires f.Valid()
  {
    match f.parse(dump.body)
    case Parsed(Absent) => true
    case Parsed(Text(p)) => Expected(RecordsOf(f, d.dumps), p)
    case _ => false
  }

  lemma AcceptedFits(f: Format, d: Directory, dump: Dump, l: Listing)
    requires f.Valid() && Accepts(f, d, dump, l)
    ensures Fits(f, d, dump)
  {
    hide RecordsOf;
  }

  lemma HeadIsRecorded(records: Records, head: Digest)
    requires IsHead(records, head)
    ensures head in records && Chained(records) != {}
  {
    var list :| Chain(records, list) && |list| > 0 && list[0] == head;
    PreviousInList(records, list, 0);
  }

  lemma {:induction false} FileFound(f: Format, dumps: map<Name, Body>, names: seq<Name>, e: Digest)
    ensures match FileOf(f, dumps, names, e)
            case Some(n) => n in names && n in dumps && f.sha(dumps[n]) == e
            case None => forall n :: n in names && n in dumps ==> f.sha(dumps[n]) != e
    decreases |names|
  {
    if names != [] {
      var front, last := names[..|names| - 1], names[|names| - 1];
      FileFound(f, dumps, front, e);
      assert forall n :: n in names ==> n in front || n == last;
      assert forall n :: n in front ==> n in names;
    }
  }

  lemma RecordHasFile(f: Format, dumps: map<Name, Body>, l: Listing, e: Digest)
    requires f.Valid() && Lists(l, dumps) && e in RecordsOf(f, dumps)
    ensures FileOf(f, dumps, l.names, e).Some?
  {
    var n := RecordOf(f, dumps, e);
    FileFound(f, dumps, l.names, e);
  }

  /** In an accepted directory exactly one predecessor is due. */
  lemma OneIsDue(f: Format, d: Directory, l: Listing) returns (p: string)
    requires f.Valid() && Sound(f, d) && Lists(l, d.dumps)
    ensures forall q :: Due(f, d.dumps, l, q) <==> q == p
  {
    hide Linear, RecordsOf, Chain, Lists;
    var records := RecordsOf(f, d.dumps);
    if records == map[] {
      p := GENESIS;
    } else if Chained(records) == {} {
      p := NewestExists(f, d.dumps, l, records.Keys);
      forall q | Newest(f, d.dumps, l, q) ensures q == p {
        NewestUnique(f, d.dumps, l, p, q);
      }
    } else {
      SoundIsTidy(f, d);
      var list := ListOf(records);
      p := list[0];
      HeadIsRecorded(records, p);
      forall q | IsHead(records, q) ensures q == p {
        var other :| Chain(records, other) && |other| > 0 && other[0] == q;
        ListUnique(records, list, other);
      }
    }
  }

  lemma ListOf(records: Records) returns (list: seq<Digest>)
    requires Linear(records) && Chained(records) != {}
    ensures Chain(records, list) && |list| > 0
  {
    list :| Chain(records, list);
  }

  lemma NewestUnique(f: Format, dumps: map<Name, Body>, l: Listing, p: string, q: string)
    requires f.Valid() && Lists(l, dumps) && Newest(f, dumps, l, p) && Newest(f, dumps, l, q)
    ensures p == q
  {
    hide RecordsOf, FileOf;
    RecordHasFile(f, dumps, l, p);
    RecordHasFile(f, dumps, l, q);
    FileFound(f, dumps, l.names, p);
    FileFound(f, dumps, l.names, q);
  }

  lemma {:induction false} NewestExists(f: Format, dumps: map<Name, Body>, l: Listing, among: set<Digest>) returns (p: Digest)
    requires among != {}
    ensures p in among && forall e :: e in among ==> RankOf(f, dumps, l, e) <= RankOf(f, dumps, l, p)
    decreases among
  {
    hide RankOf;
    var e :| e in among;
    p := e;
    if among != {e} {
      var q := NewestExists(f, dumps, l, among - {e});
      if RankOf(f, dumps, l, e) <= RankOf(f, dumps, l, q) {
        p := q;
      }
    }
  }

  function WithDump(d: Directory, dump: Dump): Directory {
    d.(dumps := d.dumps[dump.name := dump.body])
  }

  function WithSidecar(f: Format, d: Directory, dump: Dump): Directory {
    d.(sidecars := d.sidecars[dump.name := [f.sha(dump.body), dump.name]])
  }

  function Appended(f: Format, d: Directory, dump: Dump): Directory {
    WithSidecar(f, WithDump(d, dump), dump)
  }

  // ----- One append

  /** A record stands for a dump with that digest. */
  lemma RecordOf(f: Format, dumps: map<Name, Body>, e: Digest) returns (n: Name)
    requires f.Valid() && e in RecordsOf(f, dumps)
    ensures n in dumps && dumps[n] in f.bodies && f.sha(dumps[n]) == e && RecordsOf(f, dumps)[e] == f.Previous(dumps[n])
  {
    n :| n in dumps && dumps[n] in f.bodies && f.sha(dumps[n]) == e;
  }

  lemma RecordFor(f: Format, dumps: map<Name, Body>, n: Name)
    requires f.Valid() && n in dumps && dumps[n] in f.bodies
    ensures f.sha(dumps[n]) in RecordsOf(f, dumps)
    ensures RecordsOf(f, dumps)[f.sha(dumps[n])] == f.Previous(dumps[n])
  {
  }

  lemma RecordsAfter(f: Format, dumps: map<Name, Body>, dump: Dump)
    requires f.Valid() && dump.name !in dumps && dump.body in f.bodies
    ensures RecordsOf(f, dumps[dump.name := dump.body]) == RecordsOf(f, dumps)[f.sha(dump.body) := f.Previous(dump.body)]
  {
    hide RecordsOf, Format.Previous;
    var all := dumps[dump.name := dump.body];
    var after, before, d := RecordsOf(f, all), RecordsOf(f, dumps), f.sha(dump.body);
    RecordFor(f, all, dump.name);
    forall e | e in after ensures e in before[d := f.Previous(dump.body)] && after[e] == before[d := f.Previous(dump.body)][e] {
      var n := RecordOf(f, all, e);
      if n != dump.name {
        RecordFor(f, dumps, n);
      }
    }
    forall e | e in before ensures e in after {
      var n := RecordOf(f, dumps, e);
      RecordFor(f, all, n);
    }
  }

  /** Appending an accepted dump to a sound directory gives a sound directory; a dump that names its
      predecessor is the new head, and the list behind it is the old list. */
  lemma AppendKeepsSound(f: Format, d: Directory, dump: Dump)
    requires f.Valid() && Sound(f, d) && Fits(f, d, dump) && dump.name !in d.dumps && dump.body in f.bodies
    ensures Sound(f, Appended(f, d, dump))
    ensures Extends(RecordsOf(f, d.dumps), RecordsOf(f, Appended(f, d, dump).dumps))
    ensures f.Previous(dump.body).Some? ==> IsHead(RecordsOf(f, Appended(f, d, dump).dumps), f.sha(dump.body))
  {
    hide Linear, IsHead, Expected, Extends;
    var before, id := RecordsOf(f, d.dumps), f.sha(dump.body);
    RecordsAfter(f, d.dumps, dump);
    IntactAfter(f, d, dump);
    match f.Previous(dump.body)
    case Some(p) =>
      NewDigest(f, d, dump, p);
      var list := AppendChained(before, id, p);
      NewHead(before, before[id := Some(p)], list);
    case None =>
      if id in before {
        SameBody(f, d.dumps, dump.body);
        assert before[id := None] == before;
        SameExtends(before, before);
      } else {
        AppendLegacy(before, id);
        SameExtends(before, before[id := None]);
      }
  }

  /** The list only ever grows at its new end. */
  ghost predicate Extends(a: Records, b: Records) {
    forall list :: Chain(a, list) ==> exists front :: Chain(b, front + list)
  }

  lemma NewHead(before: Records, after: Records, list: seq<Digest>)
    requires Chain(after, list)
    requires Chained(before) == {} || (|list| > 0 && Chain(before, list[1..]))
    ensures |list| > 0 && IsHead(after, list[0]) && Linear(after) && Extends(before, after)
  {
    forall list0 | Chain(before, list0) ensures exists front :: Chain(after, front + list0) {
      ListUnique(before, list0, list[1..]);
      assert [list[0]] + list0 == list;
    }
  }

  lemma SameExtends(before: Records, after: Records)
    requires forall list :: Chain(before, list) ==> Chain(after, list)
    ensures Extends(before, after)
  {
    forall list | Chain(before, list) ensures exists front :: Chain(after, front + list) {
      assert [] + list == list;
    }
  }

  lemma ExtendsTransitive(a: Records, b: Records, c: Records)
    requires Extends(a, b) && Extends(b, c)
    ensures Extends(a, c)
  {
    hide Chain;
    forall list | Chain(a, list) ensures exists front :: Chain(c, front + list) {
      var near :| Chain(b, near + list);
      var far :| Chain(c, far + (near + list));
      assert far + (near + list) == (far + near) + list;
      assert Chain(c, (far + near) + list);
    }
  }

  lemma IntactAfter(f: Format, d: Directory, dump: Dump)
    requires Intact(f, d) && dump.name !in d.dumps && f.parse(dump.body).Parsed?
    ensures Intact(f, Appended(f, d, dump))
  {
    var after := Appended(f, d, dump);
    forall n | n in after.dumps ensures DumpOk(f, after, n) {
      if n != dump.name {
        assert DumpOk(f, d, n);
      }
    }
  }

  lemma SameBody(f: Format, dumps: map<Name, Body>, body: Body)
    requires f.Valid() && body in f.bodies && f.sha(body) in RecordsOf(f, dumps)
    ensures RecordsOf(f, dumps)[f.sha(body)] == f.Previous(body)
  {
    var n := RecordOf(f, dumps, f.sha(body));
  }

  /** A dump that names the expected predecessor is not in the directory yet. */
  lemma NewDigest(f: Format, d: Directory, dump: Dump, p: string)
    requires f.Valid() && dump.body in f.bodies && f.Previous(dump.body) == Some(p) && Expected(RecordsOf(f, d.dumps), p)
    ensures f.sha(dump.body) !in RecordsOf(f, d.dumps)
  {
    hide Expected;
    if f.sha(dump.body) in RecordsOf(f, d.dumps) {
      SameBody(f, d.dumps, dump.body);
      ExpectedIsFree(RecordsOf(f, d.dumps), p, f.sha(dump.body));
    }
  }

  // ----- Many writers

  /** Publishing is at: 0 checked, 1 dump temporary made, 2 dump linked, 3 temporary removed,
      4 digest temporary made, 5 digest linked, 6 temporary removed. */
  datatype Phase = Idle | Built(dump: Dump) | Holding(dump: Dump) | Publishing(dump: Dump, at: nat) | Done(dump: Dump) | Stopped

  type Writer = nat

  datatype State = State(dir: Directory, phases: map<Writer, Phase>, lock: Option<Writer>, log: seq<Entry>)

  datatype Entry = Entry(w: Writer, dump: Dump)

  /** `free` says whether the limits on count, size and free space allow another dump, `l` what the
      writer sees of the directory. */
  datatype Action =
    | Build(w: Writer, dump: Dump)
    | Lock(w: Writer)
    | Check(w: Writer, free: bool, l: Listing)
    | Publish(w: Writer)
    | Raise(w: Writer)
    | Kill(w: Writer)

  function PhaseOf(s: State, w: Writer): Phase {
    if w in s.phases then s.phases[w] else Idle
  }

  function Enter(s: State, w: Writer, p: Phase): State {
    s.(phases := s.phases[w := p])
  }

  function Release(s: State, w: Writer, p: Phase): State {
    Enter(s, w, p).(lock := if s.lock == Some(w) then None else s.lock)
  }

  /** Leaving a publication by an exception removes the temporary file that is in use. */
  function CleanedUp(d: Directory, dump: Dump, at: nat): Directory {
    if at in {1, 2} then d.(temps := d.temps - {dump.name})
    else if at in {4, 5} then d.(temps := d.temps - {dump.name + SUFFIX})
    else d
  }

  function PublishNext(f: Format, s: State, w: Writer, dump: Dump, at: nat): State {
    match at
    case 0 =>
      if dump.name in s.dir.temps then Release(s, w, Stopped)
      else Enter(s, w, Publishing(dump, 1)).(dir := s.dir.(temps := s.dir.temps + {dump.name}))
    case 1 =>
      if dump.name in s.dir.dumps then Release(s, w, Stopped).(dir := CleanedUp(s.dir, dump, 1))
      else Enter(s, w, Publishing(dump, 2)).(dir := WithDump(s.dir, dump))
    case 2 =>
      Enter(s, w, Publishing(dump, 3)).(dir := CleanedUp(s.dir, dump, 2))
    case 3 =>
      if dump.name + SUFFIX in s.dir.temps then Release(s, w, Stopped)
      else Enter(s, w, Publishing(dump, 4)).(dir := s.dir.(temps := s.dir.temps + {dump.name + SUFFIX}))
    case 4 =>
      if dump.name in s.dir.sidecars then Release(s, w, Stopped).(dir := CleanedUp(s.dir, dump, 4))
      else Enter(s, w, Publishing(dump, 5)).(dir := WithSidecar(f, s.dir, dump))
    case 5 =>
      Enter(s, w, Publishing(dump, 6)).(dir := CleanedUp(s.dir, dump, 5), log := s.log + [Entry(w, dump)])
    case _ => Release(s, w, Done(dump))
  }

  /** An action that is not possible changes nothing. */
  ghost function Step(f: Format, s: State, a: Action): State
    requires f.Valid()
  {
    var p := PhaseOf(s, a.w);
    match a
    case Build(w, dump) =>
      if p.Idle? && f.parse(dump.body).Parsed? then Enter(s, w, Built(dump)) else s
    case Lock(w) =>
      if p.Built? && s.lock == None then Enter(s, w, Holding(p.dump)).(lock := Some(w)) else s
    case Check(w, free, l) =>
      if !p.Holding? || !Lists(l, s.dir.dumps) then s
      else if free && Sound(f, s.dir) && Accepts(f, s.dir, p.dump, l) then Enter(s, w, Publishing(p.dump, 0))
      else Release(s, w, Stopped)
    case Publish(w) =>
      if p.Publishing? then PublishNext(f, s, w, p.dump, p.at) else s
    case Raise(w) =>
      if p.Publishing? then Release(s, w, Stopped).(dir := CleanedUp(s.dir, p.dump, p.at))
      else if p.Holding? || p.Built? then Release(s, w, Stopped)
      else s
    case Kill(w) =>
      if p.Done? then s else Release(s, w, Stopped)
  }

  ghost function Run(f: Format, s: State, actions: seq<Action>): State
    requires f.Valid()
    decreases |actions|
  {
    if actions == [] then s else Run(f, Step(f, s, actions[0]), actions[1..])
  }

  function Start(dir: Directory): State {
    State(dir, map[], None, [])
  }

  // ----- The invariant

  predicate Inside(p: Phase) {
    p.Holding? || p.Publishing?
  }

  /** Only the holder of the lock is past the lock. */
  predicate Exclusive(s: State) {
    forall w :: w in s.phases && Inside(s.phases[w]) ==> s.lock == Some(w)
  }

  /** What a publication has done so far to a directory it was accepted for. */
  predicate Partly(f: Format, base: Directory, d: Directory, dump: Dump, at: nat) {
    && at <= 6
    && (at >= 2 ==> dump.name !in base.dumps)
    && d.dumps == (if at >= 2 then WithDump(base, dump).dumps else base.dumps)
    && d.sidecars == (if at >= 5 then WithSidecar(f, base, dump).sidecars else base.sidecars)
    && d.temps == (if at in {1, 2} then {dump.name} else if at in {4, 5} then {dump.name + SUFFIX} else {})
  }

  /** Every logged dump that names a predecessor is recorded with it. */
  ghost predicate Logged(f: Format, log: seq<Entry>, d: Directory)
    requires f.Valid()
  {
    forall e :: e in log && f.Previous(e.dump.body).Some? ==>
      f.sha(e.dump.body) in RecordsOf(f, d.dumps) && RecordsOf(f, d.dumps)[f.sha(e.dump.body)] == f.Previous(e.dump.body)
  }

  ghost predicate UnfinishedOn(f: Format, base: Directory, s: State, w: Writer, dump: Dump, at: nat)
    requires f.Valid()
  {
    && Sound(f, base) && Fits(f, base, dump) && Partly(f, base, s.dir, dump, at) && dump.body in f.bodies
    && if at < 6 then Logged(f, s.log, base) else Logged(f, s.log, s.dir) && Entry(w, dump) in s.log
  }

  ghost predicate Unfinished(f: Format, s: State, w: Writer, dump: Dump, at: nat)
    requires f.Valid()
  {
    exists base :: UnfinishedOn(f, base, s, w, dump, at)
  }

  /** No two dumps were appended to the same predecessor. */
  predicate NoTwoShare(f: Format, log: seq<Entry>) {
    forall i, j :: 0 <= i < j < |log| && f.Previous(log[i].dump.body).Some? ==>
      f.Previous(log[i].dump.body) != f.Previous(log[j].dump.body)
  }

  predicate Quiet(s: State) {
    forall w :: w in s.phases ==> !s.phases[w].Publishing?
  }

  /** Everything that a state holds is taken into account. */
  predicate Known(f: Format, s: State) {
    Within(f, s.dir.dumps) && forall w :: w in s.phases ==> KnownPhase(f, s.phases[w])
  }

  predicate KnownPhase(f: Format, p: Phase) {
    !p.Idle? && !p.Stopped? ==> p.dump.body in f.bodies
  }

  predicate KnownAction(f: Format, a: Action) {
    a.Build? ==> a.dump.body in f.bodies
  }

  ghost predicate Inv(f: Format, s: State)
    requires f.Valid()
  {
    && Known(f, s)
    && Exclusive(s)
    && NoTwoShare(f, s.log)
    && Linear(RecordsOf(f, s.dir.dumps))
    && (forall w :: w in s.phases && s.phases[w].Done? ==> Entry(w, s.phases[w].dump) in s.log)
    && (forall w :: w in s.phases && s.phases[w].Publishing? ==> Unfinished(f, s, w, s.phases[w].dump, s.phases[w].at))
    && (Quiet(s) && Sound(f, s.dir) ==> Logged(f, s.log, s.dir))
  }

  // ----- Every step keeps it

  lemma StartHolds(f: Format, dir: Directory)
    requires f.Valid() && Within(f, dir.dumps) && Linear(RecordsOf(f, dir.dumps))
    ensures Inv(f, Start(dir))
  {
  }

  /** An exception leaves the directory it found, or the linked dump without its digest, or both. */
  lemma Raised(f: Format, base: Directory, d: Directory, dump: Dump, at: nat)
    requires base.temps == {} && Partly(f, base, d, dump, at)
    ensures CleanedUp(d, dump, at) == if at <= 1 then base else if at <= 4 then WithDump(base, dump) else Appended(f, base, dump)
  {
    assert CleanedUp(d, dump, at).temps == {};
  }

  /** What is left behind by an exception is sound before the first link and after the last one. */
  lemma RaisedSound(f: Format, base: Directory, d: Directory, dump: Dump, at: nat)
    requires f.Valid() && Sound(f, base) && Fits(f, base, dump) && Partly(f, base, d, dump, at) && dump.body in f.bodies
    ensures Sound(f, CleanedUp(d, dump, at)) <==> at in {0, 1, 5, 6}
  {
    hide Linear, Fits, CleanedUp, DumpOk;
    Raised(f, base, d, dump, at);
    if at >= 5 {
      AppendKeepsSound(f, base, dump);
    } else if at >= 2 {
      assert dump.name in WithDump(base, dump).dumps && dump.name !in base.sidecars;
    }
  }

  /** What is left behind by a killed writer is sound only if it had made no file or all of them. */
  lemma KilledSound(f: Format, base: Directory, d: Directory, dump: Dump, at: nat)
    requires f.Valid() && Sound(f, base) && Fits(f, base, dump) && Partly(f, base, d, dump, at) && dump.body in f.bodies
    ensures Sound(f, d) <==> at in {0, 6}
  {
    hide Linear, Fits, DumpOk;
    Raised(f, base, d, dump, at);
    RaisedSound(f, base, d, dump, at);
    if at in {1, 2} {
      assert dump.name in d.temps;
    } else if at in {4, 5} {
      assert dump.name + SUFFIX in d.temps;
    }
  }

  /** Logged dumps stay recorded when a dump is added. */
  lemma StillLogged(f: Format, base: Directory, log: seq<Entry>, dump: Dump)
    requires f.Valid() && Logged(f, log, base) && dump.name !in base.dumps && dump.body in f.bodies
    ensures Logged(f, log, Appended(f, base, dump))
  {
    hide RecordsOf, Format.Previous;
    var after := Appended(f, base, dump);
    forall e | e in log && f.Previous(e.dump.body).Some?
      ensures f.sha(e.dump.body) in RecordsOf(f, after.dumps)
      ensures RecordsOf(f, after.dumps)[f.sha(e.dump.body)] == f.Previous(e.dump.body)
    {
      var n := RecordOf(f, base.dumps, f.sha(e.dump.body));
      RecordFor(f, after.dumps, n);
    }
  }

  /** A writer that leaves a publication, in whatever way, leaves a state that keeps the invariant. */
  lemma LeavingKeeps(f: Format, s: State, w: Writer, dir: Directory)
    requires f.Valid() && Inv(f, s) && w in s.phases && s.phases[w].Publishing?
    requires dir == s.dir || dir == CleanedUp(s.dir, s.phases[w].dump, s.phases[w].at)
    ensures Inv(f, Release(s, w, Stopped).(dir := dir))
  {
    hide Linear, Fits, Sound, Logged, Format.Previous, RecordsOf;
    var t := Release(s, w, Stopped).(dir := dir);
    var dump, at := s.phases[w].dump, s.phases[w].at;
    assert Unfinished(f, s, w, dump, at);
    var base :| UnfinishedOn(f, base, s, w, dump, at);
    assert Quiet(t);
    assert base.temps == {} by { SoundIsTidy(f, base); }
    Raised(f, base, s.dir, dump, at);
    RaisedSound(f, base, s.dir, dump, at);
    KilledSound(f, base, s.dir, dump, at);
    if at == 5 {
      StillLogged(f, base, s.log, dump);
    }
    if at == 0 || at == 1 {
      SameDumps(f, s.log, base, dir);
    } else if at >= 5 {
      if at == 6 { SameDumps(f, s.log, s.dir, dir); }
    }
  }

  lemma SoundIsTidy(f: Format, d: Directory)
    requires f.Valid() && Sound(f, d)
    ensures d.temps == {} && Linear(RecordsOf(f, d.dumps))
  {
  }

  lemma SameDumps(f: Format, log: seq<Entry>, d: Directory, e: Directory)
    requires f.Valid() && Logged(f, log, d) && d.dumps == e.dumps
    ensures Logged(f, log, e)
  {
  }

  lemma OnlyOnePublishes(s: State, w: Writer, v: Writer)
    requires Exclusive(s) && w in s.phases && Inside(s.phases[w]) && v in s.phases && Inside(s.phases[v])
    ensures v == w
  {
  }

  /** One more step of a publication that goes on. */
  lemma NextPart(f: Format, base: Directory, s: State, w: Writer, dump: Dump, at: nat)
    requires f.Valid() && at <= 4 && UnfinishedOn(f, base, s, w, dump, at)
    requires PhaseOf(PublishNext(f, s, w, dump, at), w) == Publishing(dump, at + 1)
    ensures UnfinishedOn(f, base, PublishNext(f, s, w, dump, at), w, dump, at + 1)
    ensures Linear(RecordsOf(f, PublishNext(f, s, w, dump, at).dir.dumps))
  {
    hide Linear, Fits, Sound, Logged, RecordsOf;
    SoundIsTidy(f, base);
    var t := PublishNext(f, s, w, dump, at);
    assert dump.name != dump.name + SUFFIX;
    assert Partly(f, base, t.dir, dump, at + 1);
    if at >= 1 {
      AppendKeepsSound(f, base, dump);
      SoundIsTidy(f, Appended(f, base, dump));
      assert t.dir.dumps == Appended(f, base, dump).dumps;
    }
  }

  /** A dump that is accepted names a predecessor that no logged dump names. */
  lemma LoggedDiffer(f: Format, base: Directory, log: seq<Entry>, dump: Dump, i: nat)
    requires f.Valid() && Fits(f, base, dump) && Logged(f, log, base) && i < |log|
    ensures f.Previous(log[i].dump.body).Some? ==> f.Previous(log[i].dump.body) != f.Previous(dump.body)
  {
    hide Expected, RecordsOf;
    var e := log[i];
    if f.Previous(e.dump.body).Some? && f.Previous(e.dump.body) == f.Previous(dump.body) {
      ExpectedIsFree(RecordsOf(f, base.dumps), f.Previous(dump.body).value, f.sha(e.dump.body));
    }
  }

  /** The last link: the dump is logged, and no earlier one named its predecessor. */
  lemma Commit(f: Format, base: Directory, s: State, w: Writer, dump: Dump)
    requires f.Valid() && UnfinishedOn(f, base, s, w, dump, 5) && NoTwoShare(f, s.log)
    ensures UnfinishedOn(f, base, PublishNext(f, s, w, dump, 5), w, dump, 6)
    ensures NoTwoShare(f, PublishNext(f, s, w, dump, 5).log)
  {
    hide Linear, Fits, Sound, Logged, RecordsOf, Format.Previous;
    SoundIsTidy(f, base);
    Raised(f, base, s.dir, dump, 5);
    var t := PublishNext(f, s, w, dump, 5);
    forall i | 0 <= i < |s.log| ensures f.Previous(s.log[i].dump.body).Some? ==> f.Previous(s.log[i].dump.body) != f.Previous(dump.body) {
      LoggedDiffer(f, base, s.log, dump, i);
    }
    StillLogged(f, base, s.log, dump);
    LogOneMore(f, t.dir, s.log, Entry(w, dump));
  }

  lemma LogOneMore(f: Format, d: Directory, log: seq<Entry>, e: Entry)
    requires f.Valid() && Logged(f, log, d) && e.dump.name in d.dumps
    requires d.dumps[e.dump.name] == e.dump.body && e.dump.body in f.bodies
    ensures Logged(f, log + [e], d)
  {
    hide RecordsOf;
    RecordFor(f, d.dumps, e.dump.name);
  }

  lemma PublishKeeps(f: Format, s: State, w: Writer)
    requires f.Valid() && Inv(f, s) && w in s.phases && s.phases[w].Publishing?
    ensures Inv(f, Step(f, s, Publish(w)))
  {
    hide Linear, Fits, Sound, Logged, RecordsOf, Partly, PublishNext, NoTwoShare;
    var dump, at := s.phases[w].dump, s.phases[w].at;
    assert Unfinished(f, s, w, dump, at);
    var base :| UnfinishedOn(f, base, s, w, dump, at);
    assert at <= 6 by { AtMostSix(f, base, s.dir, dump, at); }
    PublishShape(f, s, w, dump, at);
    var t := PublishNext(f, s, w, dump, at);
    forall v | v in s.phases && s.phases[v].Publishing? ensures v == w {
      OnlyOnePublishes(s, w, v);
    }
    if t == Release(s, w, Stopped).(dir := s.dir) || t == Release(s, w, Stopped).(dir := CleanedUp(s.dir, dump, at)) {
      LeavingKeeps(f, s, w, t.dir);
    } else if at <= 4 {
      NextPart(f, base, s, w, dump, at);
    } else if at == 5 {
      Commit(f, base, s, w, dump);
    } else {
      assert at == 6;
    }
  }

  /** A publication step either leaves, or goes on, or commits, or is done. */
  lemma PublishShape(f: Format, s: State, w: Writer, dump: Dump, at: nat)
    requires at <= 6
    ensures var t := PublishNext(f, s, w, dump, at);
            || t == Release(s, w, Stopped).(dir := s.dir)
            || t == Release(s, w, Stopped).(dir := CleanedUp(s.dir, dump, at))
            || (at <= 4 && t == Enter(s, w, Publishing(dump, at + 1)).(dir := t.dir))
            || (at == 5 && t == Enter(s, w, Publishing(dump, 6)).(dir := CleanedUp(s.dir, dump, 5), log := s.log + [Entry(w, dump)]))
            || (at == 6 && t == Release(s, w, Done(dump)))
    ensures PublishNext(f, s, w, dump, at).dir.dumps ==
              if at == 1 && dump.name !in s.dir.dumps then s.dir.dumps[dump.name := dump.body] else s.dir.dumps
  {
  }

  lemma AtMostSix(f: Format, base: Directory, d: Directory, dump: Dump, at: nat)
    requires Partly(f, base, d, dump, at)
    ensures at <= 6
  {
  }

  lemma CheckKeeps(f: Format, s: State, w: Writer, free: bool, l: Listing)
    requires f.Valid() && Inv(f, s)
    ensures Inv(f, Step(f, s, Check(w, free, l)))
  {
    hide Linear, Fits, Accepts, Lists, Sound, Logged, RecordsOf, NoTwoShare;
    var p, t := PhaseOf(s, w), Step(f, s, Check(w, free, l));
    if p.Holding? && Lists(l, s.dir.dumps) {
      forall v | v in s.phases && Inside(s.phases[v]) ensures v == w {
        OnlyOnePublishes(s, w, v);
      }
      assert Quiet(s);
      if free && Sound(f, s.dir) && Accepts(f, s.dir, p.dump, l) {
        AcceptedFits(f, s.dir, p.dump, l);
        SoundIsTidy(f, s.dir);
        assert UnfinishedOn(f, s.dir, t, w, p.dump, 0);
      }
    }
  }

  /** A step of a writer outside of publication that touches neither the directory nor the log. */
  lemma AsideKeeps(f: Format, s: State, t: State, w: Writer)
    requires f.Valid() && Inv(f, s) && t.dir == s.dir && t.log == s.log
    requires !PhaseOf(s, w).Publishing? && t.phases == s.phases[w := PhaseOf(t, w)]
    requires !PhaseOf(t, w).Publishing? && !PhaseOf(t, w).Done? && Exclusive(t) && KnownPhase(f, PhaseOf(t, w))
    ensures Inv(f, t)
  {
    hide Linear, Fits, Sound, Logged, RecordsOf, NoTwoShare, Partly;
    forall v | v in t.phases && t.phases[v].Publishing? ensures Unfinished(f, t, v, t.phases[v].dump, t.phases[v].at) {
      var dump, at := s.phases[v].dump, s.phases[v].at;
      assert Unfinished(f, s, v, dump, at);
      var base :| UnfinishedOn(f, base, s, v, dump, at);
      assert UnfinishedOn(f, base, t, v, dump, at);
    }
    if Quiet(t) {
      assert Quiet(s) by {
        forall v | v in s.phases ensures !s.phases[v].Publishing? { assert v in t.phases; }
      }
    }
  }

  lemma StepKeeps(f: Format, s: State, a: Action)
    requires f.Valid() && Inv(f, s) && KnownAction(f, a)
    ensures Inv(f, Step(f, s, a))
  {
    hide Linear, Fits, Accepts, Lists, Sound, Logged, RecordsOf, NoTwoShare, Partly, PublishNext, Unfinished;
    var p, t := PhaseOf(s, a.w), Step(f, s, a);
    if p.Publishing? {
      match a
      case Publish(w) => PublishKeeps(f, s, w);
      case Raise(w) => LeavingKeeps(f, s, w, t.dir);
      case Kill(w) => LeavingKeeps(f, s, w, t.dir);
      case _ =>
    } else if a.Check? {
      CheckKeeps(f, s, a.w, a.free, a.l);
    } else if t != s {
      AsideKeeps(f, s, t, a.w);
    }
  }

  // ----- Whole runs

  predicate KnownActions(f: Format, actions: seq<Action>) {
    forall i :: 0 <= i < |actions| ==> KnownAction(f, actions[i])
  }

  lemma {:induction false} RunKeeps(f: Format, s: State, actions: seq<Action>)
    requires f.Valid() && Inv(f, s) && KnownActions(f, actions)
    ensures Inv(f, Run(f, s, actions))
    decreases |actions|
  {
    hide Inv, Step;
    if actions != [] {
      StepKeeps(f, s, actions[0]);
      RunKeeps(f, Step(f, s, actions[0]), actions[1..]);
    }
  }

  /** No dump is ever changed or removed, and the list only grows at its new end. */
  ghost predicate Grows(f: Format, d: Directory, e: Directory)
    requires f.Valid()
  {
    && (forall n :: n in d.dumps ==> n in e.dumps && e.dumps[n] == d.dumps[n])
    && Extends(RecordsOf(f, d.dumps), RecordsOf(f, e.dumps))
  }

  lemma StepGrows(f: Format, s: State, a: Action)
    requires f.Valid() && Inv(f, s)
    ensures Grows(f, s.dir, Step(f, s, a).dir)
  {
    hide Linear, Fits, Accepts, Lists, Sound, Logged, RecordsOf, NoTwoShare, PublishNext, Unfinished, Extends;
    var p := PhaseOf(s, a.w);
    SameExtends(RecordsOf(f, s.dir.dumps), RecordsOf(f, s.dir.dumps));
    if a.Publish? && p.Publishing? {
      var dump, at := p.dump, p.at;
      assert Unfinished(f, s, a.w, dump, at);
      UnfinishedGrows(f, s, a.w, dump, at);
    }
  }

  lemma UnfinishedGrows(f: Format, s: State, w: Writer, dump: Dump, at: nat)
    requires f.Valid() && Unfinished(f, s, w, dump, at)
    ensures Grows(f, s.dir, PublishNext(f, s, w, dump, at).dir)
  {
    hide Linear, Fits, Sound, Logged, RecordsOf, PublishNext, Extends;
    var base :| UnfinishedOn(f, base, s, w, dump, at);
    PublishShape(f, s, w, dump, at);
    SameExtends(RecordsOf(f, s.dir.dumps), RecordsOf(f, s.dir.dumps));
    if at == 1 && dump.name !in s.dir.dumps {
      AppendKeepsSound(f, base, dump);
    }
  }

  /** Over every interleaving, with writers failing or being killed at every step, the dumps in the
      directory stay one list, which extends the list there was at the start. */
  lemma {:induction false} RunGrows(f: Format, s: State, actions: seq<Action>)
    requires f.Valid() && Inv(f, s) && KnownActions(f, actions)
    ensures Grows(f, s.dir, Run(f, s, actions).dir)
    ensures Linear(RecordsOf(f, Run(f, s, actions).dir.dumps))
    decreases |actions|
  {
    hide Step, Extends, RecordsOf, Linear, Logged, NoTwoShare, Unfinished, Sound;
    if actions == [] {
      SameExtends(RecordsOf(f, s.dir.dumps), RecordsOf(f, s.dir.dumps));
    } else {
      var next := Step(f, s, actions[0]);
      StepKeeps(f, s, actions[0]);
      StepGrows(f, s, actions[0]);
      RunGrows(f, next, actions[1..]);
      ExtendsTransitive(RecordsOf(f, s.dir.dumps), RecordsOf(f, next.dir.dumps), RecordsOf(f, Run(f, next, actions[1..]).dir.dumps));
    }
  }

  /** Of the writers that hold the same predecessor at most one is done. */
  lemma AtMostOneWins(f: Format, dir: Directory, actions: seq<Action>, v: Writer, w: Writer)
    requires f.Valid() && Within(f, dir.dumps) && KnownActions(f, actions) && Linear(RecordsOf(f, dir.dumps))
    requires PhaseOf(Run(f, Start(dir), actions), v).Done? && PhaseOf(Run(f, Start(dir), actions), w).Done?
    requires f.Previous(PhaseOf(Run(f, Start(dir), actions), v).dump.body).Some?
    requires f.Previous(PhaseOf(Run(f, Start(dir), actions), v).dump.body)
          == f.Previous(PhaseOf(Run(f, Start(dir), actions), w).dump.body)
    ensures v == w
  {
    hide Run, Format.Previous, Linear, Logged, Unfinished, Sound;
    var s := Run(f, Start(dir), actions);
    StartHolds(f, dir);
    RunKeeps(f, Start(dir), actions);
    assert v in s.phases && w in s.phases;
    var i :| 0 <= i < |s.log| && s.log[i] == Entry(v, s.phases[v].dump);
    var j :| 0 <= j < |s.log| && s.log[j] == Entry(w, s.phases[w].dump);
    if i < j {
      assert f.Previous(s.log[i].dump.body) == f.Previous(s.log[j].dump.body);
    } else if j < i {
      assert f.Previous(s.log[j].dump.body) == f.Previous(s.log[i].dump.body);
    }
  }

  /** Once no publication is in progress and the directory is not sound, nothing is written again and
      no further writer succeeds. */
  lemma {:induction false} RefusedForever(f: Format, s: State, actions: seq<Action>)
    requires f.Valid() && Within(f, s.dir.dumps) && Quiet(s) && !Sound(f, s.dir)
    ensures Run(f, s, actions).dir == s.dir && Run(f, s, actions).log == s.log && Quiet(Run(f, s, actions))
    ensures forall w :: PhaseOf(Run(f, s, actions), w).Done? ==> PhaseOf(s, w).Done?
    decreases |actions|
  {
    hide Sound, Accepts, Lists;
    if actions != [] {
      RefusedForever(f, Step(f, s, actions[0]), actions[1..]);
    }
  }

  /** A writer that is killed, or meets an error, in the middle of a publication leaves a directory
      that is accepted only if it had written nothing that is still there, or everything. */
  lemma LeftBehind(f: Format, s: State, w: Writer)
    requires f.Valid() && Inv(f, s) && PhaseOf(s, w).Publishing?
    ensures Sound(f, Step(f, s, Kill(w)).dir) <==> PhaseOf(s, w).at in {0, 6}
    ensures Sound(f, Step(f, s, Raise(w)).dir) <==> PhaseOf(s, w).at in {0, 1, 5, 6}
    ensures Quiet(Step(f, s, Kill(w))) && Quiet(Step(f, s, Raise(w)))
  {
    hide Linear, Fits, Sound, Logged, RecordsOf, NoTwoShare, Partly;
    var dump, at := s.phases[w].dump, s.phases[w].at;
    assert Unfinished(f, s, w, dump, at);
    var base :| UnfinishedOn(f, base, s, w, dump, at);
    KilledSound(f, base, s.dir, dump, at);
    RaisedSound(f, base, s.dir, dump, at);
    forall v | v in s.phases && s.phases[v].Publishing? ensures v == w {
      OnlyOnePublishes(s, w, v);
    }
  }

  // ----- Writers do succeed

  lemma {:induction false} RunConcat(f: Format, s: State, a: seq<Action>, b: seq<Action>)
    requires f.Valid()
    ensures Run(f, s, a + b) == Run(f, Run(f, s, a), b)
    decreases |a|
  {
    hide Step;
    if a == [] {
      assert a + b == b;
    } else {
      assert (a + b)[0] == a[0] && (a + b)[1..] == a[1..] + b;
      RunConcat(f, Step(f, s, a[0]), a[1..], b);
    }
  }

  /** A dump that was built goes through the lock, the check and the seven steps of publication. */
  function Script(w: Writer, l: Listing): seq<Action> {
    [Lock(w), Check(w, true, l)] + Steps(w, 7)
  }

  function Steps(w: Writer, n: nat): (a: seq<Action>)
    ensures |a| == n
  {
    seq(n, _ => Publish(w))
  }

  /** Where `n` undisturbed steps of a publication lead. */
  function Published(f: Format, s: State, w: Writer, dump: Dump, n: nat): State
    requires n <= 6
  {
    Enter(s, w, Publishing(dump, n)).(
      dir := Directory(if n >= 2 then s.dir.dumps[dump.name := dump.body] else s.dir.dumps,
                       if n >= 5 then s.dir.sidecars[dump.name := [f.sha(dump.body), dump.name]] else s.dir.sidecars,
                       if n in {1, 2} then {dump.name} else if n in {4, 5} then {dump.name + SUFFIX} else {}),
      log := if n == 6 then s.log + [Entry(w, dump)] else s.log)
  }

  lemma {:induction false} PublishedSteps(f: Format, s: State, w: Writer, dump: Dump, n: nat)
    requires f.Valid() && n <= 6 && w in s.phases && s.phases[w] == Publishing(dump, 0) && s.dir.temps == {}
    requires dump.name !in s.dir.dumps && dump.name !in s.dir.sidecars
    ensures Run(f, s, Steps(w, n)) == Published(f, s, w, dump, n)
  {
    hide Sound, Accepts, Lists;
    if n > 0 {
      PublishedSteps(f, s, w, dump, n - 1);
      assert Steps(w, n) == Steps(w, n - 1) + [Publish(w)];
      RunConcat(f, s, Steps(w, n - 1), [Publish(w)]);
      var t := Published(f, s, w, dump, n - 1);
      RunOne(f, t, Publish(w));
      NextPublished(f, s, w, dump, n - 1);
    } else {
      assert s.phases[w := Publishing(dump, 0)] == s.phases;
    }
  }

  lemma RunOne(f: Format, s: State, a: Action)
    requires f.Valid()
    ensures Run(f, s, [a]) == Step(f, s, a)
  {
    hide Step;
    assert [a][1..] == [];
  }

  lemma NextPublished(f: Format, s: State, w: Writer, dump: Dump, n: nat)
    requires n <= 5 && s.dir.temps == {} && dump.name !in s.dir.dumps && dump.name !in s.dir.sidecars
    ensures PublishNext(f, Published(f, s, w, dump, n), w, dump, n) == Published(f, s, w, dump, n + 1)
  {
    hide Published, PublishNext;
    if n == 0 || n == 3 {
      NextTemporary(f, s, w, dump, n);
    } else if n == 1 || n == 4 {
      NextLink(f, s, w, dump, n);
    } else {
      NextRemoval(f, s, w, dump, n);
    }
  }

  lemma NextTemporary(f: Format, s: State, w: Writer, dump: Dump, n: nat)
    requires (n == 0 || n == 3) && s.dir.temps == {} && dump.name !in s.dir.dumps && dump.name !in s.dir.sidecars
    ensures PublishNext(f, Published(f, s, w, dump, n), w, dump, n) == Published(f, s, w, dump, n + 1)
  {
    hide Published;
    PublishedParts(f, s, w, dump, n);
    PublishedParts(f, s, w, dump, n + 1);
    var next := PublishNext(f, Published(f, s, w, dump, n), w, dump, n);
    assert dump.name != dump.name + SUFFIX;
    assert next.phases == s.phases[w := Publishing(dump, n + 1)];
    assert next.dir.temps == Published(f, s, w, dump, n + 1).dir.temps;
  }

  lemma NextLink(f: Format, s: State, w: Writer, dump: Dump, n: nat)
    requires (n == 1 || n == 4) && s.dir.temps == {} && dump.name !in s.dir.dumps && dump.name !in s.dir.sidecars
    ensures PublishNext(f, Published(f, s, w, dump, n), w, dump, n) == Published(f, s, w, dump, n + 1)
  {
    hide Published;
    PublishedParts(f, s, w, dump, n);
    PublishedParts(f, s, w, dump, n + 1);
    var next := PublishNext(f, Published(f, s, w, dump, n), w, dump, n);
    assert dump.name != dump.name + SUFFIX;
    assert next.phases == s.phases[w := Publishing(dump, n + 1)];
    assert next.dir.temps == Published(f, s, w, dump, n + 1).dir.temps;
  }

  lemma NextRemoval(f: Format, s: State, w: Writer, dump: Dump, n: nat)
    requires (n == 2 || n == 5) && s.dir.temps == {} && dump.name !in s.dir.dumps && dump.name !in s.dir.sidecars
    ensures PublishNext(f, Published(f, s, w, dump, n), w, dump, n) == Published(f, s, w, dump, n + 1)
  {
    hide Published;
    PublishedParts(f, s, w, dump, n);
    PublishedParts(f, s, w, dump, n + 1);
    var next := PublishNext(f, Published(f, s, w, dump, n), w, dump, n);
    assert dump.name != dump.name + SUFFIX;
    assert next.phases == s.phases[w := Publishing(dump, n + 1)];
    assert next.dir.temps == Published(f, s, w, dump, n + 1).dir.temps;
  }

  lemma PublishedParts(f: Format, s: State, w: Writer, dump: Dump, n: nat)
    requires n <= 6
    ensures var t := Published(f, s, w, dump, n);
            && t.phases == s.phases[w := Publishing(dump, n)] && t.lock == s.lock
            && t.dir.dumps == (if n >= 2 then s.dir.dumps[dump.name := dump.body] else s.dir.dumps)
            && t.dir.sidecars == (if n >= 5 then s.dir.sidecars[dump.name := [f.sha(dump.body), dump.name]] else s.dir.sidecars)
            && t.dir.temps == (if n in {1, 2} then {dump.name} else if n in {4, 5} then {dump.name + SUFFIX} else {})
            && t.log == if n == 6 then s.log + [Entry(w, dump)] else s.log
  {
  }

  lemma LockAndCheck(f: Format, s: State, w: Writer, dump: Dump, l: Listing)
    requires f.Valid() && s.lock == None && w in s.phases && s.phases[w] == Built(dump) && Lists(l, s.dir.dumps)
    ensures var t := if Sound(f, s.dir) && Accepts(f, s.dir, dump, l)
              then Enter(s, w, Publishing(dump, 0)).(lock := Some(w)) else Enter(s, w, Stopped);
            Run(f, s, [Lock(w), Check(w, true, l)]) == t && Run(f, s, Script(w, l)) == Run(f, t, Steps(w, 7))
  {
    hide Sound, Accepts, Lists;
    var s1 := Step(f, s, Lock(w));
    var s2 := Step(f, s1, Check(w, true, l));
    RunConcat(f, s, [Lock(w), Check(w, true, l)], Steps(w, 7));
    assert [Lock(w), Check(w, true, l)] == [Lock(w)] + [Check(w, true, l)];
    RunConcat(f, s, [Lock(w)], [Check(w, true, l)]);
    RunOne(f, s, Lock(w));
    RunOne(f, s1, Check(w, true, l));
    assert s.phases[w := Holding(dump)][w := Stopped] == s.phases[w := Stopped];
    assert s.phases[w := Holding(dump)][w := Publishing(dump, 0)] == s.phases[w := Publishing(dump, 0)];
  }

  /** A writer that finds the lock free and its dump accepted is done after its script, whatever the
      other writers hold, and the directory has exactly that dump more. */
  lemma WriterSucceeds(f: Format, s: State, w: Writer, dump: Dump, l: Listing)
    requires f.Valid() && s.lock == None && w in s.phases && s.phases[w] == Built(dump) && Lists(l, s.dir.dumps)
    requires Sound(f, s.dir) && Accepts(f, s.dir, dump, l) && dump.name !in s.dir.dumps
    ensures var t := Run(f, s, Script(w, l));
            PhaseOf(t, w) == Done(dump) && t.dir == Appended(f, s.dir, dump) && t.lock == None
            && forall v :: v != w ==> PhaseOf(t, v) == PhaseOf(s, v)
  {
    hide Linear, Accepts, Published, RecordsOf, Lists;
    LockAndCheck(f, s, w, dump, l);
    var s2 := Enter(s, w, Publishing(dump, 0)).(lock := Some(w));
    SoundIsTidy(f, s.dir);
    PublishedSteps(f, s2, w, dump, 6);
    assert Steps(w, 7) == Steps(w, 6) + [Publish(w)];
    RunConcat(f, s2, Steps(w, 6), [Publish(w)]);
    RunOne(f, Published(f, s2, w, dump, 6), Publish(w));
    LastStep(f, s2, w, dump);
  }

  lemma {:induction false} StoppedStays(f: Format, s: State, w: Writer, n: nat)
    requires f.Valid() && PhaseOf(s, w).Stopped?
    ensures Run(f, s, Steps(w, n)) == s
    decreases n
  {
    hide Sound, Accepts, Lists;
    if n > 0 {
      assert Steps(w, n)[0] == Publish(w) && Steps(w, n)[1..] == Steps(w, n - 1);
      StoppedStays(f, s, w, n - 1);
    }
  }

  /** In every other case it is stopped, and the directory is as it was. */
  lemma WriterRefused(f: Format, s: State, w: Writer, dump: Dump, l: Listing)
    requires f.Valid() && s.lock == None && w in s.phases && s.phases[w] == Built(dump) && Lists(l, s.dir.dumps)
    requires !(Sound(f, s.dir) && Accepts(f, s.dir, dump, l) && dump.name !in s.dir.dumps)
    ensures var t := Run(f, s, Script(w, l));
            PhaseOf(t, w) == Stopped && t.dir == s.dir && t.lock == None
            && forall v :: v != w ==> PhaseOf(t, v) == PhaseOf(s, v)
  {
    hide Linear, Accepts, RecordsOf, Lists, Sound;
    LockAndCheck(f, s, w, dump, l);
    if Sound(f, s.dir) && Accepts(f, s.dir, dump, l) {
      SoundIsTidy(f, s.dir);
      var s2 := Enter(s, w, Publishing(dump, 0)).(lock := Some(w));
      var s3 := Step(f, s2, Publish(w));
      var s4 := Step(f, s3, Publish(w));
      assert Steps(w, 7) == [Publish(w)] + ([Publish(w)] + Steps(w, 5));
      RunConcat(f, s2, [Publish(w)], [Publish(w)] + Steps(w, 5));
      RunConcat(f, s3, [Publish(w)], Steps(w, 5));
      RunOne(f, s2, Publish(w));
      RunOne(f, s3, Publish(w));
      assert s4.dir.temps == {};
      StoppedStays(f, s4, w, 5);
    } else {
      StoppedStays(f, Enter(s, w, Stopped), w, 7);
    }
  }

  lemma LastStep(f: Format, s: State, w: Writer, dump: Dump)
    requires f.Valid() && s.lock == Some(w) && s.dir.temps == {}
    ensures var t := Step(f, Published(f, s, w, dump, 6), Publish(w));
            PhaseOf(t, w) == Done(dump) && t.dir == Appended(f, s.dir, dump) && t.lock == None
            && forall v :: v != w ==> PhaseOf(t, v) == PhaseOf(s, v)
  {
    hide Sound, Accepts, Lists;
  }

  /** A writer that would succeed is killed after `n` steps of its publication: the directory is still
      accepted exactly when it had made nothing or everything. */
  lemma WriterKilled(f: Format, s: State, w: Writer, dump: Dump, l: Listing, n: nat)
    requires f.Valid() && s.lock == None && w in s.phases && s.phases[w] == Built(dump) && Lists(l, s.dir.dumps)
    requires Sound(f, s.dir) && Accepts(f, s.dir, dump, l) && dump.name !in s.dir.dumps && dump.body in f.bodies && n <= 6
    ensures var t := Run(f, s, [Lock(w), Check(w, true, l)] + Steps(w, n) + [Kill(w)]);
            && (Sound(f, t.dir) <==> n in {0, 6})
            && forall v :: PhaseOf(t, v) == if v == w then Stopped else PhaseOf(s, v)
  {
    hide Linear, Accepts, RecordsOf, Lists, Sound, DumpOk, Intact;
    LockAndCheck(f, s, w, dump, l);
    var s2 := Enter(s, w, Publishing(dump, 0)).(lock := Some(w));
    SoundIsTidy(f, s.dir);
    SoundMatches(f, s.dir);
    PublishedSteps(f, s2, w, dump, n);
    var s3 := Published(f, s2, w, dump, n);
    RunConcat(f, s, [Lock(w), Check(w, true, l)], Steps(w, n));
    RunConcat(f, s, [Lock(w), Check(w, true, l)] + Steps(w, n), [Kill(w)]);
    RunOne(f, s3, Kill(w));
    AcceptedFits(f, s.dir, dump, l);
    PublishedPartly(f, s2, w, dump, n);
    KilledSound(f, s.dir, s3.dir, dump, n);
  }

  lemma SoundMatches(f: Format, d: Directory)
    requires f.Valid() && Sound(f, d)
    ensures d.sidecars.Keys == d.dumps.Keys
  {
  }

  lemma PublishedPartly(f: Format, s: State, w: Writer, dump: Dump, n: nat)
    requires n <= 6 && s.dir.temps == {} && dump.name !in s.dir.dumps
    ensures Partly(f, s.dir, Published(f, s, w, dump, n).dir, dump, n)
  {
  }

  // ----- An example

  const A: Body := "a"
  const B: Body := "b"

  function DigestA(): Digest { seq(64, _ => '0') }
  function DigestB(): Digest { seq(64, _ => '1') }

  /** Two contents with different digests, the second naming the first as its predecessor. */
  function Example(): Format {
    Format((b: Body) => if b == A then DigestA() else DigestB(),
           (b: Body) => Parsed(Text(if b == A then GENESIS else DigestA())), {A, B})
  }

  const FIRST: Dump := Dump("1.json", A)
  const SECOND: Dump := Dump("2.json", B)

  lemma ExampleValid()
    ensures Example().Valid()
  {
    assert DigestA()[0] != DigestB()[0];
  }

  lemma EmptySound(f: Format)
    requires f.Valid()
    ensures Sound(f, Directory(map[], map[], {})) && RecordsOf(f, map[]) == map[]
  {
    assert RecordsOf(f, map[]) == map[];
  }

  const NOTHING: Listing := Listing([], (n: Name) => |n|)
  const FIRST_LISTED: Listing := Listing([FIRST.name], (n: Name) => |n|)

  /** Two writers that append one after the other to an empty directory are both done, and the second
      dump is the head of the list. */
  lemma TwoWritersDone()
    ensures Example().Valid()
    ensures var f, actions := Example(), [Build(0, FIRST)] + Script(0, NOTHING) + ([Build(1, SECOND)] + Script(1, FIRST_LISTED));
            var s := Run(f, Start(Directory(map[], map[], {})), actions);
            && KnownActions(f, actions)
            && PhaseOf(s, 0) == Done(FIRST) && PhaseOf(s, 1) == Done(SECOND)
            && IsHead(RecordsOf(f, s.dir.dumps), DigestB())
  {
    hide Run, RecordsOf, Linear, Sound, Expected, IsHead;
    ExampleValid();
    var f := Example();
    var d0 := Directory(map[], map[], {});
    EmptySound(f);
    var s0 := Start(d0);
    var s1 := Step(f, s0, Build(0, FIRST));
    WriterSucceeds(f, s1, 0, FIRST, NOTHING);
    var s2 := Run(f, s1, Script(0, NOTHING));
    AcceptedFits(f, d0, FIRST, NOTHING);
    AppendKeepsSound(f, d0, FIRST);
    var s3 := Step(f, s2, Build(1, SECOND));
    HeadIsRecorded(RecordsOf(f, s2.dir.dumps), DigestA());
    WriterSucceeds(f, s3, 1, SECOND, FIRST_LISTED);
    AcceptedFits(f, s2.dir, SECOND, FIRST_LISTED);
    AppendKeepsSound(f, s2.dir, SECOND);
    RunOne(f, s0, Build(0, FIRST));
    RunOne(f, s2, Build(1, SECOND));
    RunConcat(f, s0, [Build(0, FIRST)], Script(0, NOTHING));
    RunConcat(f, s2, [Build(1, SECOND)], Script(1, FIRST_LISTED));
    RunConcat(f, s0, [Build(0, FIRST)] + Script(0, NOTHING), [Build(1, SECOND)] + Script(1, FIRST_LISTED));
  }

  /** A writer killed after three steps leaves a dump without its digest file: whatever happens
      afterwards, no writer succeeds. */
  lemma HalfDumpBlocks(actions: seq<Action>, v: Writer)
    ensures Example().Valid()
    ensures var f, d0 := Example(), Directory(map[], map[], {});
            var halted := [Build(0, FIRST)] + ([Lock(0), Check(0, true, NOTHING)] + Steps(0, 3) + [Kill(0)]);
            var s := Run(f, Start(d0), halted + actions);
            !Sound(f, s.dir) && !PhaseOf(s, v).Done?
  {
    hide Run, RecordsOf, Linear, Sound, Due;
    ExampleValid();
    var f, d0 := Example(), Directory(map[], map[], {});
    EmptySound(f);
    var s0 := Start(d0);
    var s1 := Step(f, s0, Build(0, FIRST));
    var path := [Lock(0), Check(0, true, NOTHING)] + Steps(0, 3) + [Kill(0)];
    assert Due(f, d0.dumps, NOTHING, GENESIS) by { GenesisDue(f, NOTHING); }
    WriterKilled(f, s1, 0, FIRST, NOTHING, 3);
    var s2 := Run(f, s1, path);
    RunOne(f, s0, Build(0, FIRST));
    RunConcat(f, s0, [Build(0, FIRST)], path);
    RunConcat(f, s0, [Build(0, FIRST)] + path, actions);
    StartHolds(f, d0);
    RunKeeps(f, s0, [Build(0, FIRST)] + path);
    assert Quiet(s2) by {
      forall u | u in s2.phases ensures !s2.phases[u].Publishing? { assert s2.phases[u] == PhaseOf(s2, u); }
    }
    RefusedForever(f, s2, actions);
  }

  lemma GenesisDue(f: Format, l: Listing)
    requires f.Valid()
    ensures Due(f, map[], l, GENESIS)
  {
    EmptySound(f);
  }
}
