/** The dump directory as one writer changes it while it holds the lock. */
module DumpStorage {
  import opened DumpChain
  import opened DumpDirectory

  /** Where a writer is interrupted: by an exception, which cleans up, or by being killed. */
  datatype Stop = Never | RaiseAt(at: nat) | KillAt(at: nat)

  /** The writer may append: the limits leave room, the directory is accepted, the predecessor is
      the expected one, and the file name is new. */
  ghost predicate MayAppend(f: Format, d: Directory, dump: Dump, free: bool, l: Listing)
    requires f.Valid()
  {
    free && Sound(f, d) && Accepts(f, d, dump, l) && dump.name !in d.dumps
  }

  ghost predicate PartlyCleaned(f: Format, base: Directory, d: Directory, dump: Dump, at: nat) {
    exists left :: Partly(f, base, left, dump, at) && d == CleanedUp(left, dump, at)
  }

  /** What publishing one file has come to when `base` was there before the publication. */
  ghost predicate Came(f: Format, base: Directory, d: Directory, dump: Dump, first: nat, stop: Stop, ok: bool) {
    if first == 0 && dump.name in base.dumps && stop != KillAt(0) && stop != KillAt(1) then !ok && d == base
    else match stop
      case Never => ok && Partly(f, base, d, dump, first + 3)
      case RaiseAt(at) =>
        if first <= at < first + 3 then !ok && PartlyCleaned(f, base, d, dump, at) else ok && Partly(f, base, d, dump, first + 3)
      case KillAt(at) =>
        if first <= at < first + 3 then !ok && Partly(f, base, d, dump, at) else ok && Partly(f, base, d, dump, first + 3)
  }

  class Storage {
    const f: Format
    var dir: Directory

    constructor (f: Format, dir: Directory)
      ensures this.f == f && this.dir == dir
    {
      this.f, this.dir := f, dir;
    }

    /** Reads every dump in the order of the listing, compares it with its digest file and parses it. */
    method VerifiedRecords(names: seq<Name>) returns (records: Option<Records>, paths: map<Digest, Name>)
      requires f.Valid() && Within(f, dir.dumps)
      requires forall n :: n in dir.dumps <==> n in names
      ensures records.Some? <==> forall n :: n in dir.dumps ==> DumpOk(f, dir, n)
      ensures records.Some? ==> records.value == RecordsOf(f, dir.dumps) && paths.Keys == records.value.Keys
      ensures records.Some? ==> forall d :: d in paths ==> FileOf(f, dir.dumps, names, d) == Some(paths[d])
    {
      hide Format.Previous;
      var rows: Records := map[];
      paths := map[];
      for i := 0 to |names|
        invariant paths.Keys == rows.Keys
        invariant forall k :: 0 <= k < i ==> DumpOk(f, dir, names[k]) && f.sha(dir.dumps[names[k]]) in rows
        invariant forall d :: d in rows ==>
          && paths[d] in dir.dumps && f.sha(dir.dumps[paths[d]]) == d && rows[d] == f.Previous(dir.dumps[paths[d]])
          && FileOf(f, dir.dumps, names[..i], d) == Some(paths[d])
      {
        var n := names[i];
        assert n in names;
        var raw := dir.dumps[n];
        var digest := f.sha(raw);
        if n !in dir.sidecars {
          return None, paths;
        }
        var line := dir.sidecars[n];
        if |line| != 2 || line[0] != digest || line[1] != n || f.parse(raw).Unreadable? {
          return None, paths;
        }
        assert names[..i + 1][..i] == names[..i];
        rows := rows[digest := f.Previous(raw)];
        paths := paths[digest := n];
      }
      assert names[..|names|] == names;
      RowsComplete(f, dir.dumps, rows, paths);
      return Some(rows), paths;
    }

    /** No temporary files, a digest file for every dump and no other, and one list of dumps. */
    method ValidateIntegrity(names: seq<Name>) returns (ok: bool)
      requires f.Valid() && Within(f, dir.dumps)
      requires forall n :: n in dir.dumps <==> n in names
      ensures ok <==> Sound(f, dir)
    {
      hide Linear, RecordsOf;
      if dir.temps != {} {
        return false;
      }
      var orphans := set n | n in dir.sidecars && n !in dir.dumps;
      var missing := set n | n in dir.dumps && n !in dir.sidecars;
      if orphans != {} || missing != {} {
        assert dir.sidecars.Keys != dir.dumps.Keys by {
          if n :| n in orphans { assert n in dir.sidecars.Keys; }
          if n :| n in missing { assert n in dir.dumps.Keys; }
        }
        return false;
      }
      assert dir.sidecars.Keys == dir.dumps.Keys by {
        forall n | n in dir.sidecars.Keys ensures n in dir.dumps { assert n !in orphans; }
        forall n | n in dir.dumps.Keys ensures n in dir.sidecars { assert n !in missing; }
      }
      var records, paths := VerifiedRecords(names);
      if records == None {
        return false;
      }
      var head := ChainHead(records.value);
      ok := head.Head?;
    }

    /** What the next dump has to name. Before anything is chained the newest dump is taken. */
    method LatestDump(l: Listing) returns (latest: Option<string>)
      requires f.Valid() && Within(f, dir.dumps) && Lists(l, dir.dumps)
      ensures latest.Some? <==> Sound(f, dir)
      ensures latest.Some? ==> Due(f, dir.dumps, l, latest.value)
    {
      hide Linear, RecordsOf, Chain;
      var ok := ValidateIntegrity(l.names);
      if !ok {
        return None;
      }
      var records, paths := VerifiedRecords(l.names);
      if records.value == map[] {
        return Some(GENESIS);
      }
      var head := ChainHead(records.value);
      if head.head.Some? {
        HeadIsRecorded(records.value, head.head.value);
        return Some(head.head.value);
      }
      var newest := Newest(records.value.Keys, paths, l.rank);
      latest := Some(newest);
    }

    method Newest(digests: set<Digest>, paths: map<Digest, Name>, rank: Name -> nat) returns (newest: Digest)
      requires digests != {} && digests <= paths.Keys
      ensures newest in digests && forall d :: d in digests ==> rank(paths[d]) <= rank(paths[newest])
    {
      newest :| newest in digests;
      var todo := digests;
      while todo != {}
        invariant todo <= digests && newest in digests
        invariant forall d :: d in digests - todo ==> rank(paths[d]) <= rank(paths[newest])
        decreases todo
      {
        var d :| d in todo;
        if rank(paths[d]) > rank(paths[newest]) {
          newest := d;
        }
        todo := todo - {d};
      }
    }

    /** The checks made under the lock, before anything is written. */
    method Admit(dump: Dump, free: bool, l: Listing) returns (ok: bool)
      requires f.Valid() && Within(f, dir.dumps) && Lists(l, dir.dumps)
      ensures ok <==> free && Sound(f, dir) && Accepts(f, dir, dump, l)
    {
      hide Linear, RecordsOf, Chain, Sound, Due, Lists;
      ListsAll(l, dir.dumps);
      var sound := ValidateIntegrity(l.names);
      if !free || !sound {
        return false;
      }
      match f.parse(dump.body) {
        case Parsed(Absent) => ok := true;
        case Parsed(Text(p)) =>
          var latest := LatestDump(l);
          ok := latest == Some(p);
          ghost var due := OneIsDue(f, dir, l);
        case _ => ok := false;
      }
    }

    /** Makes a temporary file, links it under its name and removes it again. The dump itself is
        published in steps 0 to 2, its digest in steps 3 to 5. */
    method PublishExclusive(dump: Dump, first: nat, stop: Stop, ghost base: Directory) returns (ok: bool)
      requires first == 0 || first == 3
      requires base.temps == {} && base.sidecars.Keys == base.dumps.Keys && Partly(f, base, dir, dump, first)
      modifies this
      ensures Came(f, base, dir, dump, first, stop, ok)
    {
      var temp := if first == 0 then dump.name else dump.name + SUFFIX;
      ok := false;
      if stop == RaiseAt(first) || stop == KillAt(first) || temp in dir.temps {
        assert dir == CleanedUp(dir, dump, first);
        return;
      }
      dir := dir.(temps := dir.temps + {temp});
      if stop == KillAt(first + 1) {
        return;
      }
      if stop == RaiseAt(first + 1) || (if first == 0 then dump.name in dir.dumps else dump.name in dir.sidecars) {
        ghost var left := dir;
        dir := dir.(temps := dir.temps - {temp});
        assert Partly(f, base, left, dump, first + 1) && dir == CleanedUp(left, dump, first + 1);
        return;
      }
      dir := if first == 0 then WithDump(dir, dump) else WithSidecar(f, dir, dump);
      if stop == KillAt(first + 2) {
        return;
      }
      ghost var left := dir;
      dir := dir.(temps := dir.temps - {temp});
      assert Partly(f, base, left, dump, first + 2) && dir == CleanedUp(left, dump, first + 2);
      ok := stop != RaiseAt(first + 2);
    }

    /** One append. Without interruption it appends the dump or changes nothing; interrupted at a step
        it leaves exactly what a publication has made by then. */
    method WriteAppendOnly(dump: Dump, free: bool, l: Listing, stop: Stop) returns (r: Option<Digest>)
      requires f.Valid() && Within(f, dir.dumps) && dump.body in f.bodies && Lists(l, dir.dumps)
      modifies this
      ensures r.Some? ==> MayAppend(f, old(dir), dump, free, l) && dir == Appended(f, old(dir), dump) && r.value == f.sha(dump.body)
      ensures !(free && Sound(f, old(dir)) && Accepts(f, old(dir), dump, l)) ==> r.None? && dir == old(dir)
      ensures stop.Never? && r.None? ==> dir == old(dir)
      ensures stop.Never? ==> (r.Some? <==> MayAppend(f, old(dir), dump, free, l))
      ensures stop.KillAt? && dir != old(dir) && r.None? ==> Partly(f, old(dir), dir, dump, stop.at)
      ensures stop.RaiseAt? && dir != old(dir) && r.None? ==> PartlyCleaned(f, old(dir), dir, dump, stop.at)
    {
      hide Sound, Accepts, Lists, PartlyCleaned;
      var admitted := Admit(dump, free, l);
      if !admitted {
        return None;
      }
      ghost var base := dir;
      SoundIsTidy(f, base);
      SoundMatches(f, base);
      var ok := PublishExclusive(dump, 0, stop, base);
      if !ok {
        return None;
      }
      ok := PublishExclusive(dump, 3, stop, base);
      if !ok {
        return None;
      }
      Raised(f, base, dir, dump, 6);
      Whole(f, base, dir, dump);
      if stop == RaiseAt(6) || stop == KillAt(6) {
        return None;
      }
      r := Some(f.sha(dump.body));
    }
  }

  lemma ListsAll(l: Listing, dumps: map<Name, Body>)
    requires Lists(l, dumps)
    ensures forall n :: n in dumps <==> n in l.names
  {
  }

  lemma Whole(f: Format, base: Directory, d: Directory, dump: Dump)
    requires base.temps == {} && Partly(f, base, d, dump, 6)
    ensures d == Appended(f, base, dump) && PartlyCleaned(f, base, d, dump, 6)
  {
    assert CleanedUp(d, dump, 6) == d;
  }

  lemma RowsComplete(f: Format, dumps: map<Name, Body>, rows: Records, paths: map<Digest, Name>)
    requires f.Valid() && Within(f, dumps) && paths.Keys == rows.Keys
    requires forall n :: n in dumps ==> f.sha(dumps[n]) in rows
    requires forall d :: d in rows ==>
      paths[d] in dumps && f.sha(dumps[paths[d]]) == d && rows[d] == f.Previous(dumps[paths[d]])
    ensures rows == RecordsOf(f, dumps)
  {
    hide RecordsOf, Format.Previous;
    var records := RecordsOf(f, dumps);
    forall d | d in rows ensures d in records && records[d] == rows[d] {
      RecordFor(f, dumps, paths[d]);
    }
    forall d | d in records ensures d in rows {
      var n := RecordOf(f, dumps, d);
    }
  }
}
