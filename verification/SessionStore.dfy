/** The session store: saving with a backup generation and an atomic replacement, loading with recovery. */
module SessionStore {
  import opened Wrappers
  import opened StableSort
  import opened SessionFiles

  datatype RestoreResult<S> = Restored(session: S) | NoSuchGeneration | Unreadable | NotSaved(error: SaveError)

  const Last: nat -> int := (n: nat) => 0 - n as int

  lemma {:induction false} NextWrite<F>(before: Disk<F>, payload: F, names: Names, writes: seq<Write<F>>,
                                        write: Write<F>)
    requires StageAfter(before, payload, names, writes).Some?
    ensures ApplyAll(before, writes + [write]) == Apply(ApplyAll(before, writes), write)
    ensures StageAfter(before, payload, names, writes + [write]) ==
            Advance(StageAfter(before, payload, names, writes).value, write, before.current, payload, names)
  {
    assert (writes + [write])[..|writes|] == writes;
  }

  lemma {:induction false} Different(a: seq<nat>, b: seq<nat>)
    requires multiset(a) == multiset(b) && forall i, j :: 0 <= i < j < |a| ==> a[i] != a[j]
    ensures forall i, j :: 0 <= i < j < |b| ==> b[i] != b[j]
  {
    var differ := (x: nat, y: nat) => x != y;
    assert Pairwise(a, differ);
    PairwisePermuted(a, b, differ);
    assert forall i, j :: 0 <= i < j < |b| ==> differ(b[i], b[j]);
  }

  // Whatever order the directory lists them in.
  method NewestFirst(names: set<nat>) returns (sorted: seq<nat>)
    ensures Descending(sorted) && Members(sorted) == names
  {
    var unsorted: seq<nat> := [];
    var left := names;
    while left != {}
      invariant left <= names
      invariant forall n :: n in unsorted <==> n in names && n !in left
      invariant forall i, j :: 0 <= i < j < |unsorted| ==> unsorted[i] != unsorted[j]
      decreases |left|
    {
      var name :| name in left;
      unsorted := unsorted + [name];
      left := left - {name};
    }
    sorted := Sort(unsorted, Last);
    SortedNames(unsorted);
  }

  lemma {:induction false} SortedNames(unsorted: seq<nat>)
    requires forall i, j :: 0 <= i < j < |unsorted| ==> unsorted[i] != unsorted[j]
    ensures Descending(Sort(unsorted, Last)) && Members(Sort(unsorted, Last)) == Members(unsorted)
  {
    hide Sort;
    var sorted := Sort(unsorted, Last);
    SortIsSorted(unsorted, Last);
    SameElements(unsorted, Last);
    Different(unsorted, sorted);
    forall i, j | 0 <= i < j < |sorted| ensures sorted[i] > sorted[j] {
      assert Last(sorted[i]) <= Last(sorted[j]);
    }
  }

  // The generations left when the names from `kept` up to `to` have been removed, those that are stuck excepted.
  ghost function Left<F>(generations: map<nat, F>, names: seq<nat>, kept: nat, to: nat, stuck: set<nat>): map<nat, F>
    requires kept <= to <= |names|
  {
    generations - (Members(names[kept..to]) - stuck)
  }

  lemma {:induction false} LeftNext<F>(generations: map<nat, F>, names: seq<nat>, kept: nat, to: nat, stuck: set<nat>)
    requires kept <= to < |names|
    ensures var left := Left(generations, names, kept, to, stuck);
      Left(generations, names, kept, to + 1, stuck) == if names[to] in stuck then left else left - {names[to]}
  {
    assert names[kept..to + 1] == names[kept..to] + [names[to]];
    assert Members(names[kept..to + 1]) == Members(names[kept..to]) + {names[to]};
  }

  lemma {:induction false} RemovalAllowed<F>(current: Option<F>, payload: F, names: Names, name: nat)
    ensures Advance(Pruning, Removed(name), current, payload, names) == Some(Pruning)
  {
  }

  // Removing the tail of the list is pruning.
  lemma {:induction false} TailRemoved<F>(generations: map<nat, F>, names: seq<nat>, kept: nat, missed: set<nat>,
                                          stuck: set<nat>)
    requires Descending(names) && Members(names) == generations.Keys - missed
    requires kept == if |names| < GENERATIONS_TO_KEEP then |names| else GENERATIONS_TO_KEEP
    ensures Left(generations, names, kept, kept, stuck) == generations
    ensures Left(generations, names, kept, |names|, stuck) == Pruned(generations, missed, stuck)
  {
    assert names[kept..|names|] == names[kept..] && names[kept..kept] == [];
    forall n | n in generations.Keys - missed
      ensures n in Members(names[kept..]) <==> Stale(generations.Keys - missed, n)
    {
      assert n in Members(names);
      var k: nat :| k < |names| && names[k] == n;
      StaleIsTail(names, k);
      TailMember(names, kept, k);
    }
  }

  lemma {:induction false} TailMember(names: seq<nat>, from: nat, k: nat)
    requires Descending(names) && from <= |names| && k < |names|
    ensures names[k] in Members(names[from..]) <==> k >= from
  {
    if k >= from {
      assert names[from..][k - from] == names[k];
    }
  }

  class SessionStore<S(==, !new), F(==, !new)> {
    const codec: Codec<S, F>
    var disk: Disk<F>

    constructor (codec: Codec<S, F>, disk: Disk<F>)
      ensures this.codec == codec && this.disk == disk
    {
      this.codec, this.disk := codec, disk;
    }

    // A write is one step of the disk; `writes` lists the steps of a save so far.
    method Do(write: Write<F>, ghost before: Disk<F>, ghost payload: F, ghost names: Names, ghost writes: seq<Write<F>>)
        returns (ghost next: seq<Write<F>>)
      requires StageAfter(before, payload, names, writes).Some? && disk == ApplyAll(before, writes)
      requires Advance(StageAfter(before, payload, names, writes).value, write, before.current, payload, names).Some?
      modifies this`disk
      ensures next == writes + [write] && disk == ApplyAll(before, next) && disk == Apply(old(disk), write)
      ensures StageAfter(before, payload, names, next) ==
              Advance(StageAfter(before, payload, names, writes).value, write, before.current, payload, names)
    {
      NextWrite(before, payload, names, writes, write);
      disk := Apply(disk, write);
      next := writes + [write];
    }

    // Copies the active file to a generation of its own.
    method BackUp(world: World<F>, ghost payload: F) returns (ok: bool, ghost writes: seq<Write<F>>)
      modifies this`disk
      ensures StageAfter(old(disk), payload, world.names, writes).Some? && disk == ApplyAll(old(disk), writes)
      ensures ok == (old(disk).current.None? || world.copied)
      ensures ok ==> StageAfter(old(disk), payload, world.names, writes) == Some(Copying(true))
      ensures Replaced(world.names.temporary) !in writes
      ensures disk.current == old(disk).current && disk.temporaries == old(disk).temporaries
      ensures disk.generations == if ok then BackedUp(old(disk), world.names.generation)
                                  else Partly(old(disk).generations, world.names.generation, world.copying)
    {
      writes := [];
      if disk.current.None? {
        return true, writes;
      }
      var file := disk.current.value;
      ghost var before := disk;
      for i := 0 to |world.copying|
        invariant StageAfter(before, payload, world.names, writes).Some? && disk == ApplyAll(before, writes)
        invariant StageAfter(before, payload, world.names, writes).value.Copying?
        invariant Replaced(world.names.temporary) !in writes
        invariant disk.current == before.current && disk.temporaries == before.temporaries
        invariant disk.generations == Partly(before.generations, world.names.generation, world.copying[..i])
      {
        writes := Do(Generation(world.names.generation, world.copying[i]), before, payload, world.names, writes);
      }
      assert world.copying[..|world.copying|] == world.copying;
      if !world.copied {
        return false, writes;
      }
      writes := Do(Generation(world.names.generation, file), before, payload, world.names, writes);
      return true, writes;
    }

    // Writes the payload to a temporary file and puts it in the place of the active one.
    method Exchange(world: World<F>, payload: F, ghost before: Disk<F>, ghost done: seq<Write<F>>)
        returns (r: SaveResult, ghost writes: seq<Write<F>>)
      requires disk == ApplyAll(before, done) && StageAfter(before, payload, world.names, done) == Some(Copying(true))
      requires Replaced(world.names.temporary) !in done
      modifies this`disk
      ensures StageAfter(before, payload, world.names, writes).Some? && disk == ApplyAll(before, writes)
      ensures r ==
              if !world.written then SaveFailed(WriteFailed) else if !world.replaced then SaveFailed(ReplaceFailed)
              else Saved
      ensures r.Saved? ==> StageAfter(before, payload, world.names, writes) == Some(Pruning)
      ensures r.Saved? <==> Replaced(world.names.temporary) in writes
      ensures disk.generations == old(disk).generations
      ensures disk.current == if r.Saved? then Some(payload) else old(disk).current
      ensures disk.temporaries ==
              if r.Saved? then old(disk).temporaries - {world.names.temporary}
              else if world.written then old(disk).temporaries[world.names.temporary := payload]
              else Partly(old(disk).temporaries, world.names.temporary, world.writing)
    {
      var temporary := world.names.temporary;
      writes := done;
      for i := 0 to |world.writing|
        invariant StageAfter(before, payload, world.names, writes).Some? && disk == ApplyAll(before, writes)
        invariant !StageAfter(before, payload, world.names, writes).value.Pruning? && Replaced(temporary) !in writes
        invariant StageAfter(before, payload, world.names, writes).value.Copying? ==>
                    StageAfter(before, payload, world.names, writes).value.done
        invariant disk.generations == old(disk).generations && disk.current == old(disk).current
        invariant disk.temporaries == Partly(old(disk).temporaries, temporary, world.writing[..i])
      {
        writes := Do(Temporary(temporary, world.writing[i]), before, payload, world.names, writes);
      }
      assert world.writing[..|world.writing|] == world.writing;
      if !world.written {
        return SaveFailed(WriteFailed), writes;
      }
      writes := Do(Temporary(temporary, payload), before, payload, world.names, writes);
      if !world.replaced {
        return SaveFailed(ReplaceFailed), writes;
      }
      writes := Do(Replaced(temporary), before, payload, world.names, writes);
      return Saved, writes;
    }

    // Removes what is stale; a file that cannot be removed stays.
    method Prune(world: World<F>, payload: F, ghost before: Disk<F>, ghost done: seq<Write<F>>)
        returns (r: SaveResult, ghost writes: seq<Write<F>>)
      requires disk == ApplyAll(before, done) && StageAfter(before, payload, world.names, done) == Some(Pruning)
      modifies this`disk
      ensures StageAfter(before, payload, world.names, writes) == Some(Pruning) && disk == ApplyAll(before, writes)
      ensures r == if world.listing.AllBut? then Saved else SaveFailed(PruneFailed)
      ensures disk.current == old(disk).current && disk.temporaries == old(disk).temporaries && done <= writes
      ensures disk.generations ==
              if world.listing.AllBut? then Pruned(old(disk).generations, world.listing.missed, world.stuck)
              else old(disk).generations
    {
      hide StageAfter, ApplyAll, Stale, Pruned, Left, Advance;
      writes := done;
      if world.listing.CannotList? {
        return SaveFailed(PruneFailed), writes;
      }
      var names := NewestFirst(disk.generations.Keys - world.listing.missed);
      ghost var all := disk.generations;
      var kept := if |names| < GENERATIONS_TO_KEEP then |names| else GENERATIONS_TO_KEEP;
      TailRemoved(all, names, kept, world.listing.missed, world.stuck);
      for i := kept to |names|
        invariant StageAfter(before, payload, world.names, writes) == Some(Pruning) && disk == ApplyAll(before, writes)
        invariant disk.current == old(disk).current && disk.temporaries == old(disk).temporaries && done <= writes
        invariant disk.generations == Left(all, names, kept, i, world.stuck)
      {
        LeftNext(all, names, kept, i, world.stuck);
        RemovalAllowed(before.current, payload, world.names, names[i]);
        if names[i] !in world.stuck {
          writes := Do(Removed(names[i]), before, payload, world.names, writes);
        }
      }
      return Saved, writes;
    }

    /** A save writes as a save should, in order, and comes to exactly the disk and the answer it should. */
    method Save(session: S, world: World<F>) returns (r: SaveResult, ghost writes: seq<Write<F>>)
      modifies this`disk
      ensures (disk, r) == SaveEffect(codec, old(disk), session, world)
      ensures disk == ApplyAll(old(disk), writes)
      ensures codec.normalize(session).None? || !world.room ==> writes == []
      ensures codec.normalize(session).Some? ==>
                StageAfter(old(disk), codec.encode(codec.normalize(session).value), world.names, writes).Some?
    {
      writes := [];
      var normalized := codec.normalize(session);
      if normalized.None? {
        return SaveFailed(Invalid), writes;
      }
      var payload := codec.encode(normalized.value);
      if !world.room {
        return SaveFailed(NoRoom), writes;
      }
      var copied;
      copied, writes := BackUp(world, payload);
      if !copied {
        return SaveFailed(CopyFailed), writes;
      }
      r, writes := Exchange(world, payload, old(disk), writes);
      if r.SaveFailed? {
        return;
      }
      r, writes := Prune(world, payload, old(disk), writes);
    }

    // No answer when the directory cannot be listed.
    method NewestValidGeneration(listing: Listing) returns (r: Option<Option<S>>)
      ensures r.None? <==> listing.CannotList?
      ensures r.Some? && r.value.Some? ==> Recovers(codec, Seen(disk.generations, listing), r.value.value)
      ensures r.Some? && r.value.None? ==> NoneReadable(codec, Seen(disk.generations, listing))
    {
      if listing.CannotList? {
        return None;
      }
      var seen := Seen(disk.generations, listing);
      var names := NewestFirst(seen.Keys);
      for i := 0 to |names|
        invariant forall k :: 0 <= k < i ==> !Readable(codec, seen[names[k]])
      {
        assert names[i] in Members(names);
        var session := codec.decode(seen[names[i]]);
        if session.Some? {
          assert forall n :: n in seen ==> n in Members(names);
          assert Newest(codec, seen, names[i]);
          return Some(session);
        }
      }
      assert forall n :: n in seen ==> n in Members(names);
      return Some(None);
    }

    /** Loading gives what it should and changes nothing. */
    method LoadSaved(listing: Listing) returns (load: Load<S>)
      ensures Loads(codec, disk, listing, load)
    {
      if disk.current.Some? {
        var session := codec.decode(disk.current.value);
        if session.Some? {
          return Loaded(session.value, false);
        }
      }
      var recovered := NewestValidGeneration(listing);
      if recovered.None? {
        return Unlisted;
      }
      if recovered.value.Some? {
        return Loaded(recovered.value.value, true);
      }
      return if disk.current.Some? then Corrupt else NotFound;
    }

    /** A readable generation is saved as any session is, with the outcome of that save: it becomes the active session
        when it is restored, and also when only the pruning failed; with every other error the active file stays. A
        generation that is missing or unreadable changes nothing at all. */
    method RestoreGeneration(name: nat, world: World<F>) returns (r: RestoreResult<S>)
      modifies this`disk
      ensures r.NoSuchGeneration? <==> name !in old(disk).generations
      ensures r.Unreadable? <==> name in old(disk).generations && !Readable(codec, old(disk).generations[name])
      ensures r.NoSuchGeneration? || r.Unreadable? ==> disk == old(disk)
      ensures name in old(disk).generations && Readable(codec, old(disk).generations[name]) ==>
        var session := codec.decode(old(disk).generations[name]).value;
        var (after, saved) := SaveEffect(codec, old(disk), session, world);
        && disk == after && r == (if saved.Saved? then Restored(session) else NotSaved(saved.error))
        && (if r.Restored? || r.error.PruneFailed?
            then codec.normalize(session).Some? && disk.current == Some(codec.encode(codec.normalize(session).value))
            else disk.current == old(disk).current)
    {
      if name !in disk.generations {
        return NoSuchGeneration;
      }
      var session := codec.decode(disk.generations[name]);
      if session.None? {
        return Unreadable;
      }
      ErrorsAndFiles(codec, disk, session.value, world);
      var saved, _ := Save(session.value, world);
      return if saved.Saved? then Restored(session.value) else NotSaved(saved.error);
    }
  }

  // Sessions and files are numbers here; the directory of generations cannot be listed.
  const PLAIN: Codec<int, int> := Codec((s: int) => Some(s), (s: int) => s, (f: int) => Some(f))
  const UNLISTED: World<int> := World(true, Names(7, 8), [], true, [], true, true, CannotList, {})

  /** A save that reports an error and has replaced the active file all the same. */
  method ErrorThatReplaces() returns (before: Option<int>, r: SaveResult, after: Option<int>)
    ensures before == Some(1) && r == SaveFailed(PruneFailed) && after == Some(2)
  {
    var store := new SessionStore(PLAIN, Disk(Some(1), map[], map[]));
    before := store.disk.current;
    ghost var writes;
    r, writes := store.Save(2, UNLISTED);
    after := store.disk.current;
  }
}
