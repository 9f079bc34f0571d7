/** The files of one project's session: loading, the writes of a save in order, and what a crash between them leaves. */
module SessionFiles {
  import opened Wrappers

  const GENERATIONS_TO_KEEP: nat := 20

  // File names are numbered by their place in the order of names; what a file holds is abstract.
  datatype Disk<F> = Disk(current: Option<F>, generations: map<nat, F>, temporaries: map<nat, F>)

  // How sessions are written, and read with every check a load makes.
  datatype Codec<!S, !F> = Codec(normalize: S -> Option<S>, encode: S -> F, decode: F -> Option<S>)

  ghost predicate Faithful<S(!new), F(!new)>(codec: Codec<S, F>) {
    forall s :: codec.normalize(s).Some? ==> codec.decode(codec.encode(codec.normalize(s).value)) == codec.normalize(s)
  }

  // What reading the directory of generations gives: an error, or all
  // generations but those whose entry could not be read.
  datatype Listing = CannotList | AllBut(missed: set<nat>)

  function Seen<F>(generations: map<nat, F>, listing: Listing): map<nat, F> {
    if listing.AllBut? then generations - listing.missed else map[]
  }

  datatype Load<S> = Loaded(session: S, recovered: bool) | NotFound | Corrupt | Unlisted

  predicate Readable<S, F>(codec: Codec<S, F>, file: F) {
    codec.decode(file).Some?
  }

  // The readable generation of the greatest name.
  ghost predicate Newest<S, F>(codec: Codec<S, F>, generations: map<nat, F>, name: nat) {
    && name in generations && Readable(codec, generations[name])
    && forall n :: n in generations && n > name ==> !Readable(codec, generations[n])
  }

  ghost predicate Recovers<S, F>(codec: Codec<S, F>, generations: map<nat, F>, session: S) {
    exists name :: Newest(codec, generations, name) && codec.decode(generations[name]) == Some(session)
  }

  ghost predicate NoneReadable<S, F>(codec: Codec<S, F>, generations: map<nat, F>) {
    forall n :: n in generations ==> !Readable(codec, generations[n])
  }

  /** What loading should give: the active file if it is readable; otherwise an error when the generations cannot be
      listed, else the newest readable one of those seen, else an error when there is an active file and nothing when
      there is none. */
  ghost predicate Loads<S, F>(codec: Codec<S, F>, disk: Disk<F>, listing: Listing, load: Load<S>) {
    if disk.current.Some? && Readable(codec, disk.current.value)
    then load == Loaded(codec.decode(disk.current.value).value, false)
    else if listing.CannotList? then load == Unlisted
    else match load
      case Loaded(session, recovered) => recovered && Recovers(codec, Seen(disk.generations, listing), session)
      case NotFound => disk.current.None? && NoneReadable(codec, Seen(disk.generations, listing))
      case Corrupt => disk.current.Some? && NoneReadable(codec, Seen(disk.generations, listing))
      case Unlisted => false
  }

  /** The rule determines the outcome. */
  lemma {:induction false} LoadIsDetermined<S, F>(codec: Codec<S, F>, disk: Disk<F>, listing: Listing, a: Load<S>,
                                                  b: Load<S>)
    requires Loads(codec, disk, listing, a) && Loads(codec, disk, listing, b)
    ensures a == b
  {
    var seen := Seen(disk.generations, listing);
    if a.Loaded? && a.recovered && b.Loaded? && b.recovered {
      var m :| Newest(codec, seen, m) && codec.decode(seen[m]) == Some(a.session);
      var n :| Newest(codec, seen, n) && codec.decode(seen[n]) == Some(b.session);
      assert m == n;
    }
  }

  // Some generation of those seen is readable, and this is the newest of them.
  ghost predicate HasNewest<S, F>(codec: Codec<S, F>, disk: Disk<F>, missed: set<nat>, session: S) {
    exists name :: name in disk.generations && name !in missed && codec.decode(disk.generations[name]) == Some(session)
      && forall n :: n in disk.generations && n !in missed && codec.decode(disk.generations[n]).Some? ==> n <= name
  }

  /** When each outcome comes about: the active file decides when it is readable; a session is recovered, nothing is
      found, or the file is reported corrupt, only when it is not, and by the generations alone; and an error of the
      directory is reported only when it is needed. */
  lemma {:induction false} LoadsExactlyWhen<S, F>(codec: Codec<S, F>, disk: Disk<F>, listing: Listing, load: Load<S>)
    ensures Loads(codec, disk, listing, load) <==>
      var active := if disk.current.Some? then codec.decode(disk.current.value) else None;
      match load
      case Loaded(session, recovered) =>
        if active.Some? then !recovered && active == Some(session)
        else recovered && listing.AllBut? && HasNewest(codec, disk, listing.missed, session)
      case Unlisted => active.None? && listing.CannotList?
      case _ =>
        && active.None? && listing.AllBut? && (load.Corrupt? <==> disk.current.Some?)
        && forall n :: n in disk.generations && n !in listing.missed ==> codec.decode(disk.generations[n]).None?
  {
    if listing.AllBut? {
      var seen := Seen(disk.generations, listing);
      assert forall n :: n in seen <==> n in disk.generations && n !in listing.missed;
      if load.Loaded? {
        if Recovers(codec, seen, load.session) {
          var name :| Newest(codec, seen, name) && codec.decode(seen[name]) == Some(load.session);
          assert HasNewest(codec, disk, listing.missed, load.session);
        }
        if HasNewest(codec, disk, listing.missed, load.session) {
          var name :| name in disk.generations && name !in listing.missed
            && codec.decode(disk.generations[name]) == Some(load.session)
            && forall n :: n in disk.generations && n !in listing.missed && codec.decode(disk.generations[n]).Some? ==>
                 n <= name;
          assert Newest(codec, seen, name);
        }
      }
    }
  }

  // One change of the disk. A file being copied or written goes through contents of any kind before its last.
  datatype Write<F> =
    | Generation(name: nat, content: F)
    | Temporary(name: nat, content: F)
    | Replaced(name: nat)
    | Removed(name: nat)

  function Apply<F>(disk: Disk<F>, write: Write<F>): Disk<F> {
    match write
    case Generation(name, content) => disk.(generations := disk.generations[name := content])
    case Temporary(name, content) => disk.(temporaries := disk.temporaries[name := content])
    case Replaced(name) =>
      if name in disk.temporaries
      then disk.(current := Some(disk.temporaries[name]), temporaries := disk.temporaries - {name}) else disk
    case Removed(name) => disk.(generations := disk.generations - {name})
  }

  function ApplyAll<F>(disk: Disk<F>, writes: seq<Write<F>>): Disk<F> {
    if writes == [] then disk else Apply(ApplyAll(disk, writes[..|writes| - 1]), writes[|writes| - 1])
  }

  // How far a save has come.
  datatype Stage = Copying(done: bool) | Writing(done: bool) | Pruning

  // The file names one save uses.
  datatype Names = Names(generation: nat, temporary: nat)

  function Begin<F>(disk: Disk<F>): Stage {
    Copying(disk.current.None?)
  }

  function Advance<F(==)>(stage: Stage, write: Write<F>, current: Option<F>, payload: F, names: Names): Option<Stage> {
    match stage
    case Copying(done) =>
      if write.Generation? && write.name == names.generation
          && current.Some? then Some(Copying(write.content == current.value))
      else if write.Temporary? && write.name == names.temporary && done then Some(Writing(write.content == payload))
      else None
    case Writing(done) =>
      if write.Temporary? && write.name == names.temporary then Some(Writing(write.content == payload))
      else if write == Replaced(names.temporary) && done then Some(Pruning)
      else None
    case Pruning => if write.Removed? then Some(Pruning) else None
  }

  // Where a save stands after these writes; none when they are not the beginning of a save.
  function StageAfter<F(==)>(disk: Disk<F>, payload: F, names: Names, writes: seq<Write<F>>): Option<Stage> {
    if writes == [] then Some(Begin(disk))
    else
      var stage :- StageAfter(disk, payload, names, writes[..|writes| - 1]);
      Advance(stage, writes[|writes| - 1], disk.current, payload, names)
  }

  // What is on the disk at each stage.
  ghost predicate At<F>(before: Disk<F>, now: Disk<F>, payload: F, names: Names, stage: Stage) {
    match stage
    case Copying(done) =>
      && now.current == before.current
      && (done && before.current.Some? ==>
            names.generation in now.generations && now.generations[names.generation] == before.current.value)
    case Writing(done) =>
      && now.current == before.current
      && (done ==> names.temporary in now.temporaries && now.temporaries[names.temporary] == payload)
      && (before.current.Some? ==>
            names.generation in now.generations && now.generations[names.generation] == before.current.value)
    case Pruning =>
      && now.current == Some(payload)
      && (before.current.Some? && names.generation in now.generations ==>
            now.generations[names.generation] == before.current.value)
  }

  lemma {:induction false} StageNext<F>(before: Disk<F>, now: Disk<F>, payload: F, names: Names, stage: Stage,
                                        write: Write<F>)
    requires At(before, now, payload, names, stage) && Advance(stage, write, before.current, payload, names).Some?
    ensures At(before, Apply(now, write), payload, names, Advance(stage, write, before.current, payload, names).value)
  {
  }

  // Before pruning, a backup once complete stays.
  lemma {:induction false} BackupStays<F>(before: Disk<F>, now: Disk<F>, payload: F, names: Names, stage: Stage,
                                          write: Write<F>)
    requires At(before, now, payload, names, stage)
    requires Advance(stage, write, before.current, payload, names) == Some(Pruning)
    requires before.current.Some? && write != Removed(names.generation)
    ensures names.generation in now.generations || stage.Pruning? ==>
              (names.generation in Apply(now, write).generations <==> names.generation in now.generations)
    ensures !stage.Pruning? ==> names.generation in now.generations
  {
  }

  lemma {:induction false} SaveStages<F>(disk: Disk<F>, payload: F, names: Names, writes: seq<Write<F>>)
    requires StageAfter(disk, payload, names, writes).Some?
    ensures At(disk, ApplyAll(disk, writes), payload, names, StageAfter(disk, payload, names, writes).value)
    ensures StageAfter(disk, payload, names, writes).value.Pruning? <==> Replaced(names.temporary) in writes
    ensures StageAfter(disk, payload, names, writes).value.Pruning? && disk.current.Some? ==>
              names.generation in ApplyAll(disk, writes).generations || Removed(names.generation) in writes
  {
    hide At, Apply;
    if writes == [] {
      NothingWritten(disk, payload, names);
    } else {
      var before, last := writes[..|writes| - 1], writes[|writes| - 1];
      var now, stage := ApplyAll(disk, before), StageAfter(disk, payload, names, before).value;
      SaveStages(disk, payload, names, before);
      StageNext(disk, now, payload, names, stage, last);
      assert writes == before + [last];
      if Advance(stage, last, disk.current, payload, names) == Some(Pruning) && disk.current.Some?
          && last != Removed(names.generation) {
        BackupStays(disk, now, payload, names, stage, last);
      }
    }
  }

  lemma {:induction false} NothingWritten<F>(disk: Disk<F>, payload: F, names: Names)
    ensures At(disk, disk, payload, names, Begin(disk))
  {
  }

  lemma {:induction false} PrefixStage<F>(disk: Disk<F>, payload: F, names: Names, writes: seq<Write<F>>, n: nat)
    requires n <= |writes| && StageAfter(disk, payload, names, writes).Some?
    ensures StageAfter(disk, payload, names, writes[..n]).Some?
    decreases |writes|
  {
    if n == |writes| {
      assert writes[..n] == writes;
    } else {
      assert writes[..|writes| - 1][..n] == writes[..n];
      PrefixStage(disk, payload, names, writes[..|writes| - 1], n);
    }
  }

  /** Wherever a save over a readable active file is cut off, loading gives the old session or the new one, never a
      recovered one and never an error: the new one from the replacement on, the old one before it. */
  lemma {:induction false} CrashKeepsOldOrNew<S(!new), F(!new)>(codec: Codec<S, F>, disk: Disk<F>, session: S,
                                                                names: Names, writes: seq<Write<F>>, cut: nat,
                                                                listing: Listing, load: Load<S>)
    requires Faithful(codec) && codec.normalize(session).Some?
    requires disk.current.Some? && Readable(codec, disk.current.value)
    requires cut <= |writes| && StageAfter(disk, codec.encode(codec.normalize(session).value), names, writes).Some?
    requires Loads(codec, ApplyAll(disk, writes[..cut]), listing, load)
    ensures load == if Replaced(names.temporary) in writes[..cut] then Loaded(codec.normalize(session).value, false)
                    else Loaded(codec.decode(disk.current.value).value, false)
  {
    var payload := codec.encode(codec.normalize(session).value);
    PrefixStage(disk, payload, names, writes, cut);
    SaveStages(disk, payload, names, writes[..cut]);
  }

  /** The old active file is never the price of a save: at every point it is still the active file, or its copy is
      complete among the generations unless pruning has removed that copy. */
  lemma {:induction false} OldFileKept<F(!new)>(disk: Disk<F>, payload: F, names: Names, writes: seq<Write<F>>,
                                                cut: nat)
    requires disk.current.Some? && cut <= |writes| && StageAfter(disk, payload, names, writes).Some?
    ensures var now := ApplyAll(disk, writes[..cut]);
      || now.current == disk.current
      || (names.generation in now.generations && now.generations[names.generation] == disk.current.value)
      || Removed(names.generation) in writes[..cut]
  {
    PrefixStage(disk, payload, names, writes, cut);
    SaveStages(disk, payload, names, writes[..cut]);
  }

  /** A first save, cut off before the replacement, leaves loading as it was. */
  lemma {:induction false} FirstSaveCutOff<S(!new), F(!new)>(codec: Codec<S, F>, disk: Disk<F>, payload: F,
                                                             names: Names, writes: seq<Write<F>>, listing: Listing,
                                                             load: Load<S>)
    requires disk.current.None? && StageAfter(disk, payload, names, writes).Some?
    requires Replaced(names.temporary) !in writes
    ensures Loads(codec, ApplyAll(disk, writes), listing, load) <==> Loads(codec, disk, listing, load)
  {
    SaveStages(disk, payload, names, writes);
    GenerationsUntouched(disk, payload, names, writes);
  }

  lemma {:induction false} GenerationsUntouched<F>(disk: Disk<F>, payload: F, names: Names, writes: seq<Write<F>>)
    requires disk.current.None? && StageAfter(disk, payload, names, writes).Some?
    requires Replaced(names.temporary) !in writes
    ensures ApplyAll(disk, writes).generations == disk.generations
  {
    if writes != [] {
      SaveStages(disk, payload, names, writes[..|writes| - 1]);
      GenerationsUntouched(disk, payload, names, writes[..|writes| - 1]);
      SaveStages(disk, payload, names, writes);
    }
  }

  lemma {:induction false} OneWrite<F>(stage: Stage, now: Disk<F>, write: Write<F>, current: Option<F>, payload: F,
                                       names: Names)
    requires !stage.Pruning? && Advance(stage, write, current, payload, names).Some?
    ensures Apply(now, write).generations ==
            if write.Generation? then now.generations[names.generation := write.content] else now.generations
    ensures write.Generation? ==> write.name == names.generation
  {
  }

  // Before the replacement a save changes at most the generation it copies to, which holds what was written there last.
  lemma {:induction false} OneGenerationWritten<F>(disk: Disk<F>, payload: F, names: Names, writes: seq<Write<F>>)
    requires StageAfter(disk, payload, names, writes).Some? && Replaced(names.temporary) !in writes
    ensures var now := ApplyAll(disk, writes).generations;
      || now == disk.generations
      || (names.generation in now && now == disk.generations[names.generation := now[names.generation]]
          && Generation(names.generation, now[names.generation]) in writes)
  {
    hide Advance, Apply, At;
    if writes != [] {
      var before, last := writes[..|writes| - 1], writes[|writes| - 1];
      assert writes == before + [last];
      SaveStages(disk, payload, names, before);
      OneGenerationWritten(disk, payload, names, before);
      var stage := StageAfter(disk, payload, names, before).value;
      OneWrite(stage, ApplyAll(disk, before), last, disk.current, payload, names);
      if last.Generation? {
        OverwrittenTwice(disk.generations, ApplyAll(disk, before).generations, names.generation, last.content);
      }
    }
  }

  lemma {:induction false} OverwrittenTwice<F>(a: map<nat, F>, b: map<nat, F>, name: nat, content: F)
    requires b == a || (name in b && b == a[name := b[name]])
    ensures b[name := content] == a[name := content]
  {
  }

  ghost predicate NewerReadable<S, F>(codec: Codec<S, F>, generations: map<nat, F>, name: nat) {
    exists n :: n in generations && n > name && Readable(codec, generations[n])
  }

  // A generation written over below a readable one decides nothing.
  lemma {:induction false} OlderChanges<S, F>(codec: Codec<S, F>, generations: map<nat, F>, name: nat, content: F,
                                              session: S)
    requires NewerReadable(codec, generations, name)
    ensures Recovers(codec, generations, session) <==> Recovers(codec, generations[name := content], session)
    ensures !NoneReadable(codec, generations) && !NoneReadable(codec, generations[name := content])
  {
    hide Newest, Readable;
    var after := generations[name := content];
    var newer: nat :| newer in generations && newer > name && Readable(codec, generations[newer]);
    assert after[newer] == generations[newer];
    forall n: nat ensures Newest(codec, generations, n) <==> Newest(codec, after, n)
      ensures Newest(codec, generations, n) ==> n in generations && n in after && after[n] == generations[n]
    {
      SameNewest(codec, generations, name, content, newer, n);
    }
  }

  lemma {:induction false} SameNewest<S, F>(codec: Codec<S, F>, generations: map<nat, F>, name: nat, content: F,
                                            newer: nat, n: nat)
    requires newer in generations && newer > name && Readable(codec, generations[newer])
    ensures Newest(codec, generations, n) <==> Newest(codec, generations[name := content], n)
    ensures Newest(codec, generations, n) ==>
              n in generations && generations[name := content][n] == generations[n]
  {
    var after := generations[name := content];
    assert after[newer] == generations[newer];
    assert Newest(codec, generations, n) ==> n >= newer;
    assert Newest(codec, after, n) ==> n >= newer;
    assert forall k: nat :: k > name ==> (k in after <==> k in generations);
  }

  // One that becomes readable, with none newer, is recovered; one that becomes unreadable might as well be missing.
  lemma {:induction false} NewestChanges<S, F>(codec: Codec<S, F>, generations: map<nat, F>, name: nat, content: F,
                                               session: S)
    requires !NewerReadable(codec, generations, name)
    ensures var after, without := generations[name := content], generations - {name};
      && (Readable(codec, content) ==>
            (Recovers(codec, after, session) <==> codec.decode(content) == Some(session))
            && !NoneReadable(codec, after))
      && (!Readable(codec, content) ==>
            (Recovers(codec, after, session) <==> Recovers(codec, without, session))
            && (NoneReadable(codec, after) <==> NoneReadable(codec, without)))
  {
    var after, without := generations[name := content], generations - {name};
    if Readable(codec, content) {
      assert Newest(codec, after, name);
      if Recovers(codec, after, session) {
        var m: nat :| Newest(codec, after, m) && codec.decode(after[m]) == Some(session);
        assert m == name;
      }
    } else {
      assert forall n: nat :: n in after && Readable(codec, after[n]) ==> n in without;
      assert forall n: nat :: Newest(codec, after, n) ==> Newest(codec, without, n);
      assert forall n: nat :: Newest(codec, without, n) ==> Newest(codec, after, n);
    }
  }

  /** A save over an unreadable active file, cut off anywhere. From the replacement on, loading gives the new session.
      Before it, loading gives what it gave before the save if and only if the copy of the unreadable file has not been
      begun or is not seen, or a newer generation is readable, or what the copy has come to reads as the very session
      given before, or it is unreadable and the others give that session without the generation written over. */
  lemma {:induction false} UnreadableCutOff<S(!new), F(!new)>(codec: Codec<S, F>, disk: Disk<F>, session: S,
                                                              names: Names, writes: seq<Write<F>>, cut: nat,
                                                              listing: Listing, before: Load<S>, after: Load<S>)
    requires Faithful(codec) && codec.normalize(session).Some?
    requires disk.current.Some? && !Readable(codec, disk.current.value)
    requires cut <= |writes| && StageAfter(disk, codec.encode(codec.normalize(session).value), names, writes).Some?
    requires Loads(codec, disk, listing, before) && Loads(codec, ApplyAll(disk, writes[..cut]), listing, after)
    ensures Replaced(names.temporary) in writes[..cut] ==> after == Loaded(codec.normalize(session).value, false)
    ensures Replaced(names.temporary) !in writes[..cut] ==>
      var name, now := names.generation, ApplyAll(disk, writes[..cut]).generations;
      (after == before <==>
       || now == disk.generations || name !in Seen(now, listing)
       || NewerReadable(codec, Seen(disk.generations, listing), name)
       || if Readable(codec, now[name]) then before == Loaded(codec.decode(now[name]).value, true)
          else Loads(codec, disk.(generations := disk.generations - {name}), listing, before))
  {
    hide StageAfter, ApplyAll;
    var payload := codec.encode(codec.normalize(session).value);
    PrefixStage(disk, payload, names, writes, cut);
    SaveStages(disk, payload, names, writes[..cut]);
    if Replaced(names.temporary) !in writes[..cut] {
      OneGenerationWritten(disk, payload, names, writes[..cut]);
      OverwrittenLoads(codec, disk, ApplyAll(disk, writes[..cut]), names.generation, listing, before, after);
    }
  }

  lemma {:induction false} OverwrittenLoads<S(!new), F(!new)>(codec: Codec<S, F>, disk: Disk<F>, now: Disk<F>,
                                                              name: nat, listing: Listing, before: Load<S>,
                                                              after: Load<S>)
    requires disk.current.Some? && !Readable(codec, disk.current.value) && now.current == disk.current
    requires now.generations == disk.generations || (name in now.generations
               && now.generations == disk.generations[name := now.generations[name]])
    requires Loads(codec, disk, listing, before) && Loads(codec, now, listing, after)
    ensures after == before <==>
      || now.generations == disk.generations || name !in Seen(now.generations, listing)
      || NewerReadable(codec, Seen(disk.generations, listing), name)
      || if Readable(codec, now.generations[name]) then
           before == Loaded(codec.decode(now.generations[name]).value, true)
         else Loads(codec, disk.(generations := disk.generations - {name}), listing, before)
  {
    var seen := Seen(disk.generations, listing);
    if after != before && Loads(codec, now, listing, before) {
      LoadIsDetermined(codec, now, listing, before, after);
    }
    if now.generations != disk.generations && listing.AllBut? {
      var content := now.generations[name];
      if name in listing.missed {
        assert Seen(now.generations, listing) == seen;
      } else {
        assert Seen(now.generations, listing) == seen[name := content];
        assert Seen(disk.generations - {name}, listing) == seen - {name};
        forall session: S
          ensures Recovers(codec, seen[name := content], session) <==>
                  if NewerReadable(codec, seen, name) then Recovers(codec, seen, session)
                  else if Readable(codec, content) then codec.decode(content) == Some(session)
                  else Recovers(codec, seen - {name}, session)
          ensures NoneReadable(codec, seen[name := content]) <==>
                  if NewerReadable(codec, seen, name) then NoneReadable(codec, seen)
                  else !Readable(codec, content) && NoneReadable(codec, seen - {name})
        {
          if NewerReadable(codec, seen, name) {
            OlderChanges(codec, seen, name, content, session);
          } else {
            NewestChanges(codec, seen, name, content, session);
          }
        }
      }
    }
  }

  /** With a name of its own for the copy, and no part of the unreadable file readable, a save cut off before the
      replacement leaves loading as it was. */
  lemma {:induction false} FreshNameCutOff<S(!new), F(!new)>(codec: Codec<S, F>, disk: Disk<F>, session: S,
                                                             names: Names, writes: seq<Write<F>>, cut: nat,
                                                             listing: Listing, before: Load<S>, after: Load<S>)
    requires Faithful(codec) && codec.normalize(session).Some?
    requires disk.current.Some? && !Readable(codec, disk.current.value) && names.generation !in disk.generations
    requires cut <= |writes| && StageAfter(disk, codec.encode(codec.normalize(session).value), names, writes).Some?
    requires Replaced(names.temporary) !in writes[..cut]
    requires forall write :: write in writes && write.Generation? ==> !Readable(codec, write.content)
    requires Loads(codec, disk, listing, before) && Loads(codec, ApplyAll(disk, writes[..cut]), listing, after)
    ensures after == before
  {
    var payload := codec.encode(codec.normalize(session).value);
    PrefixStage(disk, payload, names, writes, cut);
    OneGenerationWritten(disk, payload, names, writes[..cut]);
    UnreadableCutOff(codec, disk, session, names, writes, cut, listing, before, after);
    assert disk.generations - {names.generation} == disk.generations;
  }

  // Generations with at least GENERATIONS_TO_KEEP newer ones.
  function Newer(names: set<nat>, name: nat): set<nat> {
    set n | n in names && n > name
  }

  predicate Stale(names: set<nat>, name: nat) {
    |Newer(names, name)| >= GENERATIONS_TO_KEEP
  }

  ghost predicate Descending(s: seq<nat>) {
    forall i, j :: 0 <= i < j < |s| ==> s[i] > s[j]
  }

  function Members(s: seq<nat>): set<nat> {
    set x | x in s
  }

  lemma {:induction false} MembersCount(s: seq<nat>)
    requires Descending(s)
    ensures |Members(s)| == |s|
  {
    if s != [] {
      var n := |s| - 1;
      MembersCount(s[..n]);
      assert Members(s) == Members(s[..n]) + {s[n]};
    }
  }

  /** In the list of names, newest first, the stale ones are those past the first twenty. */
  lemma {:induction false} StaleIsTail(s: seq<nat>, i: nat)
    requires Descending(s) && i < |s|
    ensures Stale(Members(s), s[i]) <==> i >= 20
  {
    assert Newer(Members(s), s[i]) == Members(s[..i]);
    MembersCount(s[..i]);
  }

  // The generations after the active file has been copied, and after pruning all that could be removed.
  function BackedUp<F>(disk: Disk<F>, name: nat): map<nat, F> {
    if disk.current.None? then disk.generations else disk.generations[name := disk.current.value]
  }

  function Pruned<F>(generations: map<nat, F>, missed: set<nat>, stuck: set<nat>): map<nat, F> {
    map n | n in generations && (n in missed || !Stale(generations.Keys - missed, n) || n in stuck) :: generations[n]
  }

  // What the file system answers during one save, and the contents its unfinished writes
  // go through; `room` tells whether the directories could be made and there is space.
  datatype World<F> = World(room: bool, names: Names, copying: seq<F>, copied: bool, writing: seq<F>, written: bool,
                            replaced: bool, listing: Listing, stuck: set<nat>)

  datatype SaveError = Invalid | NoRoom | CopyFailed | WriteFailed | ReplaceFailed | PruneFailed

  datatype SaveResult = Saved | SaveFailed(error: SaveError)

  // A file whose writing was given up holds what was written last, if anything was.
  function Partly<F>(files: map<nat, F>, name: nat, contents: seq<F>): map<nat, F> {
    if contents == [] then files else files[name := contents[|contents| - 1]]
  }

  // The disk and the answer after a save, for every answer of the file system.
  function SaveEffect<S, F>(codec: Codec<S, F>, disk: Disk<F>, session: S, world: World<F>): (Disk<F>, SaveResult) {
    var generation, temporary := world.names.generation, world.names.temporary;
    match codec.normalize(session)
    case None => (disk, SaveFailed(Invalid))
    case Some(normalized) =>
      var payload := codec.encode(normalized);
      if !world.room then (disk, SaveFailed(NoRoom))
      else if disk.current.Some? && !world.copied then
        (disk.(generations := Partly(disk.generations, generation, world.copying)), SaveFailed(CopyFailed))
      else
        var backed := disk.(generations := BackedUp(disk, generation));
        if !world.written then
          (backed.(temporaries := Partly(disk.temporaries, temporary, world.writing)), SaveFailed(WriteFailed))
        else if !world.replaced then
          (backed.(temporaries := disk.temporaries[temporary := payload]), SaveFailed(ReplaceFailed))
        else
          var exchanged := backed.(current := Some(payload), temporaries := disk.temporaries - {temporary});
          match world.listing
          case CannotList => (exchanged, SaveFailed(PruneFailed))
          case AllBut(missed) =>
            (exchanged.(generations := Pruned(exchanged.generations, missed, world.stuck)), Saved)
  }

  /** What a save leaves among the generations: the copy of the active file, if there was one, once it is complete; then
      after a successful save every generation but those seen, removable, and with twenty newer ones seen. */
  lemma {:induction false} GenerationsLeft<S, F>(codec: Codec<S, F>, disk: Disk<F>, session: S, world: World<F>,
                                                 name: nat)
    ensures var (after, r) := SaveEffect(codec, disk, session, world);
      var copied := if disk.current.None? then disk.generations
                    else disk.generations[world.names.generation := disk.current.value];
      && (r in {SaveFailed(Invalid), SaveFailed(NoRoom)} ==> after == disk)
      && (r == SaveFailed(CopyFailed) ==>
            && after.temporaries == disk.temporaries
            && after.generations == if world.copying == [] then disk.generations
                                    else disk.generations[world.names.generation := world.copying[|world.copying| - 1]])
      && (r in {SaveFailed(WriteFailed), SaveFailed(ReplaceFailed), SaveFailed(PruneFailed)} ==>
            after.generations == copied)
      && (r == Saved ==>
            var seen := copied.Keys - world.listing.missed;
            && (name in after.generations <==>
                name in copied && !(name in seen && name !in world.stuck && |set n | n in seen && n > name| >= 20))
            && (name in after.generations ==> after.generations[name] == copied[name]))
  {
    if codec.normalize(session).Some? && world.listing.AllBut? {
      assert Newer(BackedUp(disk, world.names.generation).Keys - world.listing.missed, name) ==
             set n | n in BackedUp(disk, world.names.generation).Keys - world.listing.missed && n > name;
    }
  }

  /** A save reaches the pruning exactly when everything before it succeeds; then the active file is the new one,
      whether or not the save succeeds, and otherwise it is the old one and the save fails. So an error leaves the
      active file in place if and only if it is not the error of the pruning, or the new file is the old one. */
  lemma {:induction false} ErrorsAndFiles<S, F>(codec: Codec<S, F>, disk: Disk<F>, session: S, world: World<F>)
    ensures var (after, r) := SaveEffect(codec, disk, session, world);
      var valid, backed := codec.normalize(session).Some?, disk.current.None? || world.copied;
      && (r == SaveFailed(Invalid) <==> !valid)
      && (r == SaveFailed(NoRoom) <==> valid && !world.room)
      && (r == SaveFailed(CopyFailed) <==> valid && world.room && !backed)
      && (r == SaveFailed(WriteFailed) <==> valid && world.room && backed && !world.written)
      && (r == SaveFailed(ReplaceFailed) <==> valid && world.room && backed && world.written && !world.replaced)
      && (r == SaveFailed(PruneFailed) <==>
          valid && world.room && backed && world.written && world.replaced && world.listing.CannotList?)
      && (r == Saved <==> valid && world.room && backed && world.written && world.replaced && world.listing.AllBut?)
      && (if r == Saved || r == SaveFailed(PruneFailed)
          then valid && after.current == Some(codec.encode(codec.normalize(session).value))
          else after.current == disk.current)
      && (r == SaveFailed(PruneFailed) ==> after.generations == BackedUp(disk, world.names.generation))
      && (r.SaveFailed? ==> (after.current == disk.current <==>
          r.error != PruneFailed || disk.current == Some(codec.encode(codec.normalize(session).value))))
  {
  }
}
