/** Conservation: no interleaving of apply, relocate and revert, each stopped after any file step,
    loses the starting bytes of an audio file, as long as relocated albums are flat. */
module LibraryConservation {
  import opened Basics
  import opened LibraryTree
  import opened LibraryScripts
  import opened LibraryUndo

  datatype Call =
    | Apply(album: Path, artist: string, id: string)
    | Relocate(album: Path, artist: string, id: string)
    | Revert(id: string)

  /** A call that is killed after `stop` file steps (or finishes, when its script is no longer). */
  datatype Event = Event(call: Call, stop: nat)

  ghost function ScriptOf(w: World, c: Call): seq<FileStep> {
    match c
    case Apply(album, artist, id) =>
      if IsDir(w, album) then ApplyScript(album, AudioFiles(w, album), artist, id) else []
    case Relocate(album, artist, id) =>
      if RelocateEnabled(w, album, artist)
      then RelocateScript(album, Destination(album, artist), AudioFiles(w, album), artist, id)
      else []
    case Revert(id) => RevertScript(w, id)
  }

  ghost function After(w: World, ev: Event): World {
    Exec(w, Take(ScriptOf(w, ev.call), ev.stop))
  }

  /** The bytes at p will be in a backup once the album is backed up: they are already, or some track directly in
      the album has the same bytes (p itself, if it is one). */
  ghost predicate Saved(w: World, album: Path, p: Path)
    requires p in w.files
  {
    InBackups(w, w.files[p]) ||
    exists f :: IsAudioName(f) && album + [f] in w.files && w.files[album + [f]] == w.files[p]
  }

  /** Every one of these files that is audio below the album is saved by backing the album up. */
  ghost predicate Secured(w: World, album: Path, keep: set<Path>) {
    forall p :: p in keep && p in w.files && IsAudio(p) && album <= p ==> Saved(w, album, p)
  }

  /** The files that are still where and what they were. */
  ghost function Untouched(start: World, w: World): set<Path> {
    set p | p in start.files && p in w.files && w.files[p] == start.files[p]
  }

  /** A call draws a fresh id, and an album is moved only if the starting files still in it are saved by its
      backup: flat albums always are. */
  ghost predicate Admissible(start: World, w: World, c: Call) {
    match c
    case Apply(_, _, id) => Fresh(w, id)
    case Relocate(album, artist, id) =>
      Fresh(w, id) && PlainName(SafeArtist(artist)) && Secured(w, album, Untouched(start, w))
    case Revert(_) => true
  }

  lemma FlatIsSecured(w: World, album: Path, keep: set<Path>)
    requires forall p :: p in w.files && IsAudio(p) && album <= p ==> Parent(p) == album
    ensures Secured(w, album, keep)
  {
    forall p | p in keep && p in w.files && IsAudio(p) && album <= p ensures Saved(w, album, p) {
      assert p == Parent(p) + [Last(p)];
    }
  }

  ghost predicate AllAdmissible(start: World, w: World, events: seq<Event>)
    decreases |events|
  {
    events == [] ||
    (Admissible(start, w, events[0].call) && AllAdmissible(start, After(w, events[0]), events[1..]))
  }

  ghost function AfterAll(w: World, events: seq<Event>): World
    decreases |events|
  {
    if events == [] then w else AfterAll(After(w, events[0]), events[1..])
  }

  ghost predicate InBackups(w: World, c: Content) { exists k :: k in w.backups && w.backups[k] == c }

  /** The bytes c are still somewhere: in an audio file of the library or in a backup directory. */
  ghost predicate Survives(w: World, c: Content) {
    InBackups(w, c) || exists p :: p in w.files && IsAudio(p) && w.files[p] == c
  }

  /** A revert of a recorded change could overwrite or move whatever sits at p. */
  ghost predicate Endangered(ledger: seq<Entry>, p: Path) {
    exists i :: 0 <= i < |ledger| && EntryEndangers(ledger[i], p)
  }

  predicate EntryEndangers(e: Entry, p: Path) {
    !e.op.Reverted? && (IsTarget(p, e.path, e.names) || (e.op.Relocated? && e.op.newPath <= p))
  }

  /** Each starting audio file is backed up, or is where and what it was and out of every revert's way. */
  ghost predicate Kept(start: World, w: World) {
    forall p :: p in start.files && IsAudio(p) ==>
      || InBackups(w, start.files[p])
      || (p in w.files && w.files[p] == start.files[p] && !Endangered(w.ledger, p))
  }

  // ---------------------------------------------------------------------------
  // scripts stopped part-way
  // ---------------------------------------------------------------------------

  lemma {:induction false} ExecTake(w: World, a: seq<FileStep>, b: seq<FileStep>, n: nat)
    ensures Exec(w, Take(a + b, n)) ==
              if n <= |a| then Exec(w, Take(a, n))
              else if Completes(w, a) then Exec(Exec(w, a), Take(b, n - |a|))
              else Exec(w, a)
    decreases |a|
  {
    if a == [] {
      assert a + b == b;
      assert n == 0 ==> Take(b, n) == [] == Take(a, n);
    } else if n == 0 {
      assert Take(a + b, n) == [] == Take(a, n);
    } else {
      var t := Take(a + b, n);
      assert t[0] == a[0];
      assert t[1..] == Take(a[1..] + b, n - 1);
      if CanDo(w, a[0]) {
        ExecTake(Do(w, a[0]), a[1..], b, n - 1);
        assert Take(a, n)[0] == a[0];
        assert n <= |a| ==> Take(a, n)[1..] == Take(a[1..], n - 1);
      }
    }
  }

  /** The step leaves the file at p where and what it is. */
  predicate Spares(s: FileStep, p: Path) {
    match s
    case Retag(target, _) => target != p
    case RetagBestEffort(target, _) => target != p
    case Move(src, _) => !(src <= p)
    case Restore(_, _, target, _) => target != p
    case _ => true
  }

  lemma SparedByStep(w: World, s: FileStep, p: Path)
    requires WellFormed(w) && CanDo(w, s) && p in w.files && Spares(s, p)
    ensures p in Do(w, s).files && Do(w, s).files[p] == w.files[p]
  {
    match s
    case MakeDirectory(d) => MakeDirsFacts(w, d);
    case Move(src, dst) =>
      MoveIsRename(w, src, dst);
      assert Reloc(p, src, dst) == p;
    case _ =>
  }

  lemma {:induction false} SparedByScript(w: World, script: seq<FileStep>, p: Path)
    requires WellFormed(w) && p in w.files
    requires forall s :: s in script ==> Spares(s, p)
    ensures p in Exec(w, script).files && Exec(w, script).files[p] == w.files[p]
    decreases |script|
  {
    if script != [] && CanDo(w, script[0]) {
      SparedByStep(w, script[0], p);
      StepKeepsTree(w, script[0]);
      SparedByScript(Do(w, script[0]), script[1..], p);
    }
  }

  lemma {:induction false} LedgerUntouched(w: World, script: seq<FileStep>)
    requires WellFormed(w)
    requires forall s :: s in script ==> !s.Record?
    ensures Exec(w, script).ledger == w.ledger
    decreases |script|
  {
    if script != [] && CanDo(w, script[0]) {
      if script[0].MakeDirectory? { MakeDirsFacts(w, script[0].dir); }
      StepKeepsTree(w, script[0]);
      LedgerUntouched(Do(w, script[0]), script[1..]);
    }
  }

  lemma {:induction false} BackupsUntouched(w: World, script: seq<FileStep>)
    requires WellFormed(w)
    requires forall s :: s in script ==> !s.Backup?
    ensures Exec(w, script).backups == w.backups
    decreases |script|
  {
    if script != [] && CanDo(w, script[0]) {
      if script[0].MakeDirectory? { MakeDirsFacts(w, script[0].dir); }
      StepKeepsTree(w, script[0]);
      BackupsUntouched(Do(w, script[0]), script[1..]);
    }
  }

  /** A script that records once, at its end, has recorded its entry or nothing. */
  lemma RecordsAtTheEnd(w: World, a: seq<FileStep>, e: Entry, n: nat)
    requires WellFormed(w) && forall s :: s in a ==> !s.Record?
    ensures var v := Exec(w, Take(a + [Record(e)], n)); v.ledger == w.ledger || v.ledger == w.ledger + [e]
  {
    ExecTake(w, a, [Record(e)], n);
    LedgerUntouched(w, Take(a, n));
    LedgerUntouched(w, a);
    ExecKeepsTree(w, a);
    if n > |a| {
      assert Take([Record(e)], n - |a|) == [Record(e)];
      ExecRecord(Exec(w, a), e);
    }
  }

  // ---------------------------------------------------------------------------
  // changes
  // ---------------------------------------------------------------------------

  ghost predicate KeptAudio(w: World, keep: set<Path>, p: Path) { p in keep && p in w.files && IsAudio(p) }

  /** Whatever of these files the entry endangers is backed up in v. */
  ghost predicate Covered(w: World, v: World, e: Entry, keep: set<Path>) {
    forall p :: KeptAudio(w, keep, p) && EntryEndangers(e, p) ==> InBackups(v, w.files[p])
  }

  /** What a change, finished or not, does to these audio files: each is left as it is or backed up first, and
      whatever its ledger entry endangers is backed up. */
  ghost predicate Careful(w: World, v: World, keep: set<Path>) {
    && BackupsGrow(w, v)
    && (forall p :: KeptAudio(w, keep, p) ==> InBackups(v, w.files[p]) || (p in v.files && v.files[p] == w.files[p]))
    && (v.ledger == w.ledger || exists e :: v.ledger == w.ledger + [e] && Covered(w, v, e, keep))
  }

  lemma CarefulKeeps(start: World, w: World, v: World)
    requires Kept(start, w) && Careful(w, v, Untouched(start, w))
    ensures Kept(start, v)
  {
    var keep := Untouched(start, w);
    forall p | p in start.files && IsAudio(p)
      ensures || InBackups(v, start.files[p])
              || (p in v.files && v.files[p] == start.files[p] && !Endangered(v.ledger, p))
    {
      var c := start.files[p];
      if InBackups(w, c) {
        var k :| k in w.backups && w.backups[k] == c;
        assert k in v.backups && v.backups[k] == c;
      } else if !InBackups(v, c) {
        assert KeptAudio(w, keep, p);
        if v.ledger != w.ledger {
          var e :| v.ledger == w.ledger + [e] && Covered(w, v, e, keep);
          assert !EntryEndangers(e, p);
        }
      }
    }
  }

  ghost predicate NotYetBackedUp(w: World, names: seq<string>, id: string) {
    forall f :: f in names ==> BackupKey(id, f) !in w.backups
  }

  /** w2 is w with the file at path changed and its old bytes in a backup. */
  ghost predicate OneBackedUp(w: World, w2: World, path: Path) {
    && BackupsGrow(w, w2) && w2.ledger == w.ledger && path in w.files && InBackups(w2, w.files[path])
    && forall p :: p in w.files && p != path ==> p in w2.files && w2.files[p] == w.files[p]
  }

  lemma BackupFirst(w: World, path: Path, name: string, id: string, w1: World)
    requires BackupKey(id, name) !in w.backups
    requires CanDo(w, Backup(id, name, path)) && w1 == Do(w, Backup(id, name, path))
    ensures w1.files == w.files && OneBackedUp(w, w1, path)
  {
    assert BackupKey(id, name) in w1.backups;
  }

  lemma ExecFirst(w: World, t: seq<FileStep>)
    ensures t == [] || !CanDo(w, t[0]) ==> Exec(w, t) == w
    ensures t != [] && CanDo(w, t[0]) ==> Exec(w, t) == Exec(Do(w, t[0]), t[1..])
  {}

  /** The first track of an apply: the run is cut while it is worked on, or goes on with the other tracks. */
  lemma FirstRetag(w: World, dir: Path, names: seq<string>, artist: string, id: string, n: nat, path: Path)
      returns (stops: bool, w2: World)
    requires Distinct(names) && NotYetBackedUp(w, names, id) && names != [] && path == dir + [names[0]]
    ensures var v := Exec(w, Take(RetagSteps(dir, names, artist, id), n));
            if stops then v == w2 && w2.files == w.files && w2.ledger == w.ledger && BackupsGrow(w, w2)
            else n >= 2 && v == Exec(w2, Take(RetagSteps(dir, names[1..], artist, id), n - 2))
    ensures !stops ==> OneBackedUp(w, w2, path) && NotYetBackedUp(w2, names[1..], id)
  {
    var b, r := Backup(id, names[0], path), Retag(path, artist);
    var rest := RetagSteps(dir, names[1..], artist, id);
    var t := Take([b, r] + rest, n);
    ExecFirst(w, t);
    if n == 0 || !CanDo(w, b) { return true, w; }
    var w1 := Do(w, b);
    assert names[0] in names;
    BackupFirst(w, path, names[0], id, w1);
    ExecFirst(w1, t[1..]);
    if n == 1 || !CanDo(w1, r) { return true, w1; }
    assert t[1..][1..] == Take(rest, n - 2);
    DistinctTail(names);
    return false, Do(w1, r);
  }

  lemma {:induction false} RetagPrefix(w: World, dir: Path, names: seq<string>, artist: string, id: string, n: nat,
                                       keep: set<Path>)
    requires Distinct(names) && NotYetBackedUp(w, names, id)
    ensures var v := Exec(w, Take(RetagSteps(dir, names, artist, id), n));
            Careful(w, v, keep) && v.ledger == w.ledger
    decreases |names|
  {
    if names != [] {
      DistinctTail(names);
      var stops, w2 := FirstRetag(w, dir, names, artist, id, n, dir + [names[0]]);
      if !stops {
        RetagPrefix(w2, dir, names[1..], artist, id, n - 2, keep);
        CarefulAfterOne(w, w2, Exec(w, Take(RetagSteps(dir, names, artist, id), n)), dir + [names[0]], keep);
      }
    }
  }

  lemma CarefulAfterOne(w: World, w2: World, v: World, path: Path, keep: set<Path>)
    requires OneBackedUp(w, w2, path) && v.ledger == w2.ledger && Careful(w2, v, keep)
    ensures Careful(w, v, keep)
  {
    var k :| k in w2.backups && w2.backups[k] == w.files[path];
    assert k in v.backups && v.backups[k] == w.files[path];
    forall p | KeptAudio(w, keep, p)
      ensures InBackups(v, w.files[p]) || (p in v.files && v.files[p] == w.files[p])
    {
      if p != path { assert KeptAudio(w2, keep, p); }
    }
  }

  lemma ApplyIsCareful(w: World, album: Path, names: seq<string>, artist: string, id: string, n: nat,
                       keep: set<Path>)
    requires Fresh(w, id) && Distinct(names)
    ensures Careful(w, Exec(w, Take(ApplyScript(album, names, artist, id), n)), keep)
  {
    var steps := RetagSteps(album, names, artist, id);
    ExecTake(w, steps, [Record(Entry(id, Retagged, album, names))], n);
    if n <= |steps| {
      RetagPrefix(w, album, names, artist, id, n, keep);
    } else {
      RetagPrefix(w, album, names, artist, id, |steps|, keep);
      assert Take(steps, |steps|) == steps;
      if Completes(w, steps) {
        FullApplyIsCareful(w, album, names, artist, id, n - |steps|, keep);
      }
    }
  }

  lemma FullApplyIsCareful(w: World, album: Path, names: seq<string>, artist: string, id: string, n: nat,
                           keep: set<Path>)
    requires n > 0 && Distinct(names)
    requires var steps := RetagSteps(album, names, artist, id);
             Completes(w, steps) && Careful(w, Exec(w, steps), keep) && Exec(w, steps).ledger == w.ledger
    ensures Careful(w, Exec(Exec(w, RetagSteps(album, names, artist, id)),
                            Take([Record(Entry(id, Retagged, album, names))], n)), keep)
  {
    var e := Entry(id, Retagged, album, names);
    var v := Exec(w, RetagSteps(album, names, artist, id));
    RetagLoop(w, album, names, artist, id);
    assert Take([Record(e)], n) == [Record(e)];
    ExecRecord(v, e);
    TakenIsInBackups(w, v, album, names, id);
    RecordIsCareful(w, v, e, keep);
  }

  lemma TakenIsInBackups(w: World, v: World, dir: Path, names: seq<string>, id: string)
    requires BackupsTaken(w, v.backups, dir, names, id)
    ensures forall p :: p in w.files && IsTarget(p, dir, names) ==> InBackups(v, w.files[p])
  {
    forall p | p in w.files && IsTarget(p, dir, names) ensures InBackups(v, w.files[p]) {
      assert p == dir + [Last(p)];
      assert BackupKey(id, Last(p)) in v.backups;
    }
  }

  lemma RecordIsCareful(w: World, v: World, e: Entry, keep: set<Path>)
    requires Careful(w, v, keep) && v.ledger == w.ledger && Covered(w, v, e, keep)
    ensures Careful(w, v.(ledger := v.ledger + [e]), keep)
  {
    var z := v.(ledger := v.ledger + [e]);
    forall c | InBackups(v, c) ensures InBackups(z, c) {
      var k :| k in v.backups && v.backups[k] == c;
      assert k in z.backups;
    }
    assert z.ledger == w.ledger + [e] && Covered(w, z, e, keep);
  }

  lemma {:induction false} BackupPrefix(w: World, dir: Path, names: seq<string>, id: string, n: nat)
    requires Distinct(names) && NotYetBackedUp(w, names, id)
    ensures var v := Exec(w, Take(BackupSteps(dir, names, id), n));
            v == w.(backups := v.backups) && BackupsGrow(w, v)
    decreases |names|
  {
    var steps := BackupSteps(dir, names, id);
    var t := Take(steps, n);
    if names != [] && n > 0 && CanDo(w, steps[0]) {
      DistinctTail(names);
      assert t[0] == steps[0] && t[1..] == Take(BackupSteps(dir, names[1..], id), n - 1);
      BackupPrefix(Do(w, steps[0]), dir, names[1..], id, n - 1);
    }
  }

  /** The part of a relocation after the backups, up to its record. */
  function MoveAndTag(album: Path, dst: Path, names: seq<string>, artist: string): seq<FileStep>
    requires dst != []
  {
    [MakeDirectory(Parent(dst)), Move(album, dst)] + BestEffortSteps(dst, names, artist)
  }

  lemma {:induction false} BestEffortTargets(dir: Path, names: seq<string>, artist: string)
    ensures forall s :: s in BestEffortSteps(dir, names, artist) ==> s.RetagBestEffort? && dir <= s.target
    decreases |names|
  {
    if names != [] { BestEffortTargets(dir, names[1..], artist); }
  }

  lemma MoveAndTagSpares(album: Path, dst: Path, names: seq<string>, artist: string, p: Path)
    requires dst != [] && !(album <= p) && !(dst <= p)
    ensures forall s :: s in MoveAndTag(album, dst, names, artist) ==> Spares(s, p)
  {
    BestEffortTargets(dst, names, artist);
  }

  lemma TakeSubset(s: seq<FileStep>, n: nat)
    ensures forall x :: x in Take(s, n) ==> x in s
  {}

  /** The rest of a relocation, once these audio files of the album are backed up. */
  lemma MoveIsCareful(w: World, b: World, album: Path, dst: Path, names: seq<string>, artist: string, e: Entry, n: nat,
                      keep: set<Path>)
    requires WellFormed(b) && Clear(w, dst) && dst != []
    requires b == w.(backups := b.backups) && BackupsGrow(w, b) && Covered(w, b, e, keep)
    requires forall p :: KeptAudio(w, keep, p) && album <= p ==> InBackups(b, w.files[p])
    ensures Careful(w, Exec(b, Take(MoveAndTag(album, dst, names, artist) + [Record(e)], n)), keep)
  {
    var steps := MoveAndTag(album, dst, names, artist);
    var t := Take(steps + [Record(e)], n);
    var v := Exec(b, t);
    BestEffortTargets(dst, names, artist);
    TakeSubset(steps + [Record(e)], n);
    RecordsAtTheEnd(b, steps, e, n);
    BackupsUntouched(b, t);
    forall p | KeptAudio(w, keep, p)
      ensures InBackups(v, w.files[p]) || (p in v.files && v.files[p] == w.files[p])
    {
      if album <= p {
        SameBackups(b, v, w.files[p]);
      } else {
        MoveAndTagSpares(album, dst, names, artist, p);
        SparedByScript(b, t, p);
      }
    }
    forall p | KeptAudio(w, keep, p) && EntryEndangers(e, p) ensures InBackups(v, w.files[p]) {
      SameBackups(b, v, w.files[p]);
    }
  }

  lemma SameBackups(b: World, v: World, c: Content)
    requires b.backups == v.backups
    ensures InBackups(b, c) <==> InBackups(v, c)
  {}

  lemma RelocateIsCareful(w: World, album: Path, dst: Path, names: seq<string>, artist: string, id: string, n: nat,
                          keep: set<Path>)
    requires WellFormed(w) && Fresh(w, id) && Secured(w, album, keep) && dst != [] && !Exists(w, dst)
    requires Distinct(names) && ListsAudio(w, album, names)
    ensures Careful(w, Exec(w, Take(RelocateScript(album, dst, names, artist, id), n)), keep)
  {
    var e := Entry(id, Relocated(dst), album, names);
    var v, b, whole, m := RelocateCut(w, album, dst, names, artist, e, n);
    if whole {
      BackedUpThenMoved(w, b, v, album, dst, names, artist, e, m, keep);
    } else {
      BackingUpIsCareful(w, v, album, names, e.id, n, keep);
    }
  }

  /** A relocation cut short is all its backups and then the rest cut short, or its backups cut short. */
  lemma RelocateCut(w: World, album: Path, dst: Path, names: seq<string>, artist: string, e: Entry, n: nat)
      returns (v: World, b: World, whole: bool, m: nat)
    requires dst != [] && e == Entry(e.id, Relocated(dst), album, names)
    ensures v == Exec(w, Take(RelocateScript(album, dst, names, artist, e.id), n))
    ensures b == Exec(w, BackupSteps(album, names, e.id))
    ensures whole ==> Completes(w, BackupSteps(album, names, e.id))
    ensures whole ==> v == Exec(b, Take(MoveAndTag(album, dst, names, artist) + [Record(e)], m))
    ensures !whole ==> v == Exec(w, Take(BackupSteps(album, names, e.id), n))
  {
    var backup, rest := BackupSteps(album, names, e.id), MoveAndTag(album, dst, names, artist) + [Record(e)];
    assert RelocateScript(album, dst, names, artist, e.id) == backup + rest;
    ExecTake(w, backup, rest, n);
    v, b := Exec(w, Take(backup + rest, n)), Exec(w, backup);
    whole, m := n > |backup| && Completes(w, backup), Max(0, n - |backup|);
  }

  lemma BackingUpIsCareful(w: World, v: World, album: Path, names: seq<string>, id: string, n: nat, keep: set<Path>)
    requires Distinct(names) && Fresh(w, id) && v == Exec(w, Take(BackupSteps(album, names, id), n))
    ensures Careful(w, v, keep)
  {
    BackupPrefix(w, album, names, id, n);
  }

  lemma BackedUpThenMoved(w: World, b: World, v: World, album: Path, dst: Path, names: seq<string>, artist: string,
                          e: Entry, n: nat, keep: set<Path>)
    requires WellFormed(w) && Fresh(w, e.id) && Secured(w, album, keep) && dst != [] && !Exists(w, dst)
    requires Distinct(names) && ListsAudio(w, album, names)
    requires e == Entry(e.id, Relocated(dst), album, names)
    requires Completes(w, BackupSteps(album, names, e.id))
    requires b == Exec(w, BackupSteps(album, names, e.id))
    requires v == Exec(b, Take(MoveAndTag(album, dst, names, artist) + [Record(e)], n))
    ensures Careful(w, v, keep)
  {
    var steps := BackupSteps(album, names, e.id);
    BackupPrefix(w, album, names, e.id, |steps|);
    assert Take(steps, |steps|) == steps;
    BackupLoop(w, album, names, e.id);
    AbsentIsClear(w, dst);
    AlbumIsBackedUp(w, b, e, keep);
    MoveIsCareful(w, b, album, dst, names, artist, e, n, keep);
  }

  ghost predicate ListsAudio(w: World, dir: Path, names: seq<string>) {
    forall f :: f in names <==> dir + [f] in w.files && IsAudioName(f)
  }

  lemma AlbumIsBackedUp(w: World, b: World, e: Entry, keep: set<Path>)
    requires e.op.Relocated? && Clear(w, e.op.newPath) && Secured(w, e.path, keep) && ListsAudio(w, e.path, e.names)
    requires BackupsTaken(w, b.backups, e.path, e.names, e.id) && Fresh(w, e.id)
    ensures forall p :: KeptAudio(w, keep, p) && e.path <= p ==> InBackups(b, w.files[p])
    ensures Covered(w, b, e, keep)
  {
    forall p | KeptAudio(w, keep, p) && e.path <= p ensures InBackups(b, w.files[p]) {
      SavedIffBackedUp(w, b, e.path, e.names, e.id, p);
    }
    TakenIsInBackups(w, b, e.path, e.names, e.id);
  }

  /** After the album's backups were taken, a file's bytes are in a backup exactly when it is saved. */
  lemma SavedIffBackedUp(w: World, b: World, album: Path, names: seq<string>, id: string, p: Path)
    requires BackupsTaken(w, b.backups, album, names, id) && Fresh(w, id) && ListsAudio(w, album, names) && p in w.files
    ensures InBackups(b, w.files[p]) <==> Saved(w, album, p)
  {
    var c := w.files[p];
    if InBackups(b, c) {
      var k :| k in b.backups && b.backups[k] == c;
      if k in w.backups {
        assert k.id != id;
        assert w.backups[k] == c;
      } else {
        assert k.id == id && k == BackupKey(id, k.name) && k.name in names;
        assert w.files[album + [k.name]] == c;
      }
    }
    if k :| k in w.backups && w.backups[k] == c {
      assert k.id != id;
      assert k in b.backups && b.backups[k] == c;
    }
    if f :| IsAudioName(f) && album + [f] in w.files && w.files[album + [f]] == c {
      assert f in names && BackupKey(id, f) in b.backups;
    }
  }

  /** What a completed relocation has in its backups: the bytes of a file are there exactly when they were in a
      backup before or are those of a track directly in the album; audio in sub-folders is not backed up. */
  lemma RelocateBacksUpIff(w: World, album: Path, dst: Path, names: seq<string>, artist: string, id: string, p: Path)
    requires WellFormed(w) && Fresh(w, id) && dst != [] && Distinct(names) && ListsAudio(w, album, names)
    requires p in w.files && Completes(w, RelocateScript(album, dst, names, artist, id))
    ensures InBackups(Exec(w, RelocateScript(album, dst, names, artist, id)), w.files[p]) <==> Saved(w, album, p)
  {
    var b, m, r := RelocateStages(w, album, dst, names, artist, id);
    MakeDirsFacts(b, Parent(dst));
    SavedIffBackedUp(w, b, album, names, id, p);
    SameBackups(b, Exec(w, RelocateScript(album, dst, names, artist, id)), w.files[p]);
  }

  // ---------------------------------------------------------------------------
  // reverts
  // ---------------------------------------------------------------------------

  lemma {:induction false} RestoreTargets(dir: Path, names: seq<string>, id: string, onlyExisting: bool)
    ensures forall s :: s in RestoreSteps(dir, names, id, onlyExisting) ==>
              s.Restore? && IsTarget(s.target, dir, names)
    decreases |names|
  {
    if names != [] {
      RestoreTargets(dir, names[1..], id, onlyExisting);
      TargetPath(dir, names[0]);
      forall s | s in RestoreSteps(dir, names[1..], id, onlyExisting) ensures IsTarget(s.target, dir, names) {
        TargetCons(s.target, dir, names);
      }
    }
  }

  /** No step of a revert touches what the reverted entry does not endanger, and it only records a reversal. */
  lemma UndoStepsSpare(w: World, e: Entry, p: Path)
    requires !e.op.Reverted?
    ensures !EntryEndangers(e, p) ==> forall s :: s in UndoSteps(w, e) ==> Spares(s, p)
    ensures forall s :: s in UndoSteps(w, e) ==> !s.Backup? && (s.Record? ==> s.entry.op.Reverted?)
  {
    RestoreTargets(e.path, e.names, e.id, e.op.Relocated?);
  }

  lemma {:induction false} ReversalsEndangerNothing(w: World, script: seq<FileStep>, p: Path)
    requires WellFormed(w)
    requires forall s :: s in script ==> s.Record? ==> s.entry.op.Reverted?
    ensures Endangered(Exec(w, script).ledger, p) ==> Endangered(w.ledger, p)
    decreases |script|
  {
    if script != [] && CanDo(w, script[0]) {
      var w1 := Do(w, script[0]);
      if script[0].MakeDirectory? { MakeDirsFacts(w, script[0].dir); }
      StepKeepsTree(w, script[0]);
      ReversalsEndangerNothing(w1, script[1..], p);
      if Endangered(w1.ledger, p) {
        var i :| 0 <= i < |w1.ledger| && EntryEndangers(w1.ledger[i], p);
        assert w1.ledger[i] == w.ledger[i];
      }
    }
  }

  lemma RevertKeeps(start: World, w: World, id: string, n: nat)
    requires WellFormed(w) && Kept(start, w)
    ensures Kept(start, Exec(w, Take(RevertScript(w, id), n)))
  {
    var script := RevertScript(w, id);
    var t := Take(script, n);
    if Lookup(w.ledger, id).Some? {
      var e := Lookup(w.ledger, id).value;
      var v := Exec(w, t);
      TakeSubset(script, n);
      UndoStepsSpare(w, e, []);
      BackupsUntouched(w, t);
      forall p | p in start.files && IsAudio(p)
        ensures InBackups(v, start.files[p]) || (p in v.files && v.files[p] == start.files[p] &&
                                                 !Endangered(v.ledger, p))
      {
        SameBackups(w, v, start.files[p]);
        if !InBackups(w, start.files[p]) {
          var i :| 0 <= i < |w.ledger| && w.ledger[i] == e;
          assert !EntryEndangers(e, p);
          UndoStepsSpare(w, e, p);
          SparedByScript(w, t, p);
          ReversalsEndangerNothing(w, t, p);
        }
      }
    }
  }

  // ---------------------------------------------------------------------------
  // every run
  // ---------------------------------------------------------------------------

  lemma EventKeeps(start: World, w: World, ev: Event)
    requires WellFormed(w) && Kept(start, w) && Admissible(start, w, ev.call)
    ensures WellFormed(After(w, ev)) && Kept(start, After(w, ev))
  {
    ExecKeepsTree(w, Take(ScriptOf(w, ev.call), ev.stop));
    match ev.call
    case Apply(album, artist, id) =>
      if IsDir(w, album) {
        ApplyIsCareful(w, album, AudioFiles(w, album), artist, id, ev.stop, Untouched(start, w));
        CarefulKeeps(start, w, After(w, ev));
      }
    case Relocate(album, artist, id) =>
      if RelocateEnabled(w, album, artist) {
        RelocateIsCareful(w, album, Destination(album, artist), AudioFiles(w, album), artist, id, ev.stop,
                          Untouched(start, w));
        CarefulKeeps(start, w, After(w, ev));
      }
    case Revert(id) => RevertKeeps(start, w, id, ev.stop);
  }

  lemma {:induction false} RunKeeps(start: World, w: World, events: seq<Event>)
    requires WellFormed(w) && Kept(start, w) && AllAdmissible(start, w, events)
    ensures Kept(start, AfterAll(w, events))
    decreases |events|
  {
    if events != [] {
      EventKeeps(start, w, events[0]);
      RunKeeps(start, After(w, events[0]), events[1..]);
    }
  }

  /** After any calls in any order, each stopped anywhere, the starting bytes of every audio file are still in
      the library or in some backup directory; to start with, a file may lie where a recorded revert could
      overwrite it only if it is backed up (so an empty ledger will do). */
  lemma NothingIsLost(start: World, events: seq<Event>)
    requires WellFormed(start) && Kept(start, start) && AllAdmissible(start, start, events)
    ensures forall p :: p in start.files && IsAudio(p) ==> Survives(AfterAll(start, events), start.files[p])
  {
    RunKeeps(start, start, events);
  }
}
