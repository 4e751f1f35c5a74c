/** The identity memo: over any run of reads, changes and last-in-first-out reverts, a remembered album
    identity is what a fresh scan of the album's tags would give. */
module LibraryCache {
  import opened Basics
  import opened LibraryTree
  import opened LibraryScripts
  import opened LibraryUndo
  import opened LibraryIdentity
  import opened LibrarySession

  datatype Memo = Memo(mtime: nat, ident: Option<string>, at: int)
  type Cache = map<Path, Memo>

  const IDENT_TTL := 3600

  /** The memo answers for `dir`: it carries the directory's current modification time and is young enough. */
  predicate Hit(w: World, cache: Cache, dir: Path, now: int)
    requires IsDir(w, dir)
  {
    dir in cache && cache[dir].mtime == w.dirs[dir] && now - cache[dir].at < IDENT_TTL
  }

  /** _album_identity_mbid on an existing directory: the answer and the new memo table. */
  function Remember(w: World, cache: Cache, dir: Path, now: int): (Option<string>, Cache)
    requires IsDir(w, dir)
  {
    if Hit(w, cache, dir, now) then (cache[dir].ident, cache)
    else (Identity(w, dir), cache[dir := Memo(w.dirs[dir], Identity(w, dir), now)])
  }

  ghost predicate SameStamp(w: World, p: Path, q: Path) {
    p in w.dirs && q in w.dirs && w.dirs[p] == w.dirs[q]
  }

  ghost predicate DistinctStamps(w: World) {
    forall p, q {:trigger SameStamp(w, p, q)} :: SameStamp(w, p, q) ==> p == q
  }

  /** A remembered identity belongs to whichever directory carries its modification time now. */
  ghost predicate Coherent(w: World, cache: Cache) {
    && DistinctStamps(w)
    && (forall p :: p in cache ==> cache[p].mtime < w.clock)
    && (forall p, q :: p in cache && q in w.dirs && w.dirs[q] == cache[p].mtime ==> Identity(w, q) == cache[p].ident)
  }

  lemma RememberIsFresh(w: World, cache: Cache, dir: Path, now: int)
    requires WellFormed(w) && Coherent(w, cache) && IsDir(w, dir)
    ensures Remember(w, cache, dir, now).0 == Identity(w, dir)
    ensures Coherent(w, Remember(w, cache, dir, now).1)
  {
    if !Hit(w, cache, dir, now) {
      var m := Memo(w.dirs[dir], Identity(w, dir), now);
      var after := cache[dir := m];
      forall p, q | p in after && q in w.dirs && w.dirs[q] == after[p].mtime ensures Identity(w, q) == after[p].ident
      {
        if p == dir { assert SameStamp(w, q, dir); }
      }
    }
  }

  // ---------------------------------------------------------------------------
  // directories keep their identity along with their modification time
  // ---------------------------------------------------------------------------

  ghost predicate ComesFrom(w: World, v: World, q: Path) {
    q in v.dirs && exists p :: p in w.dirs && w.dirs[p] == v.dirs[q] && SameView(w, p, v, q)
  }

  /** Every directory of v whose modification time is older than w's clock is a directory of w with the
      same identifiers in it, possibly renamed. */
  ghost predicate Tracks(w: World, v: World) {
    && w.clock <= v.clock
    && DistinctStamps(v)
    && (forall q {:trigger ComesFrom(w, v, q)} :: q in v.dirs && v.dirs[q] < w.clock ==> ComesFrom(w, v, q))
  }

  lemma TracksKeepsCoherent(w: World, v: World, cache: Cache)
    requires Coherent(w, cache) && Tracks(w, v)
    ensures Coherent(v, cache)
  {
    forall p, q | p in cache && q in v.dirs && v.dirs[q] == cache[p].mtime ensures Identity(v, q) == cache[p].ident {
      assert ComesFrom(w, v, q);
      var q0 :| q0 in w.dirs && w.dirs[q0] == v.dirs[q] && SameView(w, q0, v, q);
      SameIdentity(w, q0, v, q);
    }
  }

  lemma TracksTransitive(a: World, b: World, c: World)
    requires Tracks(a, b) && Tracks(b, c)
    ensures Tracks(a, c)
  {
    forall q | q in c.dirs && c.dirs[q] < a.clock ensures ComesFrom(a, c, q) {
      assert ComesFrom(b, c, q);
      var q1 :| q1 in b.dirs && b.dirs[q1] == c.dirs[q] && SameView(b, q1, c, q);
      assert ComesFrom(a, b, q1);
      var q0 :| q0 in a.dirs && a.dirs[q0] == b.dirs[q1] && SameView(a, q0, b, q1);
      SameViewTransitive(a, q0, b, q1, c, q);
    }
  }

  lemma SameViewTransitive(a: World, p: Path, b: World, q: Path, c: World, r: Path)
    requires SameView(a, p, b, q) && SameView(b, q, c, r)
    ensures SameView(a, p, c, r)
  {}

  ghost predicate SameFilesView(files: map<Path, Content>, was: map<Path, Content>) {
    files.Keys == was.Keys && forall p :: p in was ==> SameMbids(was[p], files[p])
  }

  /** Rewriting files in place touches no directory and, with the identifiers unchanged, no identity. */
  lemma InPlaceTracks(w: World, v: World)
    requires DistinctStamps(w) && v.dirs == w.dirs && v.clock == w.clock && SameFilesView(v.files, w.files)
    ensures Tracks(w, v)
  {
    forall p, q | SameStamp(v, p, q) ensures p == q { assert SameStamp(w, p, q); }
    forall q | q in v.dirs ensures ComesFrom(w, v, q) {
      assert SameView(w, q, v, q);
    }
  }

  lemma {:induction false} MakeDirsTracks(w: World, d: Path)
    requires WellFormed(w) && DistinctStamps(w) && CanMakeDirs(w, d)
    ensures Tracks(w, MakeDirs(w, d))
    decreases |d|
  {
    if d == [] || d in w.dirs {
      InPlaceTracks(w, w);
    } else {
      var up := Parent(d);
      MakeDirsTracks(w, up);
      var w1 := MakeDirs(w, up);
      assert WellFormed(w1) by { MakeDirsFacts(w, up); }
      MakeOneTracks(w, w1, up, d);
      assert MakeDirs(w, d) == w1.(dirs := w1.dirs[up := w1.clock][d := w1.clock + 1], clock := w1.clock + 2);
    }
  }

  lemma MakeOneTracks(w: World, w1: World, up: Path, d: Path)
    requires WellFormed(w1) && Tracks(w, w1)
    ensures Tracks(w, w1.(dirs := w1.dirs[up := w1.clock][d := w1.clock + 1], clock := w1.clock + 2))
  {
    StampsTrack(w1, w1.dirs, up, d);
    TracksTransitive(w, w1, w1.(dirs := w1.dirs[up := w1.clock][d := w1.clock + 1], clock := w1.clock + 2));
  }

  /** Stamping two directories (one of them possibly new) only hides them from older memos. */
  lemma StampsTrack(w: World, dirs: map<Path, nat>, a: Path, b: Path)
    requires DistinctStamps(w.(dirs := dirs)) && forall p :: p in dirs ==> dirs[p] < w.clock
    requires dirs == w.dirs
    ensures Tracks(w, w.(dirs := dirs[a := w.clock][b := w.clock + 1], clock := w.clock + 2))
  {
    var v := w.(dirs := dirs[a := w.clock][b := w.clock + 1], clock := w.clock + 2);
    forall p, q | SameStamp(v, p, q) ensures p == q {
      assert v.dirs[p] < w.clock ==> SameStamp(w, p, q);
    }
    forall q | q in v.dirs && v.dirs[q] < w.clock ensures ComesFrom(w, v, q) {
      assert SameView(w, q, v, q);
    }
  }

  lemma RenameKeepsView(w: World, v: World, src: Path, dst: Path, q: Path)
    requires WellFormed(w) && Renamed(w.files, v.files, src, dst) && Clear(w, dst)
    requires src in w.dirs && q in w.dirs && !(dst <= q)
    ensures SameView(w, q, v, Reloc(q, src, dst))
  {
    var r := Reloc(q, src, dst);
    forall f ensures (q + [f] in w.files <==> r + [f] in v.files)
                  && (q + [f] in w.files ==> SameMbids(w.files[q + [f]], v.files[r + [f]]))
    {
      var p := q + [f];
      if src <= q {
        assert src <= p && p[|src|..] == q[|src|..] + [f];
        assert Reloc(p, src, dst) == r + [f];
        assert dst <= r + [f] && (r + [f])[|dst|..] == p[|src|..];
        assert Reloc(r + [f], dst, src) == src + p[|src|..] == p;
      } else {
        if src <= p { assert src == p; }
        assert p in w.files ==> Reloc(p, src, dst) == p;
        RenamedFileNotBelow(q, f, dst);
        assert dst == p ==> Reloc(p, dst, src) == src;
        assert r + [f] in v.files ==> Reloc(p, dst, src) in w.files;
      }
    }
  }

  /** A file of q is at or below dst only as dst itself. */
  lemma RenamedFileNotBelow(q: Path, f: string, dst: Path)
    requires !(dst <= q)
    ensures dst <= q + [f] ==> dst == q + [f]
  {}

  lemma MoveTracks(w: World, src: Path, dst: Path)
    requires WellFormed(w) && DistinctStamps(w) && CanDo(w, Move(src, dst))
    ensures Tracks(w, MoveDir(w, src, dst))
  {
    var v, files, dirs := MoveShape(w, src, dst);
    RenameAndStampTracks(w, v, files, dirs, src, dst);
  }

  lemma RenameAndStampTracks(w: World, v: World, files: map<Path, Content>, dirs: map<Path, nat>, src: Path, dst: Path)
    requires WellFormed(w) && DistinctStamps(w) && src in w.dirs && src != [] && dst != [] && Clear(w, dst)
    requires Renamed(w.files, files, src, dst) && Renamed(w.dirs, dirs, src, dst)
    requires v == Restamped(w, files, dirs, src, dst)
    ensures Tracks(w, v)
  {
    RenameTracks(w, files, dirs, src, dst);
    var u := w.(files := files, dirs := dirs);
    StampsTrack(u, dirs, Parent(src), Parent(dst));
    TracksTransitive(w, u, v);
  }

  lemma RenameTracks(w: World, files: map<Path, Content>, dirs: map<Path, nat>, src: Path, dst: Path)
    requires WellFormed(w) && DistinctStamps(w) && src in w.dirs && Clear(w, dst)
    requires Renamed(w.files, files, src, dst) && Renamed(w.dirs, dirs, src, dst)
    ensures Tracks(w, w.(files := files, dirs := dirs))
    ensures forall q :: q in dirs ==> dirs[q] < w.clock
  {
    var v := w.(files := files, dirs := dirs);
    forall q | q in dirs ensures dirs[q] < w.clock && ComesFrom(w, v, q) {
      var p := Reloc(q, dst, src);
      RenameKeepsView(w, v, src, dst, p);
    }
    forall p, q | SameStamp(v, p, q) ensures p == q {
      assert SameStamp(w, Reloc(p, dst, src), Reloc(q, dst, src));
    }
  }

  // ---------------------------------------------------------------------------
  // the tools
  // ---------------------------------------------------------------------------

  /** Every file step but a restore leaves each directory its identity along with its modification time. */
  lemma StepTracks(w: World, s: FileStep)
    requires WellFormed(w) && DistinctStamps(w) && CanDo(w, s) && !s.Restore?
    ensures Tracks(w, Do(w, s))
  {
    if s.MakeDirectory? {
      MakeDirsTracks(w, s.dir);
    } else if s.Move? {
      MoveTracks(w, s.source, s.dest);
    } else {
      InPlaceTracks(w, Do(w, s));
    }
  }

  lemma {:induction false} ScriptTracks(w: World, script: seq<FileStep>)
    requires WellFormed(w) && DistinctStamps(w) && forall s :: s in script ==> !s.Restore?
    ensures Tracks(w, Exec(w, script))
    decreases |script|
  {
    if script != [] && CanDo(w, script[0]) {
      assert script[0] in script;
      var w1 := Do(w, script[0]);
      StepTracks(w, script[0]);
      StepKeepsTree(w, script[0]);
      ScriptTracks(w1, script[1..]);
      TracksTransitive(w, w1, Exec(w1, script[1..]));
    } else {
      InPlaceTracks(w, w);
    }
  }

  lemma {:induction false} RetagsAreNoRestores(album: Path, names: seq<string>, artist: string, id: string)
    ensures forall s :: s in RetagSteps(album, names, artist, id) ==> !s.Restore?
    decreases |names|
  {
    if names != [] { RetagsAreNoRestores(album, names[1..], artist, id); }
  }

  lemma {:induction false} MovesAreNoRestores(album: Path, dst: Path, names: seq<string>, artist: string, id: string)
    ensures forall s :: s in BackupSteps(album, names, id) ==> !s.Restore?
    ensures forall s :: s in BestEffortSteps(dst, names, artist) ==> !s.Restore?
    decreases |names|
  {
    if names != [] { MovesAreNoRestores(album, dst, names[1..], artist, id); }
  }

  /** apply and relocate, finished or stopped by a step that raises, leave every memo right. */
  lemma ApplyTracks(w: World, album: Path, names: seq<string>, artist: string, id: string)
    requires WellFormed(w) && DistinctStamps(w)
    ensures Tracks(w, Exec(w, ApplyScript(album, names, artist, id)))
  {
    RetagsAreNoRestores(album, names, artist, id);
    ScriptTracks(w, ApplyScript(album, names, artist, id));
  }

  lemma RelocateTracks(w: World, album: Path, dst: Path, names: seq<string>, artist: string, id: string)
    requires WellFormed(w) && DistinctStamps(w) && dst != []
    ensures Tracks(w, Exec(w, RelocateScript(album, dst, names, artist, id)))
  {
    MovesAreNoRestores(album, dst, names, artist, id);
    ScriptTracks(w, RelocateScript(album, dst, names, artist, id));
  }

  lemma UndoTracks(w: World, e: Entry, before: World)
    requires WellFormed(w) && DistinctStamps(w) && Undoable(w, e, before)
    ensures Tracks(w, Exec(w, RevertScript(w, e.id)))
  {
    var back, restore := MoveBackSteps(w, e), RestoreSteps(e.path, e.names, e.id, e.op.Relocated?);
    var entry := Entry(e.id, Reverted, e.path, e.names);
    MoveBack(w, e);
    var w1 := Back(w, e);
    if e.op.Relocated? { MoveTracks(w, e.op.newPath, e.path); } else { InPlaceTracks(w, w); }
    RestoreLoop(w1, e, e.names, before);
    var w2 := Exec(w1, restore);
    AllRestored(w2.files, w1.files, e, before.files);
    ExecConcat(w, back, restore);
    ExecConcat(w, back + restore, [Record(entry)]);
    ExecRecord(w2, entry);
    var v := Exec(w, RevertScript(w, e.id));
    assert v == w2.(ledger := w2.ledger + [entry]);
    RestoringKeepsView(w1, v, e, before);
    InPlaceTracks(w1, v);
    TracksTransitive(w, w1, v);
  }

  lemma RestoringKeepsView(w1: World, v: World, e: Entry, before: World)
    requires v.files == before.files && OnlyTargetsDiffer(w1.files, e, before.files)
    ensures SameFilesView(v.files, w1.files)
  {}

  // ---------------------------------------------------------------------------
  // whole runs
  // ---------------------------------------------------------------------------

  datatype Event = Change(act: Act) | Look(dir: Path, now: int)

  datatype State = State(session: Session, cache: Cache)

  ghost predicate CanHappen(s: State, ev: Event) {
    match ev
    case Change(a) => Feasible(s.session, a)
    case Look(dir, _) => IsDir(s.session.world, dir)
  }

  ghost function Next(s: State, ev: Event): State
    requires CanHappen(s, ev)
  {
    match ev
    case Change(a) => s.(session := Perform(s.session, a))
    case Look(dir, now) => s.(cache := Remember(s.session.world, s.cache, dir, now).1)
  }

  ghost predicate AllCanHappen(s: State, events: seq<Event>)
    decreases |events|
  {
    events == [] || (CanHappen(s, events[0]) && AllCanHappen(Next(s, events[0]), events[1..]))
  }

  ghost function Run(s: State, events: seq<Event>): State
    requires AllCanHappen(s, events)
    decreases |events|
  {
    if events == [] then s else Run(Next(s, events[0]), events[1..])
  }

  ghost predicate Invariant(start: World, s: State) {
    Unwinds(start, s.session.world, s.session.open) && Coherent(s.session.world, s.cache)
  }

  lemma PerformTracks(start: World, s: Session, a: Act)
    requires Unwinds(start, s.world, s.open) && DistinctStamps(s.world) && Feasible(s, a)
    ensures Tracks(s.world, Perform(s, a).world)
  {
    match a
    case Retagging(album, artist, id) => ApplyTracks(s.world, album, AudioFiles(s.world, album), artist, id);
    case Relocating(album, artist, id) =>
      RelocateTracks(s.world, album, Destination(album, artist), AudioFiles(s.world, album), artist, id);
    case UndoLatest => UndoTracks(s.world, Top(s).entry, Top(s).before);
  }

  lemma EventKeepsInvariant(start: World, s: State, ev: Event)
    requires Invariant(start, s) && CanHappen(s, ev)
    ensures Invariant(start, Next(s, ev))
  {
    match ev
    case Change(a) =>
      ActKeepsUnwinding(start, s.session, a);
      PerformTracks(start, s.session, a);
      TracksKeepsCoherent(s.session.world, Next(s, ev).session.world, s.cache);
    case Look(dir, now) => RememberIsFresh(s.session.world, s.cache, dir, now);
  }

  lemma {:induction false} RunKeepsInvariant(start: World, s: State, events: seq<Event>)
    requires Invariant(start, s) && AllCanHappen(s, events)
    ensures Invariant(start, Run(s, events))
    decreases |events|
  {
    if events != [] {
      EventKeepsInvariant(start, s, events[0]);
      RunKeepsInvariant(start, Next(s, events[0]), events[1..]);
    }
  }

  /** After any run, asking for an album's identity gives what a fresh scan of its tags gives. */
  lemma MemoEqualsFreshScan(start: World, events: seq<Event>, dir: Path, now: int)
    requires WellFormed(start) && DistinctStamps(start)
    requires AllCanHappen(State(Session(start, []), map[]), events)
    requires IsDir(Run(State(Session(start, []), map[]), events).session.world, dir)
    ensures var s := Run(State(Session(start, []), map[]), events);
            Remember(s.session.world, s.cache, dir, now).0 == Identity(s.session.world, dir)
  {
    var s := State(Session(start, []), map[]);
    RunKeepsInvariant(start, s, events);
    var t := Run(s, events);
    RememberIsFresh(t.session.world, t.cache, dir, now);
  }
}
