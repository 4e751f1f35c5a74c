/** Undo: over every run of apply, relocate and last-in-first-out revert, each revert puts the
    library back to the files it held before the change it undoes. */
module LibraryUndo {
  import opened Basics
  import opened LibraryTree
  import opened LibraryScripts

  predicate SameMbids(a: Content, b: Content) {
    a.tags.artistMbid == b.tags.artistMbid && a.tags.albumArtistMbid == b.tags.albumArtistMbid
  }

  predicate IsTarget(p: Path, dir: Path, names: seq<string>) {
    p != [] && Parent(p) == dir && Last(p) in names
  }

  lemma TargetPath(dir: Path, f: string)
    ensures dir + [f] != [] && Parent(dir + [f]) == dir && Last(dir + [f]) == f
  {}

  /** The backups of b are a's plus others. */
  ghost predicate BackupsGrow(a: World, b: World) {
    forall k :: k in a.backups ==> k in b.backups && b.backups[k] == a.backups[k]
  }

  ghost predicate LedgerGrows(a: seq<Entry>, b: seq<Entry>) {
    && a <= b
    && forall i :: |a| <= i < |b| ==> b[i].op.Reverted? || forall e :: e in a ==> e.id != b[i].id
  }

  ghost predicate OnlyArtistFolders(small: set<Path>, big: set<Path>) {
    small <= big && forall d :: d in big && d !in small ==> |d| == 1
  }

  /** v holds exactly the files of w; only the bookkeeping and new artist folders may differ. */
  ghost predicate Restored(w: World, v: World) {
    && v.files == w.files
    && OnlyArtistFolders(w.dirs.Keys, v.dirs.Keys)
    && BackupsGrow(w, v)
    && LedgerGrows(w.ledger, v.ledger)
  }

  lemma LedgerGrowsTransitive(a: seq<Entry>, b: seq<Entry>, c: seq<Entry>)
    requires LedgerGrows(a, b) && LedgerGrows(b, c)
    ensures LedgerGrows(a, c)
  {
    forall i | |a| <= i < |c|
      ensures c[i].op.Reverted? || forall e :: e in a ==> e.id != c[i].id
    {
      if i < |b| { assert c[i] == b[i]; }
      forall e | e in a ensures e in b {
        var k :| 0 <= k < |a| && a[k] == e;
        assert b[k] == e;
      }
    }
  }

  lemma RestoredTransitive(a: World, b: World, c: World)
    requires Restored(a, b) && Restored(b, c)
    ensures Restored(a, c)
  {
    LedgerGrowsTransitive(a.ledger, b.ledger, c.ledger);
  }

  lemma {:induction false} LookupStable(a: seq<Entry>, b: seq<Entry>, id: string)
    requires LedgerGrows(a, b) && Lookup(a, id).Some?
    ensures Lookup(b, id) == Lookup(a, id)
    decreases |b|
  {
    if |a| == |b| {
      assert a == b;
    } else {
      var c := b[..|b| - 1];
      assert LedgerGrows(a, c);
      LookupStable(a, c, id);
      assert b[|b| - 1].op.Reverted? || forall e :: e in a ==> e.id != b[|b| - 1].id;
    }
  }

  // ---------------------------------------------------------------------------
  // when a change can be undone
  // ---------------------------------------------------------------------------

  /** The world once revert has moved the album back (or has not had to). */
  ghost function Back(w: World, e: Entry): World {
    Exec(w, MoveBackSteps(w, e))
  }

  /** Revert's move is going to happen and to succeed. */
  ghost predicate MoveBackReady(w: World, e: Entry) {
    e.op.Relocated? ==>
      && |e.path| >= 2 && |e.op.newPath| >= 2
      && IsDir(w, e.op.newPath) && !Exists(w, e.path) && IsDir(w, Parent(e.path)) && !(e.op.newPath <= e.path)
  }

  /** Every audio file of the album is backed up as it was. */
  ghost predicate BackedUp(w: World, e: Entry, before: World) {
    forall f :: f in e.names ==>
      && e.path + [f] in before.files
      && BackupKey(e.id, f) in w.backups
      && w.backups[BackupKey(e.id, f)] == before.files[e.path + [f]]
  }

  /** Apart from the backed-up files nothing has changed, and no identifier has. */
  ghost predicate OnlyTargetsDiffer(files: map<Path, Content>, e: Entry, before: map<Path, Content>) {
    && files.Keys == before.Keys
    && forall p :: p in before ==>
         SameMbids(files[p], before[p]) && (!IsTarget(p, e.path, e.names) ==> files[p] == before[p])
  }

  ghost predicate Undoable(w: World, e: Entry, before: World) {
    && !e.op.Reverted?
    && Lookup(w.ledger, e.id) == Some(e)
    && MoveBackReady(w, e)
    && BackedUp(w, e, before)
    && OnlyTargetsDiffer(Back(w, e).files, e, before.files)
    && OnlyArtistFolders(before.dirs.Keys, Back(w, e).dirs.Keys)
    && BackupsGrow(before, w)
    && LedgerGrows(before.ledger, w.ledger)
  }

  // ---------------------------------------------------------------------------
  // revert undoes
  // ---------------------------------------------------------------------------

  lemma TargetCons(p: Path, dir: Path, names: seq<string>)
    requires names != []
    ensures IsTarget(p, dir, names) <==> p == dir + [names[0]] || IsTarget(p, dir, names[1..])
  {
    TargetPath(dir, names[0]);
    assert names == [names[0]] + names[1..];
    if p != [] && Parent(p) == dir { assert p == Parent(p) + [Last(p)]; }
  }

  ghost predicate RestoredFiles(now: map<Path, Content>, was: map<Path, Content>, dir: Path, names: seq<string>,
                                original: map<Path, Content>) {
    && now.Keys == was.Keys == original.Keys
    && forall p :: p in was ==> now[p] == if IsTarget(p, dir, names) then original[p] else was[p]
  }

  lemma {:induction false} RestoreLoop(w: World, e: Entry, names: seq<string>, before: World)
    requires WellFormed(w) && BackedUp(w, e, before)
    requires forall f :: f in names ==> f in e.names
    requires w.files.Keys == before.files.Keys
    ensures Completes(w, RestoreSteps(e.path, names, e.id, e.op.Relocated?))
    ensures var v := Exec(w, RestoreSteps(e.path, names, e.id, e.op.Relocated?));
            v == w.(files := v.files) && RestoredFiles(v.files, w.files, e.path, names, before.files)
    decreases |names|
  {
    if names != [] {
      var f := names[0];
      var t := e.path + [f];
      TargetPath(e.path, f);
      assert f in e.names && t in w.files;
      var w1 := w.(files := w.files[t := before.files[t]]);
      assert Do(w, Restore(e.id, f, t, e.op.Relocated?)) == w1;
      RestoreLoop(w1, e, names[1..], before);
      forall p | p in w.files ensures IsTarget(p, e.path, names) <==> p == t || IsTarget(p, e.path, names[1..]) {
        TargetCons(p, e.path, names);
      }
    }
  }

  lemma AllRestored(now: map<Path, Content>, was: map<Path, Content>, e: Entry, original: map<Path, Content>)
    requires RestoredFiles(now, was, e.path, e.names, original) && OnlyTargetsDiffer(was, e, original)
    ensures now == original
  {}

  lemma LedgerGrowsBy(a: seq<Entry>, b: seq<Entry>, e: Entry)
    requires LedgerGrows(a, b) && (e.op.Reverted? || forall x :: x in a ==> x.id != e.id)
    ensures LedgerGrows(a, b + [e])
  {
    forall i | |a| <= i < |b + [e]|
      ensures (b + [e])[i].op.Reverted? || forall x :: x in a ==> x.id != (b + [e])[i].id
    {
      if i < |b| { assert (b + [e])[i] == b[i]; }
    }
  }

  lemma ExecRecord(w: World, e: Entry)
    ensures Completes(w, [Record(e)])
    ensures Exec(w, [Record(e)]) == w.(ledger := w.ledger + [e])
  {
    var script := [Record(e)];
    assert script[1..] == [];
    assert Exec(w, script) == Exec(Do(w, script[0]), script[1..]);
  }

  /** The move back is one rename; nothing but the tree changes. */
  lemma MoveBack(w: World, e: Entry)
    requires WellFormed(w) && MoveBackReady(w, e)
    ensures Completes(w, MoveBackSteps(w, e))
    ensures WellFormed(Back(w, e)) && Back(w, e).backups == w.backups && Back(w, e).ledger == w.ledger
    ensures !e.op.Relocated? ==> Back(w, e) == w
    ensures e.op.Relocated? ==>
              && CanDo(w, Move(e.op.newPath, e.path))
              && Back(w, e) == MoveDir(w, e.op.newPath, e.path)
  {
    var steps := MoveBackSteps(w, e);
    if e.op.Relocated? {
      var m := Move(e.op.newPath, e.path);
      assert steps == [MakeDirectory(Parent(e.path)), m];
      ExistingCanBeMade(w, Parent(e.path));
      assert Do(w, steps[0]) == w;
      assert steps[1..] == [m] && steps[1..][1..] == [];
      assert CanDo(w, m);
      assert Exec(w, steps) == Exec(w, steps[1..]) == Do(w, m);
      StepKeepsTree(w, m);
    }
  }

  lemma UndoOne(w: World, e: Entry, before: World)
    requires WellFormed(w) && Undoable(w, e, before)
    ensures Completes(w, RevertScript(w, e.id))
    ensures Restored(before, Exec(w, RevertScript(w, e.id)))
  {
    var back, restore := MoveBackSteps(w, e), RestoreSteps(e.path, e.names, e.id, e.op.Relocated?);
    var entry := Entry(e.id, Reverted, e.path, e.names);
    MoveBack(w, e);
    var w1 := Back(w, e);
    RestoreLoop(w1, e, e.names, before);
    var w2 := Exec(w1, restore);
    AllRestored(w2.files, w1.files, e, before.files);
    ExecConcat(w, back, restore);
    ExecConcat(w, back + restore, [Record(entry)]);
    ExecRecord(w2, entry);
    LedgerGrowsBy(before.ledger, w.ledger, entry);
  }

  /** A change that can be undone stays so while only bookkeeping and artist folders change. */
  lemma UndoableStable(w: World, v: World, e: Entry, before: World)
    requires WellFormed(w) && WellFormed(v)
    requires Undoable(w, e, before) && Restored(w, v)
    ensures Undoable(v, e, before)
  {
    LookupStable(w.ledger, v.ledger, e.id);
    LedgerGrowsTransitive(before.ledger, w.ledger, v.ledger);
    MoveBack(w, e);
    MoveBack(v, e);
    if e.op.Relocated? {
      MoveIsRename(w, e.op.newPath, e.path);
      MoveIsRename(v, e.op.newPath, e.path);
      RenamedDirsGrow(w.dirs, v.dirs, Rekey(w.dirs, e.op.newPath, e.path), Rekey(v.dirs, e.op.newPath, e.path),
                      e.op.newPath, e.path);
    }
  }

  lemma RenamedDirsGrow(w: map<Path, nat>, v: map<Path, nat>, a: map<Path, nat>, b: map<Path, nat>, src: Path,
                        dst: Path)
    requires Renamed(w, a, src, dst) && Renamed(v, b, src, dst)
    requires OnlyArtistFolders(w.Keys, v.Keys) && |src| >= 2
    ensures OnlyArtistFolders(a.Keys, b.Keys)
  {
    forall d | d in a ensures d in b {
      assert Reloc(Reloc(d, dst, src), src, dst) == d;
    }
    forall d | d in b && d !in a ensures |d| == 1 {
      assert Reloc(Reloc(d, dst, src), src, dst) == d;
    }
  }

  // ---------------------------------------------------------------------------
  // apply and relocate leave something that can be undone
  // ---------------------------------------------------------------------------

  ghost predicate BackupsTaken(w: World, backups: map<BackupKey, Content>, dir: Path, names: seq<string>, id: string) {
    && (forall k :: k in backups <==> k in w.backups || (k.id == id && k.name in names))
    && (forall k :: k in w.backups && !(k.id == id && k.name in names) ==> backups[k] == w.backups[k])
    && (forall f :: f in names ==> dir + [f] in w.files && backups[BackupKey(id, f)] == w.files[dir + [f]])
  }

  /** What tagging a set of files as `artist` does; a file that cannot be tagged is left alone. */
  ghost predicate Tagged(now: map<Path, Content>, was: map<Path, Content>, dir: Path, names: seq<string>,
                         artist: string) {
    && now.Keys == was.Keys
    && forall p :: p in was ==>
         now[p] == if IsTarget(p, dir, names) && was[p].taggable then WithAlbumArtist(was[p], artist) else was[p]
  }

  lemma {:induction false} BackupLoop(w: World, dir: Path, names: seq<string>, id: string)
    requires Distinct(names) && Completes(w, BackupSteps(dir, names, id))
    ensures var v := Exec(w, BackupSteps(dir, names, id));
            v == w.(backups := v.backups) && BackupsTaken(w, v.backups, dir, names, id)
    decreases |names|
  {
    if names != [] {
      DistinctTail(names);
      var step := Backup(id, names[0], dir + [names[0]]);
      assert BackupSteps(dir, names, id)[1..] == BackupSteps(dir, names[1..], id);
      BackupLoop(Do(w, step), dir, names[1..], id);
    }
  }

  lemma {:induction false} BestEffortLoop(w: World, dir: Path, names: seq<string>, artist: string)
    ensures Completes(w, BestEffortSteps(dir, names, artist))
    ensures var v := Exec(w, BestEffortSteps(dir, names, artist));
            v == w.(files := v.files) && Tagged(v.files, w.files, dir, names, artist)
    decreases |names|
  {
    if names != [] {
      var step := RetagBestEffort(dir + [names[0]], artist);
      assert BestEffortSteps(dir, names, artist)[1..] == BestEffortSteps(dir, names[1..], artist);
      BestEffortLoop(Do(w, step), dir, names[1..], artist);
      TaggedCons(w.files, Do(w, step).files, Exec(w, BestEffortSteps(dir, names, artist)).files, dir, names, artist);
    }
  }

  /** Tagging the first file and then the others tags them all. */
  lemma TaggedCons(was: map<Path, Content>, mid: map<Path, Content>, now: map<Path, Content>, dir: Path,
                   names: seq<string>, artist: string)
    requires names != [] && Tagged(now, mid, dir, names[1..], artist)
    requires var t := dir + [names[0]];
             mid == if t in was && was[t].taggable then was[t := WithAlbumArtist(was[t], artist)] else was
    ensures Tagged(now, was, dir, names, artist)
  {
    forall p | p in was
      ensures now[p] == if IsTarget(p, dir, names) && was[p].taggable then WithAlbumArtist(was[p], artist) else was[p]
    {
      TargetCons(p, dir, names);
    }
  }

  lemma {:induction false} RetagLoop(w: World, dir: Path, names: seq<string>, artist: string, id: string)
    requires Distinct(names) && Completes(w, RetagSteps(dir, names, artist, id))
    ensures var v := Exec(w, RetagSteps(dir, names, artist, id));
            && v == w.(files := v.files, backups := v.backups)
            && Tagged(v.files, w.files, dir, names, artist)
            && BackupsTaken(w, v.backups, dir, names, id)
    ensures forall f :: f in names ==> dir + [f] in w.files && w.files[dir + [f]].taggable
    decreases |names|
  {
    if names != [] {
      DistinctTail(names);
      var t := dir + [names[0]];
      TargetPath(dir, names[0]);
      var steps := RetagSteps(dir, names, artist, id);
      var rest := RetagSteps(dir, names[1..], artist, id);
      assert steps[0] == Backup(id, names[0], t) && steps[1..][0] == Retag(t, artist) && steps[1..][1..] == rest;
      var w1 := Do(w, steps[0]);
      var w2 := Do(w1, steps[1..][0]);
      assert Exec(w, steps) == Exec(w1, steps[1..]) == Exec(w2, rest);
      assert Completes(w1, steps[1..]) && Completes(w2, rest);
      RetagLoop(w2, dir, names[1..], artist, id);
      RetagLoopJoin(w, w2, Exec(w2, rest), dir, names, artist, id);
    }
  }

  lemma RetagLoopJoin(w: World, w2: World, v: World, dir: Path, names: seq<string>, artist: string, id: string)
    requires names != [] && Distinct(names)
    requires var t := dir + [names[0]];
             && t in w.files && w.files[t].taggable
             && w2 == w.(files := w.files[t := WithAlbumArtist(w.files[t], artist)],
                         backups := w.backups[BackupKey(id, names[0]) := w.files[t]])
    requires v == w2.(files := v.files, backups := v.backups)
    requires Tagged(v.files, w2.files, dir, names[1..], artist) && BackupsTaken(w2, v.backups, dir, names[1..], id)
    ensures v == w.(files := v.files, backups := v.backups)
    ensures Tagged(v.files, w.files, dir, names, artist) && BackupsTaken(w, v.backups, dir, names, id)
  {
    DistinctTail(names);
    TaggedCons(w.files, w2.files, v.files, dir, names, artist);
    forall f | f in names ensures dir + [f] in w.files && v.backups[BackupKey(id, f)] == w.files[dir + [f]] {
      if f != names[0] {
        assert (dir + [f])[|dir|] == f;
        assert dir + [f] != dir + [names[0]];
      }
    }
  }

  lemma ApplyUndoable(w: World, album: Path, names: seq<string>, artist: string, id: string)
    requires WellFormed(w) && Fresh(w, id) && Distinct(names)
    requires Completes(w, ApplyScript(album, names, artist, id))
    ensures Undoable(Exec(w, ApplyScript(album, names, artist, id)), Entry(id, Retagged, album, names), w)
  {
    var e := Entry(id, Retagged, album, names);
    var steps := RetagSteps(album, names, artist, id);
    CompletesPrefix(w, steps, [Record(e)]);
    RetagLoop(w, album, names, artist, id);
    var v := Exec(w, steps);
    ExecConcat(w, steps, [Record(e)]);
    ExecRecord(v, e);
    var z := v.(ledger := v.ledger + [e]);
    LedgerGrowsBy(w.ledger, w.ledger, e);
    LookupAppended(w.ledger, e);
    MoveBackNothing(z, e);
  }

  lemma LookupAppended(ledger: seq<Entry>, e: Entry)
    requires !e.op.Reverted?
    ensures Lookup(ledger + [e], e.id) == Some(e)
  {}

  lemma MoveBackNothing(w: World, e: Entry)
    requires e.op.Retagged?
    ensures Back(w, e) == w
  {}

  /** The artist folder and the rename, first in a script that completes. */
  lemma MoveStage(b: World, album: Path, dst: Path, rest: seq<FileStep>) returns (m: World)
    requires dst != [] && Completes(b, [MakeDirectory(Parent(dst)), Move(album, dst)] + rest)
    ensures CanDo(b, MakeDirectory(Parent(dst))) && CanDo(MakeDirs(b, Parent(dst)), Move(album, dst))
    ensures m == MoveDir(MakeDirs(b, Parent(dst)), album, dst) && Completes(m, rest)
    ensures Exec(b, [MakeDirectory(Parent(dst)), Move(album, dst)] + rest) == Exec(m, rest)
  {
    var mk, mv := MakeDirectory(Parent(dst)), Move(album, dst);
    assert ([mk, mv] + rest)[1..] == [mv] + rest && ([mv] + rest)[1..] == rest;
    m := Do(Do(b, mk), mv);
  }

  /** The best-effort tags and the record, last in a script that completes. */
  lemma TagStage(m: World, dst: Path, names: seq<string>, artist: string, e: Entry) returns (r: World)
    requires Distinct(names)
    ensures r == m.(files := r.files) && Tagged(r.files, m.files, dst, names, artist)
    ensures Exec(m, BestEffortSteps(dst, names, artist) + [Record(e)]) == r.(ledger := r.ledger + [e])
  {
    var tags := BestEffortSteps(dst, names, artist);
    BestEffortLoop(m, dst, names, artist);
    r := Exec(m, tags);
    ExecConcat(m, tags, [Record(e)]);
    ExecRecord(r, e);
  }

  /** The backups, first in a script that completes. */
  lemma BackupStage(w: World, album: Path, names: seq<string>, id: string, rest: seq<FileStep>) returns (b: World)
    requires Distinct(names) && Completes(w, BackupSteps(album, names, id) + rest)
    ensures b == w.(backups := b.backups) && BackupsTaken(w, b.backups, album, names, id)
    ensures Completes(b, rest) && Exec(w, BackupSteps(album, names, id) + rest) == Exec(b, rest)
  {
    var steps := BackupSteps(album, names, id);
    CompletesPrefix(w, steps, rest);
    BackupLoop(w, album, names, id);
    b := Exec(w, steps);
    ExecConcat(w, steps, rest);
  }

  /** The stages of a relocation: backups, the artist folder, the rename, the best-effort tags. */
  lemma RelocateStages(w: World, album: Path, dst: Path, names: seq<string>, artist: string, id: string)
      returns (b: World, m: World, r: World)
    requires dst != [] && Distinct(names)
    requires Completes(w, RelocateScript(album, dst, names, artist, id))
    ensures b == w.(backups := b.backups) && BackupsTaken(w, b.backups, album, names, id)
    ensures CanDo(b, MakeDirectory(Parent(dst))) && CanDo(MakeDirs(b, Parent(dst)), Move(album, dst))
    ensures m == MoveDir(MakeDirs(b, Parent(dst)), album, dst)
    ensures r == m.(files := r.files) && Tagged(r.files, m.files, dst, names, artist)
    ensures Exec(w, RelocateScript(album, dst, names, artist, id))
         == r.(ledger := r.ledger + [Entry(id, Relocated(dst), album, names)])
  {
    var e := Entry(id, Relocated(dst), album, names);
    var backups, move := BackupSteps(album, names, id), [MakeDirectory(Parent(dst)), Move(album, dst)];
    var tags := BestEffortSteps(dst, names, artist) + [Record(e)];
    assert RelocateScript(album, dst, names, artist, id) == backups + (move + tags);
    b := BackupStage(w, album, names, id, move + tags);
    m := MoveStage(b, album, dst, tags);
    r := TagStage(m, dst, names, artist, e);
  }

  /** Renaming album to dst, tagging there and renaming back changes only the tagged files. */
  lemma TaggedThenBack(files: map<Path, Content>, moved: map<Path, Content>, tagged: map<Path, Content>,
                       back: map<Path, Content>, e: Entry, artist: string)
    requires e.op.Relocated?
    requires Renamed(files, moved, e.path, e.op.newPath) && Renamed(tagged, back, e.op.newPath, e.path)
    requires Tagged(tagged, moved, e.op.newPath, e.names, artist)
    requires forall p :: p in files ==> !(e.op.newPath <= p)
    ensures OnlyTargetsDiffer(back, e, files)
  {
    var album, dst := e.path, e.op.newPath;
    forall p | p in files
      ensures p in back && SameMbids(back[p], files[p]) && (!IsTarget(p, album, e.names) ==> back[p] == files[p])
    {
      var q := Reloc(p, album, dst);
      RelocInverse(p, album, dst);
      assert Reloc(q, dst, album) == p;
      TargetMoved(p, album, dst, e.names);
    }
    forall p | p in back ensures p in files {
      var q := Reloc(p, album, dst);
      assert q in tagged && q in moved;
      assert Reloc(q, dst, album) == p;
    }
  }

  lemma TargetMoved(p: Path, album: Path, dst: Path, names: seq<string>)
    requires !(dst <= p)
    ensures IsTarget(Reloc(p, album, dst), dst, names) ==> IsTarget(p, album, names)
  {
    var q := Reloc(p, album, dst);
    if IsTarget(q, dst, names) {
      assert dst <= q;
      assert album <= p;
      assert |q| == |dst| + 1 && |p| == |album| + 1;
      assert Last(q) == Last(p);
    }
  }

  lemma RelocateUndoable(w: World, album: Path, dst: Path, names: seq<string>, artist: string, id: string)
    requires WellFormed(w) && Fresh(w, id) && Distinct(names) && |album| >= 2 && |dst| == 2
    requires Completes(w, RelocateScript(album, dst, names, artist, id))
    ensures Undoable(Exec(w, RelocateScript(album, dst, names, artist, id)), Entry(id, Relocated(dst), album, names), w)
  {
    var e := Entry(id, Relocated(dst), album, names);
    var b, m, r := RelocateStages(w, album, dst, names, artist, id);
    var d := MakeDirs(b, Parent(dst));
    MakeDirsFacts(b, Parent(dst));
    RelocatedTreeGoesBack(w, d, r, r.(ledger := r.ledger + [e]), e, artist);
    LedgerGrowsBy(w.ledger, w.ledger, e);
    LookupAppended(w.ledger, e);
  }

  lemma RelocatedTreeGoesBack(w: World, d: World, r: World, z: World, e: Entry, artist: string)
    requires WellFormed(w) && WellFormed(d) && e.op.Relocated? && |e.path| >= 2 && |e.op.newPath| == 2
    requires d.files == w.files && w.dirs.Keys <= d.dirs.Keys
    requires forall p :: p in d.dirs && p !in w.dirs ==> p <= Parent(e.op.newPath)
    requires CanDo(d, Move(e.path, e.op.newPath))
    requires var m := MoveDir(d, e.path, e.op.newPath);
             r == m.(files := r.files) && Tagged(r.files, m.files, e.op.newPath, e.names, artist)
    requires z == r.(ledger := z.ledger)
    ensures MoveBackReady(z, e)
    ensures OnlyTargetsDiffer(Back(z, e).files, e, w.files)
    ensures OnlyArtistFolders(w.dirs.Keys, Back(z, e).dirs.Keys)
  {
    var album, dst := e.path, e.op.newPath;
    MoveIsRename(d, album, dst);
    StepKeepsTree(d, Move(album, dst));
    RenamedGoesBack(w, d, MoveDir(d, album, dst), Rekey(d.dirs, album, dst), r, z, e, artist);
  }

  lemma RenamedGoesBack(w: World, d: World, m: World, dirs: map<Path, nat>, r: World, z: World, e: Entry,
                        artist: string)
    requires WellFormed(w) && WellFormed(d) && WellFormed(m) && e.op.Relocated? && |e.path| >= 2 && |e.op.newPath| == 2
    requires d.files == w.files && w.dirs.Keys <= d.dirs.Keys
    requires forall p :: p in d.dirs && p !in w.dirs ==> p <= Parent(e.op.newPath)
    requires e.path in d.dirs && Clear(d, e.op.newPath) && Apart(e.path, e.op.newPath)
    requires Renamed(d.files, m.files, e.path, e.op.newPath)
    requires Renamed(d.dirs, dirs, e.path, e.op.newPath) && m.dirs.Keys == dirs.Keys
    requires r == m.(files := r.files) && Tagged(r.files, m.files, e.op.newPath, e.names, artist)
    requires z == r.(ledger := z.ledger)
    ensures MoveBackReady(z, e)
    ensures OnlyTargetsDiffer(Back(z, e).files, e, w.files)
    ensures OnlyArtistFolders(w.dirs.Keys, Back(z, e).dirs.Keys)
  {
    var album, dst := e.path, e.op.newPath;
    RoomToMoveBack(d, m, dirs, album, dst);
    MoveBack(z, e);
    MoveIsRename(z, dst, album);
    TaggedThenBack(w.files, m.files, r.files, Rekey(z.files, dst, album), e, artist);
    DirsThereAndBack(w, d, dirs, z, album, dst);
  }

  lemma RoomToMoveBack(d: World, m: World, dirs: map<Path, nat>, album: Path, dst: Path)
    requires WellFormed(d) && album in d.dirs && album != [] && dst != []
    requires Renamed(d.files, m.files, album, dst)
    requires Renamed(d.dirs, dirs, album, dst) && m.dirs.Keys == dirs.Keys
    ensures IsDir(m, dst) && !Exists(m, album) && IsDir(m, Parent(album))
  {
    assert Reloc(album, album, dst) == dst;
    assert Reloc(Parent(album), album, dst) == Parent(album);
    var r := Reloc(album, dst, album);
  }

  lemma DirsThereAndBack(w: World, d: World, dirs: map<Path, nat>, z: World, album: Path, dst: Path)
    requires WellFormed(w) && |dst| == 2
    requires w.dirs.Keys <= d.dirs.Keys && forall p :: p in d.dirs && p !in w.dirs ==> p <= Parent(dst)
    requires Renamed(d.dirs, dirs, album, dst) && z.dirs.Keys == dirs.Keys
    requires Renamed(z.dirs, Rekey(z.dirs, dst, album), dst, album)
    requires Clear(d, dst)
    ensures OnlyArtistFolders(w.dirs.Keys, Rekey(z.dirs, dst, album).Keys)
  {
    var back := Rekey(z.dirs, dst, album);
    forall p | p in w.dirs ensures p in back {
      RelocInverse(p, album, dst);
      assert Reloc(p, album, dst) in z.dirs;
      assert Reloc(Reloc(p, album, dst), dst, album) in back;
    }
    forall p | p in back && p !in w.dirs ensures |p| == 1 {
      var q := Reloc(p, album, dst);
      assert q in z.dirs;
      assert Reloc(q, dst, album) == p;
      assert p in d.dirs;
      assert p != [];
    }
  }
}
