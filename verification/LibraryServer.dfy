/** The server object: the library world and the identity memo, with the tools as methods that change
    them in place. Each mutating tool is tied to its script; each reading tool to its function. */
module LibraryServer {
  import opened Basics
  import opened Text
  import opened LibraryTree
  import opened LibraryScripts
  import opened LibraryUndo
  import opened LibraryIdentity
  import opened LibraryAssess
  import opened LibraryVerdict
  import opened LibraryCache

  lemma {:induction false} RetagSplit(album: Path, names: seq<string>, artist: string, id: string, i: nat)
    requires i <= |names|
    ensures RetagSteps(album, names, artist, id) ==
            RetagSteps(album, names[..i], artist, id) + RetagSteps(album, names[i..], artist, id)
    decreases i
  {
    if i == 0 {
      assert names[..0] == [] && names[0..] == names;
    } else {
      var front, rest := names[..i], names[1..];
      RetagSplit(album, rest, artist, id, i - 1);
      assert front[0] == names[0] && front[1..] == rest[..i - 1] && names[i..] == rest[i - 1..];
      ConcatAssoc([Backup(id, names[0], album + [names[0]]), Retag(album + [names[0]], artist)],
                  RetagSteps(album, rest[..i - 1], artist, id), RetagSteps(album, names[i..], artist, id));
    }
  }

  lemma {:induction false} BackupSplit(album: Path, names: seq<string>, id: string, i: nat)
    requires i <= |names|
    ensures BackupSteps(album, names, id) == BackupSteps(album, names[..i], id) + BackupSteps(album, names[i..], id)
    decreases i
  {
    if i == 0 {
      assert names[..0] == [] && names[0..] == names;
    } else {
      var front, rest := names[..i], names[1..];
      BackupSplit(album, rest, id, i - 1);
      assert front[0] == names[0] && front[1..] == rest[..i - 1] && names[i..] == rest[i - 1..];
      ConcatAssoc([Backup(id, names[0], album + [names[0]])], BackupSteps(album, rest[..i - 1], id),
                  BackupSteps(album, names[i..], id));
    }
  }

  lemma {:induction false} BestEffortSplit(album: Path, names: seq<string>, artist: string, i: nat)
    requires i <= |names|
    ensures BestEffortSteps(album, names, artist) ==
            BestEffortSteps(album, names[..i], artist) + BestEffortSteps(album, names[i..], artist)
    decreases i
  {
    if i == 0 {
      assert names[..0] == [] && names[0..] == names;
    } else {
      var front, rest := names[..i], names[1..];
      BestEffortSplit(album, rest, artist, i - 1);
      assert front[0] == names[0] && front[1..] == rest[..i - 1] && names[i..] == rest[i - 1..];
      ConcatAssoc([RetagBestEffort(album + [names[0]], artist)], BestEffortSteps(album, rest[..i - 1], artist),
                  BestEffortSteps(album, names[i..], artist));
    }
  }

  lemma {:induction false} RestoreSplit(album: Path, names: seq<string>, id: string, onlyExisting: bool, i: nat)
    requires i <= |names|
    ensures RestoreSteps(album, names, id, onlyExisting) ==
            RestoreSteps(album, names[..i], id, onlyExisting) + RestoreSteps(album, names[i..], id, onlyExisting)
    decreases i
  {
    if i == 0 {
      assert names[..0] == [] && names[0..] == names;
    } else {
      var front, rest := names[..i], names[1..];
      RestoreSplit(album, rest, id, onlyExisting, i - 1);
      assert front[0] == names[0] && front[1..] == rest[..i - 1] && names[i..] == rest[i - 1..];
      ConcatAssoc([Restore(id, names[0], album + [names[0]], onlyExisting)],
                  RestoreSteps(album, rest[..i - 1], id, onlyExisting),
                  RestoreSteps(album, names[i..], id, onlyExisting));
    }
  }

  lemma StepsSnoc(album: Path, names: seq<string>, artist: string, id: string, onlyExisting: bool, i: nat)
    requires i < |names|
    ensures var p := album + [names[i]];
            && RetagSteps(album, names[..i + 1], artist, id) ==
               RetagSteps(album, names[..i], artist, id) + [Backup(id, names[i], p), Retag(p, artist)]
            && BackupSteps(album, names[..i + 1], id) == BackupSteps(album, names[..i], id) + [Backup(id, names[i], p)]
            && BestEffortSteps(album, names[..i + 1], artist) ==
               BestEffortSteps(album, names[..i], artist) + [RetagBestEffort(p, artist)]
            && RestoreSteps(album, names[..i + 1], id, onlyExisting)
               == RestoreSteps(album, names[..i], id, onlyExisting) + [Restore(id, names[i], p, onlyExisting)]
  {
    var front := names[..i + 1];
    RetagSplit(album, front, artist, id, i);
    BackupSplit(album, front, id, i);
    BestEffortSplit(album, front, artist, i);
    RestoreSplit(album, front, id, onlyExisting, i);
    assert front[..i] == names[..i] && front[i..] == [names[i]];
    assert [names[i]][1..] == [];
  }

  lemma ExecOne(w: World, a: seq<FileStep>, s: FileStep)
    requires Completes(w, a) && CanDo(Exec(w, a), s)
    ensures Completes(w, a + [s]) && Exec(w, a + [s]) == Do(Exec(w, a), s)
  {
    ExecConcat(w, a, [s]);
    assert [s][1..] == [];
    assert Exec(Exec(w, a), [s]) == Exec(Do(Exec(w, a), s), [s][1..]);
  }

  /** A script whose next step raises stops there, whatever follows. */
  lemma ExecStuck(w: World, a: seq<FileStep>, s: FileStep, rest: seq<FileStep>)
    requires Completes(w, a) && !CanDo(Exec(w, a), s)
    ensures Exec(w, a + ([s] + rest)) == Exec(w, a) && !Completes(w, a + ([s] + rest))
  {
    ExecConcat(w, a, [s] + rest);
  }

  predicate AllDirs(w: World, dir: Path, subs: seq<string>) { forall f :: f in subs ==> IsDir(w, dir + [f]) }

  /** What the folder scan has collected after its first i siblings. */
  ghost predicate Scanned(subs: seq<string>, ask: string -> Option<string>, i: nat, mbids: Ids) {
    i <= |subs| && FoundIds(subs, ask) == mbids + FoundIds(subs[i..], ask)
  }

  lemma ScanStarts(subs: seq<string>, ask: string -> Option<string>)
    ensures Scanned(subs, ask, 0, [])
  {
    assert subs[0..] == subs;
  }

  lemma NextSibling(subs: seq<string>, ask: string -> Option<string>, i: nat, mbids: Ids)
    requires i < |subs| && Scanned(subs, ask, i, mbids)
    ensures Scanned(subs, ask, i + 1, if ask(subs[i]).Some? then mbids + [ask(subs[i])] else mbids)
  {
    assert subs[i..][0] == subs[i] && subs[i..][1..] == subs[i + 1..];
    ConcatAssoc(mbids, [ask(subs[i])], FoundIds(subs[i + 1..], ask));
  }

  lemma ScanEnds(subs: seq<string>, ask: string -> Option<string>, i: nat, mbids: Ids)
    requires Scanned(subs, ask, i, mbids) && |mbids| <= FOLDER_SCAN_CAP
    requires i == |subs| || |mbids| == FOLDER_SCAN_CAP
    ensures Take(FoundIds(subs, ask), FOLDER_SCAN_CAP) == mbids
  {
    if i == |subs| { assert subs[i..] == []; }
  }

  /** Retagging, finished or not, leaves the tree well formed and the memo right. */
  lemma AfterRetag(w: World, v: World, cache: Cache, album: Path, names: seq<string>, artist: string, id: string)
    requires WellFormed(w) && Coherent(w, cache)
    requires v == Exec(w, ApplyScript(album, names, artist, id))
    ensures WellFormed(v) && Coherent(v, cache)
  {
    ExecKeepsTree(w, ApplyScript(album, names, artist, id));
    ApplyTracks(w, album, names, artist, id);
    TracksKeepsCoherent(w, v, cache);
  }

  /** A track whose tags cannot be written: apply has backed it up and stops there. */
  lemma RetagStuck(w: World, album: Path, names: seq<string>, artist: string, id: string, i: nat, after: World)
    requires i < |names| && Completes(w, RetagSteps(album, names[..i], artist, id))
    requires var v := Exec(w, RetagSteps(album, names[..i], artist, id));
             var b := Backup(id, names[i], album + [names[i]]);
             CanDo(v, b) && after == Do(v, b) && !CanDo(after, Retag(album + [names[i]], artist))
    ensures var script := ApplyScript(album, names, artist, id);
            Exec(w, script) == after && !Completes(w, script)
  {
    var src := album + [names[i]];
    var done, b, t := RetagSteps(album, names[..i], artist, id), Backup(id, names[i], src), Retag(src, artist);
    ExecOne(w, done, b);
    var rest := ApplyScriptAt(album, names, artist, id, i, done, b, t);
    ExecStuck(w, done + [b], t, rest);
  }

  lemma ApplyScriptAt(album: Path, names: seq<string>, artist: string, id: string, i: nat, done: seq<FileStep>,
                      b: FileStep, t: FileStep) returns (rest: seq<FileStep>)
    requires i < |names| && done == RetagSteps(album, names[..i], artist, id)
    requires b == Backup(id, names[i], album + [names[i]]) && t == Retag(album + [names[i]], artist)
    ensures ApplyScript(album, names, artist, id) == (done + [b]) + ([t] + rest)
  {
    rest := RetagSteps(album, names[i + 1..], artist, id) + [Record(Entry(id, Retagged, album, names))];
    RetagSplit(album, names, artist, id, i);
    assert names[i..][0] == names[i] && names[i..][1..] == names[i + 1..];
  }

  lemma NotItsOwnParent(p: Path)
    requires p != []
    ensures !(p <= Parent(p))
  {}

  lemma AlbumIsMoved(w: World, v: World, album: Path, dst: Path, names: seq<string>, artist: string, id: string)
    requires WellFormed(w) && dst != [] && Distinct(names)
    requires Completes(w, RelocateScript(album, dst, names, artist, id))
    requires v == Exec(w, RelocateScript(album, dst, names, artist, id))
    ensures AlbumMoved(w, v, album, dst, names, artist, id)
  {
    var b, m, r := RelocateStages(w, album, dst, names, artist, id);
    MakeDirsFacts(b, Parent(dst));
    MoveIsRename(MakeDirs(b, Parent(dst)), album, dst);
    assert Renamed(w.files, m.files, album, dst);
  }

  /** So does a relocation, finished or not. */
  lemma AfterRelocation(w: World, v: World, cache: Cache, album: Path, dst: Path, names: seq<string>, artist: string,
                        id: string)
    requires WellFormed(w) && Coherent(w, cache) && dst != []
    requires v == Exec(w, RelocateScript(album, dst, names, artist, id))
    ensures WellFormed(v) && Coherent(v, cache)
  {
    ExecKeepsTree(w, RelocateScript(album, dst, names, artist, id));
    RelocateTracks(w, album, dst, names, artist, id);
    TracksKeepsCoherent(w, v, cache);
  }

  lemma RestoreSnoc(back: seq<FileStep>, e: Entry, i: nat)
    requires i < |e.names|
    ensures back + RestoreSteps(e.path, e.names[..i + 1], e.id, e.op.Relocated?)
         == back + RestoreSteps(e.path, e.names[..i], e.id, e.op.Relocated?)
            + [Restore(e.id, e.names[i], e.path + [e.names[i]], e.op.Relocated?)]
  {
    StepsSnoc(e.path, e.names, "", e.id, e.op.Relocated?, i);
  }

  /** A restore that cannot write its target: revert stops there. */
  lemma RestoreStuck(w: World, back: seq<FileStep>, e: Entry, i: nat)
    requires i < |e.names|
    requires var done := back + RestoreSteps(e.path, e.names[..i], e.id, e.op.Relocated?);
             && Completes(w, done)
             && !CanDo(Exec(w, done), Restore(e.id, e.names[i], e.path + [e.names[i]], e.op.Relocated?))
    ensures var done := back + RestoreSteps(e.path, e.names[..i], e.id, e.op.Relocated?);
            var script := back + (RestoreSteps(e.path, e.names, e.id, e.op.Relocated?)
                                  + [Record(Entry(e.id, Reverted, e.path, e.names))]);
            Exec(w, script) == Exec(w, done) && !Completes(w, script)
  {
    var front := RestoreSteps(e.path, e.names[..i], e.id, e.op.Relocated?);
    var step := Restore(e.id, e.names[i], e.path + [e.names[i]], e.op.Relocated?);
    var rest := RestoreSteps(e.path, e.names[i + 1..], e.id, e.op.Relocated?);
    var record := [Record(Entry(e.id, Reverted, e.path, e.names))];
    RestoreSplit(e.path, e.names, e.id, e.op.Relocated?, i);
    assert e.names[i..][0] == e.names[i] && e.names[i..][1..] == e.names[i + 1..];
    assert back + (RestoreSteps(e.path, e.names, e.id, e.op.Relocated?) + record) ==
           (back + front) + ([step] + (rest + record));
    ExecStuck(w, back + front, step, rest + record);
  }

  /** The change recorded under id can be undone where the library stands now, as the latest open one always can. */
  ghost predicate CanBeUndone(w: World, id: string) {
    exists e: Entry, before: World :: e.id == id && Undoable(w, e, before)
  }

  /** Undoing such a change succeeds and leaves the memo right. */
  lemma AfterUndo(w: World, v: World, cache: Cache, id: string)
    requires WellFormed(w) && Coherent(w, cache) && CanBeUndone(w, id) && v == Exec(w, RevertScript(w, id))
    ensures Lookup(w.ledger, id).Some? && Completes(w, RevertScript(w, id)) && Coherent(v, cache)
  {
    var e: Entry, before: World :| e.id == id && Undoable(w, e, before);
    UndoOne(w, e, before);
    UndoTracks(w, e, before);
    TracksKeepsCoherent(w, v, cache);
  }

  /** A retag that goes ahead runs its script; it is Done when no step raised, and then every track is tagged. */
  ghost predicate Retagging(w: World, v: World, album: Path, names: seq<string>, artist: string, id: string,
                            reply: Reply)
  {
    && v == Exec(w, ApplyScript(album, names, artist, id))
    && (reply == Done <==> Completes(w, ApplyScript(album, names, artist, id)))
    && (reply == Done ==> TagsWritten(w, v, album, names, artist, id))
  }

  /** A relocation likewise; Done means that the album is at its new place. */
  ghost predicate Moving(w: World, v: World, album: Path, dst: Path, names: seq<string>, artist: string, id: string,
                         reply: Reply)
  {
    && dst != []
    && v == Exec(w, RelocateScript(album, dst, names, artist, id))
    && (reply == Done <==> Completes(w, RelocateScript(album, dst, names, artist, id)))
    && (reply == Done ==> AlbumMoved(w, v, album, dst, names, artist, id))
  }

  class Server {
    var world: World
    var cache: Cache
    const knowledge: Knowledge

    constructor (world: World, knowledge: Knowledge)
      ensures this.world == world && this.knowledge == knowledge && cache == map[]
      ensures WellFormed(world) && DistinctStamps(world) ==> Valid()
    {
      this.world := world;
      this.knowledge := knowledge;
      this.cache := map[];
    }

    ghost predicate Valid()
      reads this
    {
      WellFormed(world) && Coherent(world, cache)
    }

    /** _album_identity_mbid: memoised, and always what a fresh scan would say. */
    method AlbumIdentity(dir: Path, now: int) returns (ident: Option<string>)
      requires Valid() && IsDir(world, dir)
      modifies this`cache
      ensures Valid()
      ensures ident == Identity(world, dir)
      ensures cache == Remember(world, old(cache), dir, now).1
      ensures if dir in old(cache) && old(cache)[dir].mtime == world.dirs[dir] && now < old(cache)[dir].at + 3600
              then cache == old(cache)
              else cache == old(cache)[dir := Memo(world.dirs[dir], ident, now)]
    {
      RememberIsFresh(world, cache, dir, now);
      var mt := world.dirs[dir];
      if dir in cache && cache[dir].mtime == mt && now - cache[dir].at < IDENT_TTL {
        ident := cache[dir].ident;
      } else {
        ident := ScanAlbum(dir);
        cache := cache[dir := Memo(mt, ident, now)];
      }
    }

    /** The scan behind the memo: the dominant artist identifier, else the dominant album-artist identifier. */
    method ScanAlbum(dir: Path) returns (ident: Option<string>)
      ensures ident == Identity(world, dir)
    {
      var names := AudioFiles(world, dir);
      ident := DominantByCounting(ArtistIds(world, dir, names));
      if ident.None? {
        ident := DominantByCounting(AlbumArtistIds(world, dir, names));
      }
    }

    /** The one-level-deeper look: the first identified sub-directory. */
    method PeekDiscs(sub: Path, exclude: Path, now: int) returns (ident: Option<string>)
      requires Valid()
      modifies this`cache
      ensures Valid()
      ensures ident == Peek(world, sub, SubDirs(world, sub), exclude)
    {
      var discs := SubDirs(world, sub);
      ident := None;
      for i := 0 to |discs|
        invariant Valid() && ident.None?
        invariant Peek(world, sub, discs, exclude) == Peek(world, sub, discs[i..], exclude)
      {
        var s2 := sub + [discs[i]];
        assert discs[i] in discs;
        assert discs[i..][0] == discs[i] && discs[i..][1..] == discs[i + 1..];
        if s2 != exclude {
          ident := AlbumIdentity(s2, now);
          if ident.Some? {
            return;
          }
        }
      }
    }

    /** One sibling's contribution to the folder's identity. */
    method SiblingIdentity(sub: Path, exclude: Path, now: int) returns (ident: Option<string>)
      requires Valid() && IsDir(world, sub)
      modifies this`cache
      ensures Valid()
      ensures ident == SiblingId(world, sub, exclude)
    {
      if sub == exclude {
        return None;
      }
      ident := AlbumIdentity(sub, now);
      if ident.None? {
        ident := PeekDiscs(sub, exclude, now);
      }
    }

    /** The sampling loop of _folder_mbid, which stops once FOLDER_SCAN_CAP siblings are identified. */
    method SampleSiblings(dir: Path, subs: seq<string>, exclude: Path, now: int) returns (mbids: Ids)
      requires Valid() && AllDirs(world, dir, subs)
      modifies this`cache
      ensures Valid()
      ensures mbids == Take(SiblingIds(world, dir, subs, exclude), FOLDER_SCAN_CAP)
    {
      mbids := [];
      ghost var ask := SiblingAt(world, dir, exclude);
      ScanStarts(subs, ask);
      var i := 0;
      while i < |subs| && |mbids| < FOLDER_SCAN_CAP
        invariant 0 <= i <= |subs| && |mbids| <= FOLDER_SCAN_CAP
        invariant Valid()
        invariant Scanned(subs, ask, i, mbids)
      {
        mbids := AddSibling(dir, subs, exclude, i, mbids, now);
        i := i + 1;
      }
      ScanEnds(subs, ask, i, mbids);
    }

    /** One turn of that loop. */
    method AddSibling(dir: Path, subs: seq<string>, exclude: Path, i: nat, mbids: Ids, now: int) returns (more: Ids)
      requires i < |subs| && Scanned(subs, SiblingAt(world, dir, exclude), i, mbids)
      requires Valid() && AllDirs(world, dir, subs)
      modifies this`cache
      ensures Valid()
      ensures Scanned(subs, SiblingAt(world, dir, exclude), i + 1, more) && |mbids| <= |more| <= |mbids| + 1
    {
      assert subs[i] in subs;
      NextSibling(subs, SiblingAt(world, dir, exclude), i, mbids);
      var ident := SiblingIdentity(dir + [subs[i]], exclude, now);
      more := if ident.Some? then mbids + [ident] else mbids;
    }

    /** _folder_mbid: the dominant identifier of the sampled siblings, in sorted order. */
    method ScanFolder(dir: Path, exclude: Path, now: int) returns (r: Option<string>)
      requires Valid()
      modifies this`cache
      ensures Valid()
      ensures r == FolderMbid(world, dir, exclude)
    {
      var mbids := SampleSiblings(dir, SubDirs(world, dir), exclude, now);
      r := DominantByCounting(mbids);
    }

    /** Who the folder belongs to: what its albums say, else what its name says. */
    method FolderIdentity(album: Path, now: int) returns (r: Option<string>)
      requires Valid()
      modifies this`cache
      ensures Valid()
      ensures r == OrElse(FolderMbid(world, FolderDir(album), album), knowledge.nameToMbid(FolderName(album)))
    {
      r := ScanFolder(FolderDir(album), album, now);
      if r.None? {
        r := knowledge.nameToMbid(FolderName(album));
      }
    }

    /** evaluate: no answer for what is not a directory, else the assessment that the evidence calls for. */
    method Evaluate(album: Path, now: int) returns (a: Option<Assessment>)
      requires Valid()
      modifies this`cache
      ensures Valid()
      ensures a.None? <==> !IsDir(world, album)
      ensures a.Some? ==> Verdict(knowledge, EvidenceOf(world, knowledge, album), a.value)
    {
      if !(album in world.dirs) {
        return None;
      }
      var found := AssessAlbum(album, now);
      AssessIsVerdict(world, knowledge, album);
      return Some(found);
    }

    /** _assess: the memoised assessment is the one by fresh scans. */
    method AssessAlbum(album: Path, now: int) returns (a: Assessment)
      requires Valid()
      modifies this`cache
      ensures Valid()
      ensures a == Assess(world, knowledge, album)
    {
      var folder := FolderName(album);
      var names := AudioFiles(world, album);
      if names == [] {
        a := Assessment(Skip, SkipConfidence, None);
      } else if IsVa(knowledge, folder) {
        a := Assessment(Leave, Suppress, None);
      } else {
        var content := Identity(world, album);
        var folderId := FolderIdentity(album, now);
        a := Decide(knowledge, folder, Artists(world, album), AlbumArtists(world, album), content, folderId);
      }
    }

    /** apply: answers as the assessment and the arguments demand. Only an album that may be tagged and is writable
        is touched; its script then runs as far as it can, and Done means that every track is tagged. */
    method Apply(album: Path, given: string, confirmed: bool, writable: set<Path>, id: string, now: int)
        returns (reply: Reply, artist: string)
      requires Valid() && Fresh(world, id)
      modifies this
      ensures IsDir(old(world), album) ==> AsksForTag(Assess(old(world), knowledge, album), given, artist)
      ensures ApplyAnswers(IsDir(old(world), album), Assess(old(world), knowledge, album), artist, confirmed,
                           AllWritable(writable, album, AudioFiles(old(world), album)), reply)
      ensures if reply in {Done, Raised}
              then Retagging(old(world), world, album, AudioFiles(old(world), album), artist, id, reply)
              else world == old(world)
      ensures Valid()
    {
      artist := "";
      if !(album in world.dirs) {
        return NotADirectory, artist;
      }
      var a := AssessAlbum(album, now);
      reply, artist := TagIfAllowed(album, a, given, confirmed, writable, id);
    }

    /** The checks of apply on a directory that has been assessed, and the retag if they pass. */
    method TagIfAllowed(album: Path, a: Assessment, given: string, confirmed: bool, writable: set<Path>, id: string)
        returns (reply: Reply, artist: string)
      requires Valid()
      modifies this`world
      ensures AsksForTag(a, given, artist)
      ensures ApplyAnswers(true, a, artist, confirmed, AllWritable(writable, album, AudioFiles(old(world), album)),
                           reply)
      ensures if reply in {Done, Raised}
              then Retagging(old(world), world, album, AudioFiles(old(world), album), artist, id, reply)
              else world == old(world)
      ensures Valid()
    {
      artist := ArtistToTag(a, given);
      var names := AudioFiles(world, album);
      var refusal := RefusesTag(a, artist, confirmed, AllWritable(writable, album, names));
      if refusal.Some? {
        return refusal.value, artist;
      }
      reply := RetagAlbum(album, names, artist, id);
    }

    static method ArtistToTag(a: Assessment, given: string) returns (artist: string)
      ensures AsksForTag(a, given, artist)
    {
      artist := Strip(given);
      if artist == "" && a.action.RetagTo? {
        artist := a.action.artist;
      }
    }

    /** The checks of apply on a directory, in the order in which they are made. */
    static method RefusesTag(a: Assessment, artist: string, confirmed: bool, writable: bool)
        returns (refusal: Option<Reply>)
      ensures refusal.Some? ==>
                refusal.value !in {Done, Raised} && ApplyAnswers(true, a, artist, confirmed, writable, refusal.value)
      ensures refusal.None? ==>
                forall r :: r in {Done, Raised} ==> ApplyAnswers(true, a, artist, confirmed, writable, r)
    {
      if artist == "" {
        return Some(NoTarget);
      }
      if a.albumArtists == Some({artist}) {
        return Some(Noop);
      }
      if a.confidence != High && !confirmed {
        return Some(Refused);
      }
      if !writable {
        return Some(Blocked);
      }
      return None;
    }

    /** What apply does once it goes ahead. */
    method RetagAlbum(album: Path, names: seq<string>, artist: string, id: string) returns (reply: Reply)
      requires Valid() && names == AudioFiles(world, album)
      modifies this`world
      ensures Valid() && reply in {Done, Raised}
      ensures Retagging(old(world), world, album, names, artist, id, reply)
    {
      ghost var w0 := world;
      reply := WriteTags(album, names, artist, id);
      AfterRetag(w0, world, cache, album, names, artist, id);
      if reply == Done {
        ghost var v := ApplyOutcome(w0, album, names, artist, id);
      }
    }

    /** The backup-then-write loop of apply, and its ledger record. */
    method WriteTags(album: Path, names: seq<string>, artist: string, id: string) returns (reply: Reply)
      requires Distinct(names) && forall f :: f in names ==> album + [f] in world.files
      modifies this`world
      ensures var script := ApplyScript(album, names, artist, id);
              && world == Exec(old(world), script)
              && reply == (if Completes(old(world), script) then Done else Raised)
    {
      ghost var w0 := world;
      var e := Entry(id, Retagged, album, names);
      for i := 0 to |names|
        invariant Completes(w0, RetagSteps(album, names[..i], artist, id))
        invariant world == Exec(w0, RetagSteps(album, names[..i], artist, id))
        invariant world.files.Keys == w0.files.Keys
      {
        var fn := names[i];
        var src := album + [fn];
        ghost var done := RetagSteps(album, names[..i], artist, id);
        StepsSnoc(album, names, artist, id, false, i);
        assert names[i] in names;
        var b, t := Backup(id, fn, src), Retag(src, artist);
        ExecOne(w0, done, b);
        world := world.(backups := world.backups[BackupKey(id, fn) := world.files[src]]);
        if !world.files[src].taggable {
          RetagStuck(w0, album, names, artist, id, i, world);
          return Raised;
        }
        ExecOne(w0, done + [b], t);
        assert done + [b] + [t] == done + [b, t];
        world := world.(files := world.files[src := WithAlbumArtist(world.files[src], artist)]);
      }
      assert names[..|names|] == names;
      ExecOne(w0, RetagSteps(album, names, artist, id), Record(e));
      world := world.(ledger := world.ledger + [e]);
      return Done;
    }

    /** relocate: likewise; only an album that may be moved, to a place where there is nothing yet, is touched. */
    method Relocate(album: Path, given: string, confirmed: bool, writable: set<Path>, id: string, now: int)
        returns (reply: Reply, artist: string)
      requires Valid() && Fresh(world, id)
      modifies this
      ensures IsDir(old(world), album) ==> AsksToMove(Assess(old(world), knowledge, album), given, artist)
      ensures var dst := Destination(album, artist);
              RelocateAnswers(IsDir(old(world), album), Assess(old(world), knowledge, album), artist, confirmed,
                              dst == album, Exists(old(world), dst),
                              AllWritable(writable, album, AudioFiles(old(world), album)), reply)
      ensures if reply in {Done, Raised}
              then Moving(old(world), world, album, Destination(album, artist), AudioFiles(old(world), album), artist,
                          id, reply)
              else world == old(world)
      ensures Valid()
    {
      artist := "";
      if !(album in world.dirs) {
        return NotADirectory, artist;
      }
      var a := AssessAlbum(album, now);
      reply, artist := MoveIfAllowed(album, a, given, confirmed, writable, id);
    }

    /** The checks of relocate on a directory that has been assessed, and the move if they pass. */
    method MoveIfAllowed(album: Path, a: Assessment, given: string, confirmed: bool, writable: set<Path>, id: string)
        returns (reply: Reply, artist: string)
      requires Valid() && IsDir(world, album)
      modifies this`world
      ensures AsksToMove(a, given, artist)
      ensures var dst := Destination(album, artist);
              RelocateAnswers(true, a, artist, confirmed, dst == album, Exists(old(world), dst),
                              AllWritable(writable, album, AudioFiles(old(world), album)), reply)
      ensures if reply in {Done, Raised}
              then Moving(old(world), world, album, Destination(album, artist), AudioFiles(old(world), album), artist,
                          id, reply)
              else world == old(world)
      ensures Valid()
    {
      artist := ArtistToMove(a, given);
      var names, dst := AudioFiles(world, album), Destination(album, artist);
      var refusal := RefusesMove(a, artist, confirmed, dst == album, Exists(world, dst),
                                 AllWritable(writable, album, names));
      if refusal.Some? {
        return refusal.value, artist;
      }
      reply := MoveAlbum(album, dst, names, artist, id);
    }

    static method ArtistToMove(a: Assessment, given: string) returns (artist: string)
      ensures AsksToMove(a, given, artist)
    {
      artist := Strip(given);
      if artist == "" && (a.action.RetagTo? || a.action.RelocateTo?) {
        artist := a.action.artist;
      }
    }

    /** The checks of relocate on a directory, in the order in which they are made. */
    static method RefusesMove(a: Assessment, artist: string, confirmed: bool, there: bool, taken: bool, writable: bool)
        returns (refusal: Option<Reply>)
      ensures refusal.Some? ==>
                && refusal.value !in {Done, Raised}
                && RelocateAnswers(true, a, artist, confirmed, there, taken, writable, refusal.value)
      ensures refusal.None? ==> !taken && forall r :: r in {Done, Raised} ==>
                RelocateAnswers(true, a, artist, confirmed, there, taken, writable, r)
    {
      if artist == "" {
        return Some(NoTarget);
      }
      if !a.action.RelocateTo? && !confirmed {
        return Some(Refused);
      }
      if there {
        return Some(Noop);
      }
      if taken {
        return Some(TargetExists);
      }
      if !writable {
        return Some(Blocked);
      }
      return None;
    }

    /** What relocate does once it goes ahead. */
    method MoveAlbum(album: Path, dst: Path, names: seq<string>, artist: string, id: string) returns (reply: Reply)
      requires Valid() && names == AudioFiles(world, album) && IsDir(world, album) && dst != [] && !Exists(world, dst)
      modifies this`world
      ensures Valid() && reply in {Done, Raised}
      ensures Moving(old(world), world, album, dst, names, artist, id, reply)
    {
      ghost var w0 := world;
      reply := Carry(album, dst, names, artist, id);
      AfterRelocation(w0, world, cache, album, dst, names, artist, id);
      if reply == Done {
        AlbumIsMoved(w0, world, album, dst, names, artist, id);
      }
    }

    /** Backups, then the move with its tags and record. */
    method Carry(album: Path, dst: Path, names: seq<string>, artist: string, id: string) returns (reply: Reply)
      requires WellFormed(world) && Distinct(names) && forall f :: f in names ==> album + [f] in world.files
      requires dst != [] && IsDir(world, album) && !Exists(world, dst)
      modifies this`world
      ensures var script := RelocateScript(album, dst, names, artist, id);
              && world == Exec(old(world), script)
              && reply == (if Completes(old(world), script) then Done else Raised)
    {
      ghost var w0 := world;
      ghost var b, move := BackupSteps(album, names, id), [MakeDirectory(Parent(dst)), Move(album, dst)];
      var e := Entry(id, Relocated(dst), album, names);
      ghost var tail := BestEffortSteps(dst, names, artist) + [Record(e)];
      assert RelocateScript(album, dst, names, artist, id) == b + (move + tail) == (b + move) + tail;
      BackUp(album, names, id);
      ExecKeepsTree(w0, b);
      ExecConcat(w0, b, move + tail);
      ExecConcat(w0, b, move);
      var ok := MoveTree(album, dst, tail);
      if !ok {
        return Raised;
      }
      reply := TagAndRecord(w0, b + move, dst, names, artist, e);
    }

    /** The best-effort tagging loop of relocate and its record. */
    method TagAndRecord(ghost w0: World, ghost base: seq<FileStep>, dst: Path, names: seq<string>, artist: string,
                        e: Entry)
        returns (reply: Reply)
      requires Completes(w0, base) && world == Exec(w0, base)
      modifies this`world
      ensures reply == Done
      ensures var script := base + (BestEffortSteps(dst, names, artist) + [Record(e)]);
              Completes(w0, script) && world == Exec(w0, script)
    {
      assert base + BestEffortSteps(dst, names[..0], artist) == base;
      for i := 0 to |names|
        invariant Completes(w0, base + BestEffortSteps(dst, names[..i], artist))
        invariant world == Exec(w0, base + BestEffortSteps(dst, names[..i], artist))
      {
        ghost var done := BestEffortSteps(dst, names[..i], artist);
        var target := dst + [names[i]];
        StepsSnoc(dst, names, artist, "", false, i);
        ExecOne(w0, base + done, RetagBestEffort(target, artist));
        ConcatAssoc(base, done, [RetagBestEffort(target, artist)]);
        if target in world.files && world.files[target].taggable {
          world := world.(files := world.files[target := WithAlbumArtist(world.files[target], artist)]);
        }
      }
      assert names[..|names|] == names;
      ghost var tags := BestEffortSteps(dst, names, artist);
      ExecOne(w0, base + tags, Record(e));
      ConcatAssoc(base, tags, [Record(e)]);
      world := world.(ledger := world.ledger + [e]);
      return Done;
    }

    /** The backup loop of relocate. */
    method BackUp(album: Path, names: seq<string>, id: string)
      requires Distinct(names) && forall f :: f in names ==> album + [f] in world.files
      modifies this`world
      ensures Completes(old(world), BackupSteps(album, names, id))
      ensures world == Exec(old(world), BackupSteps(album, names, id))
      ensures world.files == old(world).files && world.dirs == old(world).dirs
    {
      ghost var w0 := world;
      for i := 0 to |names|
        invariant Completes(w0, BackupSteps(album, names[..i], id))
        invariant world == Exec(w0, BackupSteps(album, names[..i], id))
        invariant world.files == w0.files && world.dirs == w0.dirs
      {
        StepsSnoc(album, names, "", id, false, i);
        assert names[i] in names;
        ExecOne(w0, BackupSteps(album, names[..i], id), Backup(id, names[i], album + [names[i]]));
        world := world.(backups := world.backups[BackupKey(id, names[i]) := world.files[album + [names[i]]]]);
      }
      assert names[..|names|] == names;
    }

    /** revert: runs its script as far as it can; an unknown change id changes nothing. The memo stays right when
        the change can be undone. */
    method Revert(id: string) returns (reply: Reply)
      requires WellFormed(world)
      modifies this`world
      ensures var script := RevertScript(old(world), id);
              && world == Exec(old(world), script)
              && (reply == UnknownChange <==> Lookup(old(world).ledger, id).None?)
              && (reply == Done <==> Lookup(old(world).ledger, id).Some? && Completes(old(world), script))
      ensures WellFormed(world)
      ensures CanBeUndone(old(world), id) && old(Coherent(world, cache)) ==> reply == Done && Valid()
    {
      ghost var w0 := world;
      var found := Lookup(world.ledger, id);
      ExecKeepsTree(w0, RevertScript(w0, id));
      if CanBeUndone(w0, id) && Coherent(w0, cache) {
        AfterUndo(w0, Exec(w0, RevertScript(w0, id)), cache, id);
      }
      if found.None? {
        return UnknownChange;
      }
      reply := UndoEntry(found.value);
    }

    /** The body of revert once the change is found. */
    method UndoEntry(e: Entry) returns (reply: Reply)
      requires WellFormed(world)
      modifies this`world
      ensures world == Exec(old(world), UndoSteps(old(world), e))
      ensures reply == if Completes(old(world), UndoSteps(old(world), e)) then Done else Raised
    {
      ghost var w0 := world;
      ghost var back := MoveBackSteps(w0, e);
      ghost var record := Record(Entry(e.id, Reverted, e.path, e.names));
      ghost var tail := RestoreSteps(e.path, e.names, e.id, e.op.Relocated?) + [record];
      assert UndoSteps(w0, e) == back + tail;
      if e.op.Relocated? && e.path != [] && e.op.newPath in world.dirs && !Exists(world, e.path) {
        var ok := MoveTree(e.op.newPath, e.path, tail);
        if !ok {
          return Raised;
        }
      }
      reply := RestoreAndRecord(w0, back, e);
    }

    /** os.makedirs of the parent, then shutil.move. */
    method MoveTree(src: Path, dst: Path, ghost tail: seq<FileStep>) returns (ok: bool)
      requires WellFormed(world) && dst != [] && IsDir(world, src) && !Exists(world, dst)
      modifies this`world
      ensures var back := [MakeDirectory(Parent(dst)), Move(src, dst)];
              && (ok <==> Completes(old(world), back))
              && (ok ==> world == Exec(old(world), back))
              && (!ok ==> world == Exec(old(world), back + tail) && !Completes(old(world), back + tail))
    {
      ghost var w0 := world;
      ghost var mk, mv := MakeDirectory(Parent(dst)), Move(src, dst);
      assert [mk, mv] + tail == [] + ([mk] + ([mv] + tail)) == ([] + [mk]) + ([mv] + tail);
      assert [] + [mk] + [mv] == [mk, mv] && [] + ([mk] + [mv]) == [mk, mv] && ([] + [mk]) + ([mv] + []) == [mk, mv];
      if !CanMakeDirs(world, Parent(dst)) {
        ExecStuck(w0, [], mk, [mv] + tail);
        ExecStuck(w0, [], mk, [mv]);
        return false;
      }
      ExecOne(w0, [], mk);
      MakeDirsFacts(world, Parent(dst));
      world := MakeDirs(world, Parent(dst));
      NotItsOwnParent(dst);
      if src == [] || src <= dst {
        ExecStuck(w0, [] + [mk], mv, tail);
        ExecStuck(w0, [] + [mk], mv, []);
        return false;
      }
      ExecOne(w0, [] + [mk], mv);
      world := MoveDir(world, src, dst);
      return true;
    }

    /** The restore loop of revert; it stops where a target cannot be written. */
    method RestoreAll(ghost w0: World, ghost back: seq<FileStep>, e: Entry) returns (ok: bool)
      requires Completes(w0, back) && world == Exec(w0, back)
      modifies this`world
      ensures ok ==> var done := back + RestoreSteps(e.path, e.names, e.id, e.op.Relocated?);
                     Completes(w0, done) && world == Exec(w0, done)
      ensures !ok ==> var script := back + (RestoreSteps(e.path, e.names, e.id, e.op.Relocated?)
                                            + [Record(Entry(e.id, Reverted, e.path, e.names))]);
                      !Completes(w0, script) && world == Exec(w0, script)
    {
      var onlyExisting := e.op.Relocated?;
      assert back + RestoreSteps(e.path, e.names[..0], e.id, onlyExisting) == back;
      for i := 0 to |e.names|
        invariant Completes(w0, back + RestoreSteps(e.path, e.names[..i], e.id, onlyExisting))
        invariant world == Exec(w0, back + RestoreSteps(e.path, e.names[..i], e.id, onlyExisting))
      {
        ghost var done := back + RestoreSteps(e.path, e.names[..i], e.id, onlyExisting);
        ghost var step := Restore(e.id, e.names[i], e.path + [e.names[i]], onlyExisting);
        RestoreSnoc(back, e, i);
        ok := RestoreFile(e.id, e.names[i], e.path + [e.names[i]], onlyExisting);
        if !ok {
          RestoreStuck(w0, back, e, i);
          return false;
        }
        ExecOne(w0, done, step);
      }
      assert e.names[..|e.names|] == e.names;
      ok := true;
    }

    /** One turn of that loop; ok unless the copy raises. */
    method RestoreFile(id: string, name: string, dst: Path, onlyExisting: bool) returns (ok: bool)
      requires dst != []
      modifies this`world
      ensures var step := Restore(id, name, dst, onlyExisting);
              && ok == CanDo(old(world), step)
              && world == if ok then Do(old(world), step) else old(world)
    {
      if BackupKey(id, name) in world.backups && (onlyExisting ==> dst in world.files) {
        if dst in world.dirs || Parent(dst) !in world.dirs {
          return false;
        }
        var data := world.backups[BackupKey(id, name)];
        if dst in world.files {
          world := world.(files := world.files[dst := data]);
        } else {
          world := world.(files := world.files[dst := data], dirs := world.dirs[Parent(dst) := world.clock],
                          clock := world.clock + 1);
        }
      }
      return true;
    }

    /** The restore loop of revert and its reversal record. */
    method RestoreAndRecord(ghost w0: World, ghost back: seq<FileStep>, e: Entry) returns (reply: Reply)
      requires Completes(w0, back) && world == Exec(w0, back)
      modifies this`world
      ensures var script := back + (RestoreSteps(e.path, e.names, e.id, e.op.Relocated?)
                                    + [Record(Entry(e.id, Reverted, e.path, e.names))]);
              && world == Exec(w0, script)
              && reply == (if Completes(w0, script) then Done else Raised)
    {
      var ok := RestoreAll(w0, back, e);
      if !ok { return Raised; }
      var entry := Entry(e.id, Reverted, e.path, e.names);
      ghost var steps := RestoreSteps(e.path, e.names, e.id, e.op.Relocated?);
      ExecOne(w0, back + steps, Record(entry));
      assert back + steps + [Record(entry)] == back + (steps + [Record(entry)]);
      world := world.(ledger := world.ledger + [entry]);
      return Done;
    }
  }
}
