/** Why a moved album has to be saved by its backup: only audio directly in an album is backed up before it
    moves, and an older change may be reverted on top of what was moved. */
module LibraryNested {
  import opened Basics
  import opened Text
  import opened LibraryTree
  import opened LibraryScripts
  import opened LibraryConservation

  // ---------------------------------------------------------------------------
  // short scripts
  // ---------------------------------------------------------------------------

  lemma ExecTwo(w: World, s: FileStep, t: FileStep)
    requires CanDo(w, s) && CanDo(Do(w, s), t)
    ensures Exec(w, [s, t]) == Do(Do(w, s), t)
  {
    var script := [s, t];
    assert script[1..] == [t] && [t][1..] == [];
    assert Exec(w, script) == Exec(Do(w, s), [t]);
    assert Exec(Do(w, s), [t]) == Exec(Do(Do(w, s), t), []);
  }

  lemma ExecThree(w: World, r: FileStep, s: FileStep, t: FileStep)
    requires CanDo(w, r) && CanDo(Do(w, r), s) && CanDo(Do(Do(w, r), s), t)
    ensures Exec(w, [r, s, t]) == Do(Do(Do(w, r), s), t)
  {
    var script := [r, s, t];
    assert script[1..] == [s, t];
    assert Exec(w, script) == Exec(Do(w, r), [s, t]);
    ExecTwo(Do(w, r), s, t);
  }

  // ---------------------------------------------------------------------------
  // single calls
  // ---------------------------------------------------------------------------

  /** apply on an album with one track. */
  lemma ApplyToOne(w: World, album: Path, name: string, artist: string, id: string, track: Path) returns (v: World)
    requires WellFormed(w) && IsDir(w, album) && AudioFiles(w, album) == [name] && track == album + [name]
    requires track in w.files && w.files[track].taggable
    ensures v == After(w, Event(Apply(album, artist, id), 10)) && WellFormed(v)
    ensures v.files == w.files[track := WithAlbumArtist(w.files[track], artist)]
    ensures v.backups == w.backups[BackupKey(id, name) := w.files[track]]
    ensures v.dirs == w.dirs && v.clock == w.clock && v.ledger == w.ledger + [Entry(id, Retagged, album, [name])]
  {
    var steps := [Backup(id, name, track), Retag(track, artist), Record(Entry(id, Retagged, album, [name]))];
    OneTrackScript(w, album, name, artist, id, track, steps);
    ExecThree(w, steps[0], steps[1], steps[2]);
    ExecKeepsTree(w, steps);
    v := Exec(w, steps);
  }

  lemma OneTrackScript(w: World, album: Path, name: string, artist: string, id: string, track: Path,
                       steps: seq<FileStep>)
    requires IsDir(w, album) && AudioFiles(w, album) == [name] && track == album + [name]
    requires steps == [Backup(id, name, track), Retag(track, artist), Record(Entry(id, Retagged, album, [name]))]
    ensures After(w, Event(Apply(album, artist, id), 10)) == Exec(w, steps)
  {
    assert [name][1..] == [];
    assert RetagSteps(album, [name], artist, id) == steps[..2];
    assert ApplyScript(album, [name], artist, id) == steps && Take(steps, 10) == steps;
  }

  lemma MoveScript(w: World, album: Path, dst: Path, artist: string, id: string, steps: seq<FileStep>)
    requires AudioFiles(w, album) == [] && RelocateEnabled(w, album, artist) && dst == Destination(album, artist)
    requires steps == [MakeDirectory(Parent(dst)), Move(album, dst), Record(Entry(id, Relocated(dst), album, []))]
    ensures After(w, Event(Relocate(album, artist, id), 10)) == Exec(w, steps)
  {
    assert RelocateScript(album, dst, [], artist, id) == steps && Take(steps, 10) == steps;
  }

  /** relocate of an album without tracks of its own to a folder that exists: a rename and a ledger entry. */
  lemma MoveNested(w: World, album: Path, dst: Path, artist: string, id: string)
      returns (v: World, files: map<Path, Content>, dirs: map<Path, nat>)
    requires WellFormed(w) && AudioFiles(w, album) == [] && RelocateEnabled(w, album, artist)
    requires dst == Destination(album, artist) && Parent(dst) in w.dirs && !(album <= dst)
    ensures v == After(w, Event(Relocate(album, artist, id), 10)) && WellFormed(v)
    ensures Renamed(w.files, files, album, dst) && Renamed(w.dirs, dirs, album, dst)
    ensures v.files == files && v.dirs.Keys == dirs.Keys && v.backups == w.backups
    ensures v.ledger == w.ledger + [Entry(id, Relocated(dst), album, [])]
  {
    var e := Entry(id, Relocated(dst), album, []);
    MoveScript(w, album, dst, artist, id, [MakeDirectory(Parent(dst)), Move(album, dst), Record(e)]);
    v, files, dirs := MoveThenRecord(w, album, dst, e);
  }

  lemma MoveThenRecord(w: World, album: Path, dst: Path, e: Entry)
      returns (v: World, files: map<Path, Content>, dirs: map<Path, nat>)
    requires WellFormed(w) && album != [] && dst != [] && Parent(dst) in w.dirs && CanDo(w, Move(album, dst))
    ensures v == Exec(w, [MakeDirectory(Parent(dst)), Move(album, dst), Record(e)]) && WellFormed(v)
    ensures Renamed(w.files, files, album, dst) && Renamed(w.dirs, dirs, album, dst)
    ensures v.files == files && v.dirs.Keys == dirs.Keys && v.backups == w.backups && v.ledger == w.ledger + [e]
  {
    var make, move := MakeDirectory(Parent(dst)), Move(album, dst);
    ExistingCanBeMade(w, Parent(dst));
    ExecThree(w, make, move, Record(e));
    ExecKeepsTree(w, [make, move, Record(e)]);
    var m;
    m, files, dirs := MoveShape(w, album, dst);
    RestampKeys(w, m, files, dirs, album, dst);
    v := m.(ledger := m.ledger + [e]);
  }

  lemma RestampKeys(w: World, m: World, files: map<Path, Content>, dirs: map<Path, nat>, src: Path, dst: Path)
    requires src != [] && dst != [] && m == Restamped(w, files, dirs, src, dst)
    requires Parent(src) in dirs && Parent(dst) in dirs
    ensures m.files == files && m.dirs.Keys == dirs.Keys && m.backups == w.backups && m.ledger == w.ledger
  {}

  /** revert of a retag of one track: its bytes are written back whatever is there now. */
  lemma RevertOne(v: World, e: Entry, id: string, dir: Path, name: string, target: Path, was: Content)
      returns (z: World)
    requires e == Entry(id, Retagged, dir, [name]) && Lookup(v.ledger, id) == Some(e) && target == dir + [name]
    requires BackupKey(id, name) in v.backups && v.backups[BackupKey(id, name)] == was
    requires target in v.files && target !in v.dirs && dir in v.dirs
    ensures z == After(v, Event(Revert(id), 10))
    ensures z.files == v.files[target := was] && z.backups == v.backups
  {
    var restore, record := Restore(id, name, target, false), Record(Entry(id, Reverted, dir, [name]));
    assert [name][1..] == [] && Parent(target) == dir;
    assert RestoreSteps(dir, [name], id, false) == [restore];
    assert RevertScript(v, id) == [restore, record] && Take([restore, record], 10) == [restore, record];
    ExecTwo(v, restore, record);
    z := Exec(v, [restore, record]);
  }

  // ---------------------------------------------------------------------------
  // the scene
  // ---------------------------------------------------------------------------

  /** Two albums a/x and b/x, each with one track of the same name in a disc folder, and a folder c without x. */
  datatype Scene = Scene(a: string, b: string, c: string, x: string, disc: string, name: string,
                         track: Content, other: Content, artist: string, one: string, two: string, three: string)
  {
    function Album(f: string): Path { [f, x] }
    function Disc(f: string): Path { [f, x, disc] }
    function Track(f: string): Path { [f, x, disc, name] }
    function Retagged(): Content { WithAlbumArtist(other, artist) }

    predicate Apart() {
      && a != b && b != c && a != c && one != two && one != three && two != three
      && other.taggable && track != other && track != Retagged()
    }

    predicate Named() { SafeArtist(b) == b && PlainName(b) && SafeArtist(c) == c && PlainName(c) && IsAudioName(name) }

    predicate Valid() { Apart() && Named() }

    /** The library holds just these two tracks; nothing was ever changed. */
    ghost predicate IsStart(w: World) {
      && WellFormed(w) && w.ledger == [] && w.backups == map[]
      && w.files == map[Track(a) := track, Track(b) := other] && [c] in w.dirs && Album(c) !in w.dirs
    }

    /** Retag the other album's disc, move that album away, move the first album to its place, revert the retag. */
    function Events(): seq<Event> {
      [Event(Apply(Disc(b), artist, one), 10), Event(Relocate(Album(b), c, two), 10),
       Event(Relocate(Album(a), b, three), 10), Event(Revert(one), 10)]
    }
  }

  lemma Paths(s: Scene, f: string)
    ensures Parent(s.Track(f)) == s.Disc(f) && Parent(s.Disc(f)) == s.Album(f)
    ensures Parent(s.Album(f)) == [f] && Parent([f]) == []
    ensures s.Disc(f) + [s.name] == s.Track(f) && Last(s.Track(f)) == s.name && Last(s.Album(f)) == s.x
  {}

  lemma DirsOf(s: Scene, w: World, f: string)
    requires WellFormed(w) && s.Track(f) in w.files
    ensures s.Disc(f) in w.dirs && s.Album(f) in w.dirs && [f] in w.dirs && s.Track(f) !in w.dirs
  {
    Paths(s, f);
  }

  /** No track lies directly in an album of the scene. */
  lemma NoOwnTracks(w: World, album: Path)
    requires |album| == 2 && forall p :: p in w.files ==> |p| == 4
    ensures AudioFiles(w, album) == []
  {
    var names := AudioFiles(w, album);
    FirstIsIn(names);
    assert forall f :: f in names ==> album + [f] in w.files && |album + [f]| == 3;
  }

  // ---------------------------------------------------------------------------
  // the run, call by call
  // ---------------------------------------------------------------------------

  /** The library between the calls: content c in the disc of f/x, content d in that of g/x. */
  ghost predicate Stage(s: Scene, w: World, f: string, c: Content, g: string, d: Content, ledger: seq<Entry>) {
    && WellFormed(w) && w.files == map[s.Track(f) := c, s.Track(g) := d] && w.ledger == ledger
    && w.backups == map[BackupKey(s.one, s.name) := s.other]
  }

  lemma StageSwaps(s: Scene, w: World, f: string, c: Content, g: string, d: Content, ledger: seq<Entry>)
    requires f != g && Stage(s, w, f, c, g, d, ledger)
    ensures Stage(s, w, g, d, f, c, ledger)
  {
    assert s.Track(f)[0] != s.Track(g)[0];
  }

  function Entry1(s: Scene): Entry { Entry(s.one, Retagged, s.Disc(s.b), [s.name]) }
  function Moves(s: Scene, id: string, f: string, g: string): Entry { Entry(id, Relocated(s.Album(g)), s.Album(f), []) }

  lemma OtherTrackElsewhere(s: Scene, w: World, c: Content, d: Content)
    requires s.a != s.b && w.files == map[s.Track(s.a) := c, s.Track(s.b) := d]
    ensures forall p :: p in w.files && p != [] && Parent(p) == s.Disc(s.b) ==> p == s.Disc(s.b) + [s.name]
  {
    Paths(s, s.a);
    Paths(s, s.b);
    assert s.Disc(s.a)[0] != s.Disc(s.b)[0];
  }

  lemma FirstAlbum(s: Scene, w: World)
    requires s.Valid() && s.IsStart(w)
    ensures IsDir(w, s.Disc(s.b)) && AudioFiles(w, s.Disc(s.b)) == [s.name] && s.Track(s.b) == s.Disc(s.b) + [s.name]
    ensures s.Track(s.a) != s.Track(s.b) && w.files[s.Track(s.b)] == s.other
  {
    DirsOf(s, w, s.b);
    Paths(s, s.b);
    OtherTrackElsewhere(s, w, s.track, s.other);
    OneOwnTrack(w, s.Disc(s.b), s.name);
    assert s.Track(s.a)[0] != s.Track(s.b)[0];
  }

  lemma FirstCall(s: Scene, w: World) returns (v: World)
    requires s.Valid() && s.IsStart(w)
    ensures v == After(w, s.Events()[0])
    ensures Stage(s, v, s.b, s.Retagged(), s.a, s.track, [Entry1(s)]) && v.dirs == w.dirs
  {
    FirstAlbum(s, w);
    v := ApplyToOne(w, s.Disc(s.b), s.name, s.artist, s.one, s.Track(s.b));
    RetaggedFiles(s.Track(s.a), s.Track(s.b), s.track, s.other, s.Retagged(), w.files);
  }

  lemma RetaggedFiles(p: Path, q: Path, c: Content, d: Content, e: Content, files: map<Path, Content>)
    requires p != q && files == map[p := c, q := d]
    ensures files[q := e] == map[q := e, p := c]
  {}

  /** Renaming f/x to g/x renames its track and leaves the other one alone. */
  lemma RenamedScene(s: Scene, f: string, g: string, h: string, files: map<Path, Content>, was: map<Path, Content>,
                     c: Content, d: Content)
    requires f != g && h != f && h != g && was == map[s.Track(f) := c, s.Track(h) := d]
    requires Renamed(was, files, s.Album(f), s.Album(g))
    ensures files == map[s.Track(g) := c, s.Track(h) := d]
  {
    var src, dst := s.Album(f), s.Album(g);
    assert s.Track(h)[0] != src[0];
    assert Reloc(s.Track(f), src, dst) == s.Track(g) && Reloc(s.Track(h), src, dst) == s.Track(h);
    assert s.Track(f) in was && s.Track(h) in was;
    forall q | q in files ensures q == s.Track(g) || q == s.Track(h) {
      assert Reloc(q, dst, src) in was && q == Reloc(Reloc(q, dst, src), src, dst);
    }
  }

  /** After the rename nothing is left at f/x, and the folder f is still there. */
  lemma RenamedDirs(s: Scene, f: string, g: string, dirs: map<Path, nat>, was: map<Path, nat>)
    requires f != g && Renamed(was, dirs, s.Album(f), s.Album(g)) && [f] in was
    ensures [f] in dirs && s.Album(f) !in dirs
  {
    assert Reloc([f], s.Album(f), s.Album(g)) == [f];
    assert s.Album(f) in dirs ==> Reloc(s.Album(f), s.Album(g), s.Album(f)) in was;
  }

  lemma CanMove(s: Scene, w: World, f: string, g: string)
    requires f != g && WellFormed(w) && s.Track(f) in w.files && [g] in w.dirs && s.Album(g) !in w.dirs
    requires SafeArtist(g) == g && forall p :: p in w.files ==> |p| == 4
    ensures RelocateEnabled(w, s.Album(f), g) && Destination(s.Album(f), g) == s.Album(g)
    ensures Parent(s.Album(g)) in w.dirs && !(s.Album(f) <= s.Album(g)) && AudioFiles(w, s.Album(f)) == []
  {
    DirsOf(s, w, f);
    Paths(s, g);
    NoOwnTracks(w, s.Album(f));
    assert |s.Album(g)| == 2 && s.Album(f)[0] != s.Album(g)[0];
  }

  /** Moving f/x to g/x: the track goes along, without a backup. */
  lemma MoveCall(s: Scene, v: World, f: string, g: string, h: string, c: Content, d: Content, id: string,
                 ledger: seq<Entry>) returns (u: World)
    requires f != g && h != f && h != g && SafeArtist(g) == g && Stage(s, v, f, c, h, d, ledger)
    requires [g] in v.dirs && s.Album(g) !in v.dirs
    ensures u == After(v, Event(Relocate(s.Album(f), g, id), 10))
    ensures Stage(s, u, g, c, h, d, ledger + [Moves(s, id, f, g)]) && [f] in u.dirs && s.Album(f) !in u.dirs
  {
    DirsOf(s, v, f);
    CanMove(s, v, f, g);
    var files, dirs;
    u, files, dirs := MoveNested(v, s.Album(f), s.Album(g), g, id);
    RenamedScene(s, f, g, h, files, v.files, c, d);
    RenamedDirs(s, f, g, dirs, v.dirs);
  }

  lemma SecondCall(s: Scene, w: World, v: World) returns (u: World)
    requires s.Valid() && s.IsStart(w) && v.dirs == w.dirs && Stage(s, v, s.b, s.Retagged(), s.a, s.track, [Entry1(s)])
    ensures u == After(v, s.Events()[1])
    ensures Stage(s, u, s.c, s.Retagged(), s.a, s.track, [Entry1(s)] + [Moves(s, s.two, s.b, s.c)])
    ensures [s.b] in u.dirs && s.Album(s.b) !in u.dirs
  {
    u := MoveCall(s, v, s.b, s.c, s.a, s.Retagged(), s.track, s.two, [Entry1(s)]);
  }

  lemma ThirdCall(s: Scene, u: World, ledger: seq<Entry>) returns (t: World)
    requires s.Valid() && [s.b] in u.dirs && s.Album(s.b) !in u.dirs
    requires Stage(s, u, s.c, s.Retagged(), s.a, s.track, ledger)
    ensures t == After(u, s.Events()[2])
    ensures Stage(s, t, s.b, s.track, s.c, s.Retagged(), ledger + [Moves(s, s.three, s.a, s.b)])
  {
    StageSwaps(s, u, s.c, s.Retagged(), s.a, s.track, ledger);
    t := MoveCall(s, u, s.a, s.b, s.c, s.track, s.Retagged(), s.three, ledger);
  }

  lemma OldChangeIsFound(s: Scene, two: Entry, three: Entry)
    requires s.Apart() && two.id == s.two && three.id == s.three
    ensures Lookup([Entry1(s)] + [two] + [three], s.one) == Some(Entry1(s))
  {
    var first, second := [Entry1(s)], [Entry1(s)] + [two];
    assert (second + [three])[..2] == second && second[..1] == first;
    assert Lookup(first, s.one) == Some(Entry1(s));
    assert Lookup(second, s.one) == Some(Entry1(s));
  }

  lemma FourthCall(s: Scene, t: World, two: Entry, three: Entry) returns (z: World)
    requires s.Apart() && two.id == s.two && three.id == s.three
    requires Stage(s, t, s.b, s.track, s.c, s.Retagged(), [Entry1(s)] + [two] + [three])
    ensures z == After(t, s.Events()[3])
    ensures z.files == map[s.Track(s.b) := s.other, s.Track(s.c) := s.Retagged()] && z.backups == t.backups
  {
    DirsOf(s, t, s.b);
    Paths(s, s.b);
    OldChangeIsFound(s, two, three);
    z := RevertOne(t, Entry1(s), s.one, s.Disc(s.b), s.name, s.Track(s.b), s.other);
    assert s.Track(s.b)[0] != s.Track(s.c)[0];
  }

  lemma FourEvents(w: World, events: seq<Event>)
    requires |events| == 4
    ensures AfterAll(w, events) == After(After(After(After(w, events[0]), events[1]), events[2]), events[3])
  {
    var w1 := After(w, events[0]);
    var w2 := After(w1, events[1]);
    var w3 := After(w2, events[2]);
    assert AfterAll(w, events) == AfterAll(w1, events[1..]);
    assert events[1..][0] == events[1] && events[1..][1..] == events[2..];
    assert AfterAll(w1, events[1..]) == AfterAll(w2, events[2..]);
    assert events[2..][0] == events[2] && events[2..][1..] == events[3..];
    assert AfterAll(w2, events[2..]) == AfterAll(w3, events[3..]);
    assert events[3..][0] == events[3] && events[3..][1..] == [];
    assert AfterAll(w3, events[3..]) == AfterAll(After(w3, events[3]), []);
  }

  /** The whole run: the library after each call. */
  lemma WholeRun(s: Scene, w: World) returns (v: World, u: World, t: World, z: World)
    requires s.Valid() && s.IsStart(w)
    ensures v == After(w, s.Events()[0]) && Stage(s, v, s.b, s.Retagged(), s.a, s.track, [Entry1(s)])
    ensures u == After(v, s.Events()[1])
    ensures Stage(s, u, s.c, s.Retagged(), s.a, s.track, [Entry1(s)] + [Moves(s, s.two, s.b, s.c)])
    ensures t == After(u, s.Events()[2])
    ensures z == After(t, s.Events()[3]) && z.backups == map[BackupKey(s.one, s.name) := s.other]
    ensures z.files == map[s.Track(s.b) := s.other, s.Track(s.c) := s.Retagged()]
  {
    v := FirstCall(s, w);
    u := SecondCall(s, w, v);
    t := ThirdCall(s, u, [Entry1(s)] + [Moves(s, s.two, s.b, s.c)]);
    z := FourthCall(s, t, Moves(s, s.two, s.b, s.c), Moves(s, s.three, s.a, s.b));
  }

  /** From an empty ledger, with fresh ids and ordinary folder names: two albums, four calls, and the bytes of the
      first album's track are nowhere any more. */
  lemma NestedAudioCanBeLost(s: Scene, w: World)
    requires s.Valid() && s.IsStart(w)
    ensures IsAudio(s.Track(s.a)) && w.files[s.Track(s.a)] == s.track && Kept(w, w)
    ensures !Survives(AfterAll(w, s.Events()), s.track)
  {
    var v, u, t, z := WholeRun(s, w);
    FourEvents(w, s.Events());
    OtherBytesOnly(s, z);
    TracksAreAudio(s, w.files);
    EmptyLedgerIsKept(w);
  }

  lemma EmptyLedgerIsKept(w: World)
    requires w.ledger == []
    ensures Kept(w, w)
  {}

  lemma TracksAreAudio(s: Scene, files: map<Path, Content>)
    requires s.Valid() && files == map[s.Track(s.a) := s.track, s.Track(s.b) := s.other]
    ensures IsAudio(s.Track(s.a)) && s.Track(s.a) in files && files[s.Track(s.a)] == s.track
  {
    assert s.Track(s.a)[0] != s.Track(s.b)[0];
  }

  /** Of that run only the third call, which moves a track that its backup does not save, is not admissible, and
      that is all that is wrong with it. */
  lemma OnlyTheThirdCallIsUnsafe(s: Scene, w: World)
    requires s.Valid() && s.IsStart(w)
    ensures var v := After(w, s.Events()[0]);
            var u := After(v, s.Events()[1]);
            && Admissible(w, w, s.Events()[0].call) && Admissible(w, v, s.Events()[1].call)
            && Fresh(u, s.three) && PlainName(SafeArtist(s.b)) && !Secured(u, s.Album(s.a), Untouched(w, u))
            && Admissible(w, After(u, s.Events()[2]), s.Events()[3].call)
  {
    var v, u, t, z := WholeRun(s, w);
    TracksAreAudio(s, w.files);
    SecondIsSecured(s, w, v);
    ThirdIsNotSecured(s, w, u, Moves(s, s.two, s.b, s.c));
  }

  lemma OtherBytesOnly(s: Scene, z: World)
    requires s.Apart() && z.backups == map[BackupKey(s.one, s.name) := s.other]
    requires z.files == map[s.Track(s.b) := s.other, s.Track(s.c) := s.Retagged()]
    ensures !Survives(z, s.track)
  {}

  lemma SecondIsSecured(s: Scene, w: World, v: World)
    requires s.Apart() && s.IsStart(w) && Stage(s, v, s.b, s.Retagged(), s.a, s.track, [Entry1(s)])
    ensures Secured(v, s.Album(s.b), Untouched(w, v)) && Fresh(v, s.two)
  {
    forall p | p in Untouched(w, v) && p in v.files && IsAudio(p) && s.Album(s.b) <= p
      ensures Saved(v, s.Album(s.b), p)
    {
      assert s.Track(s.a)[0] != s.Album(s.b)[0];
      assert p == s.Track(s.b) && v.files[p] == s.other;
      assert v.backups[BackupKey(s.one, s.name)] == s.other;
    }
  }

  lemma ThirdIsNotSecured(s: Scene, w: World, u: World, two: Entry)
    requires s.Apart() && s.IsStart(w) && two.id == s.two && IsAudio(s.Track(s.a))
    requires Stage(s, u, s.c, s.Retagged(), s.a, s.track, [Entry1(s)] + [two])
    ensures !Secured(u, s.Album(s.a), Untouched(w, u)) && Fresh(u, s.three)
  {
    var p := s.Track(s.a);
    FirstTrackStays(s, w.files, u.files);
    NotSaved(s, u, p);
    UnsavedMember(w, u, s.Album(s.a), p);
  }

  lemma UnsavedMember(w: World, u: World, album: Path, p: Path)
    requires p in w.files && p in u.files && w.files[p] == u.files[p] && IsAudio(p) && album <= p && !Saved(u, album, p)
    ensures !Secured(u, album, Untouched(w, u))
  {
    assert p in Untouched(w, u);
  }

  lemma FirstTrackStays(s: Scene, was: map<Path, Content>, now: map<Path, Content>)
    requires s.Apart() && was == map[s.Track(s.a) := s.track, s.Track(s.b) := s.other]
    requires now == map[s.Track(s.c) := s.Retagged(), s.Track(s.a) := s.track]
    ensures s.Track(s.a) in was && s.Track(s.a) in now && was[s.Track(s.a)] == s.track == now[s.Track(s.a)]
    ensures forall q :: q in now ==> |q| == 4
  {
    assert s.Track(s.a)[0] != s.Track(s.b)[0];
  }

  lemma NotSaved(s: Scene, u: World, p: Path)
    requires s.Apart() && p in u.files && u.files[p] == s.track && forall q :: q in u.files ==> |q| == 4
    requires u.backups == map[BackupKey(s.one, s.name) := s.other]
    ensures !Saved(u, s.Album(s.a), p)
  {
    assert forall f :: |s.Album(s.a) + [f]| == 3;
  }

  // ---------------------------------------------------------------------------
  // there is such a library
  // ---------------------------------------------------------------------------

  lemma PlainLetter(name: string)
    requires |name| == 1 && !IsSpace(name[0]) && name[0] != '.' && name[0] != '/'
    ensures SafeArtist(name) == name && PlainName(name)
  {
    assert Replace(name, '/', '_') == name;
    StripFixed(name, IsSpace);
    StripFixed(name, IsDot);
  }

  lemma SceneExists(track: Content, other: Content) returns (s: Scene)
    requires other.taggable && track != other && track != WithAlbumArtist(other, "A")
    ensures s.Valid()
  {
    s := Scene("A", "B", "C", "X", "CD1", "t.mp3", track, other, "A", "1", "2", "3");
    PlainLetter("B");
    PlainLetter("C");
    Mp3Name(s.name);
  }

  /** The folders of f/x down to its disc. */
  function Chain(s: Scene, f: string): set<Path> { {[f], s.Album(f), s.Disc(f)} }

  lemma ChainIsClosed(s: Scene, f: string)
    ensures forall p :: p in Chain(s, f) ==> 0 < |p| <= 3 && p[0] == f && (Parent(p) == [] || Parent(p) in Chain(s, f))
  {
    Paths(s, f);
  }

  lemma StartExists(s: Scene) returns (w: World)
    requires s.Apart()
    ensures s.IsStart(w)
  {
    var ds := {[]} + {[s.c]} + Chain(s, s.a) + Chain(s, s.b);
    w := World(map[s.Track(s.a) := s.track, s.Track(s.b) := s.other], map p | p in ds :: 0, 1, map[], []);
    FoldersAreClosed(s, ds);
    Paths(s, s.a);
    Paths(s, s.b);
  }

  lemma FoldersAreClosed(s: Scene, ds: set<Path>)
    requires s.Apart() && ds == {[]} + {[s.c]} + Chain(s, s.a) + Chain(s, s.b)
    ensures [] in ds && s.Disc(s.a) in ds && s.Disc(s.b) in ds && [s.c] in ds && s.Album(s.c) !in ds
    ensures forall p :: p in ds ==> |p| <= 3 && (p != [] ==> Parent(p) in ds)
  {
    ChainIsClosed(s, s.a);
    ChainIsClosed(s, s.b);
    assert s.Album(s.c)[0] == s.c && |s.Album(s.c)| == 2;
    assert Parent([s.c]) == [];
  }
}
