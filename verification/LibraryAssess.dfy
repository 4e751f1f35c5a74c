/** The assessment of one album, and what a recommended retag does to the next assessment. */
module LibraryAssess {
  import opened Basics
  import opened Text
  import opened LibraryTree
  import opened LibraryScripts
  import opened LibraryUndo
  import opened LibraryIdentity

  /** The name rules and MusicBrainz answers the assessment consults: _casenorm, _norm, the
      various-artists folder pattern, and the two cached lookups. They do not change during a run. */
  datatype Knowledge = Knowledge(casenorm: string -> string, norm: string -> string, vaFolder: string -> bool,
                                 nameToMbid: string -> Option<string>, mbidToName: string -> Option<string>)

  predicate Related(k: Knowledge, a: string, b: string) {
    var na, nb := k.norm(a), k.norm(b);
    || (k.casenorm(a) != "" && k.casenorm(a) == k.casenorm(b))
    || (na != "" && nb != "" && (na == nb || Contains(nb, na) || Contains(na, nb)))
  }

  predicate IsVa(k: Knowledge, name: string) {
    || k.norm(name) in {"various", "variousartists", "va", "compilation", "compilations", "ost", "soundtrack"}
    || k.vaFolder(name)
  }

  datatype Action = Skip | Leave | RetagTo(artist: string) | RelocateTo(artist: string)
  datatype Confidence = SkipConfidence | Suppress | Propose | High

  /** `albumArtists` is absent when the assessment stopped before reading tags. */
  datatype Assessment = Assessment(action: Action, confidence: Confidence, albumArtists: Option<set<string>>)

  /** The non-empty values of a tag over the listed tracks. */
  function TagValues(files: map<Path, Content>, album: Path, names: seq<string>, tag: Tags -> Option<string>)
      : set<string>
    requires forall f :: f in names ==> album + [f] in files
  {
    set f | f in names && Truthy(tag(files[album + [f]].tags)) :: tag(files[album + [f]].tags).value
  }

  function ArtistTag(t: Tags): Option<string> { t.artist }

  function AlbumArtistTag(t: Tags): Option<string> { t.albumArtist }

  /** {t[0] for t in tracks if t[0]} */
  function Artists(w: World, album: Path): set<string> {
    TagValues(w.files, album, AudioFiles(w, album), ArtistTag)
  }

  /** {t[1] for t in tracks if t[1]} */
  function AlbumArtists(w: World, album: Path): set<string> {
    TagValues(w.files, album, AudioFiles(w, album), AlbumArtistTag)
  }

  predicate Truthy(s: Option<string>) { s.Some? && s.value != "" }

  /** The only element of a one-element set. */
  function Only(s: set<string>): (r: Option<string>)
    ensures r.Some? <==> |s| == 1
    ensures r.Some? ==> s == {r.value}
  {
    if |s| == 1 then
      SingletonElement(s);
      var x :| x in s && s == {x};
      Some(x)
    else None
  }

  lemma SingletonElement(s: set<string>)
    requires |s| == 1
    ensures exists x :: x in s && s == {x}
  {
    var x :| x in s;
    assert |s - {x}| == 0;
    assert s == {x};
  }

  /** The artist folder: the first path component ("." for the library root itself). */
  function FolderName(album: Path): string { if album == [] then "." else album[0] }
  function FolderDir(album: Path): Path { if album == [] then [] else album[..1] }

  /** The part of _assess after the tags are read. */
  function Decide(k: Knowledge, folder: string, arts: set<string>, aas: set<string>,
                  content: Option<string>, folderId: Option<string>): (a: Assessment)
    ensures a.action.RetagTo? ==> a.action.artist == folder
    ensures a.action.RelocateTo? ==>
              content.Some? && folderId.Some? && content != folderId && !Related(k, a.action.artist, folder)
  {
    var aa, art := Only(aas), Only(arts);
    if aa.Some? && IsVa(k, aa.value) then Assessment(Leave, Suppress, Some(aas))
    else if folderId.Some? && content.Some? then
      if folderId == content then
        if aa.Some? && Related(k, aa.value, folder) then Assessment(Leave, Suppress, Some(aas))
        else Assessment(RetagTo(folder), High, Some(aas))
      else
        var target := if Truthy(k.mbidToName(content.value)) then k.mbidToName(content.value) else art;
        if Truthy(target) && !Related(k, target.value, folder)
        then Assessment(RelocateTo(target.value), High, Some(aas))
        else Assessment(Leave, Propose, Some(aas))
    else if arts != {} && (forall a | a in arts :: Related(k, a, folder)) && aa.Some? && !Related(k, aa.value, folder)
    then Assessment(RetagTo(folder), High, Some(aas))
    else Assessment(Leave, Propose, Some(aas))
  }

  /** A retag always goes to the folder's name, and a relocation is never a guess: both identifiers are
      known and differ. */
  function Assess(w: World, k: Knowledge, album: Path): (a: Assessment)
    ensures a.action.RetagTo? ==> a.action.artist == FolderName(album)
    ensures a.action.RelocateTo? ==>
              && Identity(w, album).Some?
              && Identity(w, album) != OrElse(FolderMbid(w, FolderDir(album), album), k.nameToMbid(FolderName(album)))
              && !Related(k, a.action.artist, FolderName(album))
  {
    var folder := FolderName(album);
    if AudioFiles(w, album) == [] then Assessment(Skip, SkipConfidence, None)
    else if IsVa(k, folder) then Assessment(Leave, Suppress, None)
    else Decide(k, folder, Artists(w, album), AlbumArtists(w, album), Identity(w, album),
                OrElse(FolderMbid(w, FolderDir(album), album), k.nameToMbid(folder)))
  }

  // ---------------------------------------------------------------------------
  // what apply and relocate make of it
  // ---------------------------------------------------------------------------

  datatype Reply =
    | NotADirectory | NoTarget | Noop | Refused | Blocked | TargetExists | UnknownChange
    | Done | Raised

  predicate AllWritable(writable: set<Path>, album: Path, names: seq<string>) {
    forall f | f in names :: album + [f] in writable
  }

  /** t is the album artist a call of `apply` is to set: its argument without the blanks around it, or, when nothing
      is left of that, the recommended one. */
  predicate WantsTag(a: Assessment, given: string, t: string) {
    t != "" && (Strip(given) == t || (Strip(given) == "" && a.action == RetagTo(t)))
  }

  /** The only album artist a call may ask for; empty when it asks for none. */
  ghost predicate AsksForTag(a: Assessment, given: string, artist: string) {
    forall t :: WantsTag(a, given, t) <==> artist != "" && t == artist
  }

  /** Every answer of `apply` and exactly when it is given, on a directory or not, with all tracks writable or not;
      Done and Raised tell how the writing went. */
  ghost predicate ApplyAnswers(isDir: bool, a: Assessment, artist: string, confirmed: bool, writable: bool,
                               reply: Reply)
  {
    var sure, settled := a.confidence == High || confirmed, a.albumArtists == Some({artist});
    && (reply == NotADirectory <==> !isDir)
    && (reply == NoTarget <==> isDir && artist == "")
    && (reply == Noop <==> isDir && artist != "" && settled)
    && (reply == Refused <==> isDir && artist != "" && !settled && !sure)
    && (reply == Blocked <==> isDir && artist != "" && !settled && sure && !writable)
    && (reply in {Done, Raised} <==> isDir && artist != "" && !settled && sure && writable)
  }

  /** What a finished retag leaves: every track tagged, its old bytes in the backup, and a ledger entry. */
  ghost predicate TagsWritten(w: World, v: World, album: Path, names: seq<string>, artist: string, id: string) {
    && v.dirs == w.dirs && Tagged(v.files, w.files, album, names, artist)
    && (forall f :: f in names ==> album + [f] in w.files && w.files[album + [f]].taggable)
    && BackupsTaken(w, v.backups, album, names, id)
    && v.ledger == w.ledger + [Entry(id, Retagged, album, names)]
  }

  /** t is the artist a call of `relocate` is to move the album to. */
  predicate WantsMove(a: Assessment, given: string, t: string) {
    t != "" &&
    (Strip(given) == t || (Strip(given) == "" && (a.action == RetagTo(t) || a.action == RelocateTo(t))))
  }

  ghost predicate AsksToMove(a: Assessment, given: string, artist: string) {
    forall t :: WantsMove(a, given, t) <==> artist != "" && t == artist
  }

  /** Every answer of `relocate` and exactly when it is given; `there` says that the album already is where it would
      go, `taken` that something is in that place. */
  ghost predicate RelocateAnswers(isDir: bool, a: Assessment, artist: string, confirmed: bool, there: bool, taken: bool,
                                  writable: bool, reply: Reply)
  {
    var wanted := artist != "" && (a.action.RelocateTo? || confirmed);
    && (reply == NotADirectory <==> !isDir)
    && (reply == NoTarget <==> isDir && artist == "")
    && (reply == Refused <==> isDir && artist != "" && !wanted)
    && (reply == Noop <==> isDir && wanted && there)
    && (reply == TargetExists <==> isDir && wanted && !there && taken)
    && (reply == Blocked <==> isDir && wanted && !there && !taken && !writable)
    && (reply in {Done, Raised} <==> isDir && wanted && !there && !taken && writable)
  }

  /** What a finished relocation leaves: the tree below the album at the new place, its tracks tagged where they can
      be, their old bytes in the backup, and a ledger entry. */
  ghost predicate AlbumMoved(w: World, v: World, album: Path, dst: Path, names: seq<string>, artist: string, id: string)
  {
    && (exists moved :: Renamed(w.files, moved, album, dst) && Tagged(v.files, moved, dst, names, artist))
    && BackupsTaken(w, v.backups, album, names, id)
    && v.ledger == w.ledger + [Entry(id, Relocated(dst), album, names)]
  }

  // ---------------------------------------------------------------------------
  // retagging settles the matter
  // ---------------------------------------------------------------------------

  /** A name is related to itself unless both normal forms are empty. */
  lemma RelatedToItself(k: Knowledge, a: string)
    ensures Related(k, a, a) <==> Normal(k, a)
  {}

  /** Two worlds with the same directories and the same files, up to the album-artist text. */
  ghost predicate SameLibrary(w: World, v: World) {
    && v.dirs.Keys == w.dirs.Keys
    && v.files.Keys == w.files.Keys
    && forall p :: p in w.files ==> SameMbids(w.files[p], v.files[p])
  }

  lemma SameIdentities(w: World, v: World, d: Path)
    requires SameLibrary(w, v)
    ensures Identity(w, d) == Identity(v, d)
  {
    assert SameView(w, d, v, d);
    SameIdentity(w, d, v, d);
  }

  lemma SameSubDirs(w: World, v: World, d: Path)
    requires SameLibrary(w, v)
    ensures SubDirs(w, d) == SubDirs(v, d)
  {
    assert (set p | p in w.dirs && p != [] && Parent(p) == d :: Last(p))
        == (set p | p in v.dirs && p != [] && Parent(p) == d :: Last(p));
  }

  lemma SamePeek(w: World, v: World, sub: Path, discs: seq<string>, exclude: Path)
    requires SameLibrary(w, v)
    ensures Peek(w, sub, discs, exclude) == Peek(v, sub, discs, exclude)
  {
    var ask, again := DiscAt(w, sub, exclude), DiscAt(v, sub, exclude);
    forall f | f in discs ensures ask(f) == again(f) { SameIdentities(w, v, sub + [f]); }
    SameAnswers(discs, ask, again);
  }

  lemma SameSibling(w: World, v: World, sub: Path, exclude: Path)
    requires SameLibrary(w, v)
    ensures SiblingId(w, sub, exclude) == SiblingId(v, sub, exclude)
  {
    SameIdentities(w, v, sub);
    SameSubDirs(w, v, sub);
    SamePeek(w, v, sub, SubDirs(w, sub), exclude);
  }

  lemma SameSiblings(w: World, v: World, dir: Path, subs: seq<string>, exclude: Path)
    requires SameLibrary(w, v)
    ensures SiblingIds(w, dir, subs, exclude) == SiblingIds(v, dir, subs, exclude)
  {
    var ask, again := SiblingAt(w, dir, exclude), SiblingAt(v, dir, exclude);
    forall f | f in subs ensures ask(f) == again(f) { SameSibling(w, v, dir + [f], exclude); }
    SameAnswers(subs, ask, again);
  }

  lemma SameFolder(w: World, v: World, dir: Path, exclude: Path)
    requires SameLibrary(w, v)
    ensures FolderMbid(w, dir, exclude) == FolderMbid(v, dir, exclude)
  {
    SameSubDirs(w, v, dir);
    SameSiblings(w, v, dir, SubDirs(w, dir), exclude);
  }

  /** Every listed track has the new album artist, and is otherwise what it was. */
  ghost predicate AllRetagged(v: World, w: World, album: Path, names: seq<string>, artist: string) {
    forall f :: f in names ==> album + [f] in w.files && album + [f] in v.files &&
                               v.files[album + [f]] == WithAlbumArtist(w.files[album + [f]], artist)
  }

  lemma TaggedAll(w: World, v: World, album: Path, names: seq<string>, artist: string)
    requires Tagged(v.files, w.files, album, names, artist)
    requires forall f :: f in names ==> album + [f] in w.files && w.files[album + [f]].taggable
    ensures AllRetagged(v, w, album, names, artist)
  {
    forall f | f in names ensures v.files[album + [f]] == WithAlbumArtist(w.files[album + [f]], artist) {
      TargetPath(album, f);
    }
  }

  /** After the retag every track carries the new album artist and its old artist. */
  lemma RetaggedTags(w: World, v: World, album: Path, artist: string)
    requires Tagged(v.files, w.files, album, AudioFiles(w, album), artist)
    requires forall f :: f in AudioFiles(w, album) ==> album + [f] in w.files && w.files[album + [f]].taggable
    requires artist != "" && AudioFiles(w, album) != []
    ensures AudioFiles(v, album) == AudioFiles(w, album)
    ensures Artists(v, album) == Artists(w, album)
    ensures AlbumArtists(v, album) == {artist}
  {
    SameAudio(w, album, v, album);
    TaggedAll(w, v, album, AudioFiles(w, album), artist);
    SameValues(w.files, v.files, album, AudioFiles(w, album), ArtistTag);
    OneValue(v.files, album, AudioFiles(w, album), AlbumArtistTag, artist);
  }

  lemma SameValues(was: map<Path, Content>, now: map<Path, Content>, album: Path, names: seq<string>,
                   tag: Tags -> Option<string>)
    requires forall f :: f in names ==> album + [f] in was && album + [f] in now
    requires forall f :: f in names ==> tag(now[album + [f]].tags) == tag(was[album + [f]].tags)
    ensures TagValues(now, album, names, tag) == TagValues(was, album, names, tag)
  {}

  lemma OneValue(files: map<Path, Content>, album: Path, names: seq<string>, tag: Tags -> Option<string>, x: string)
    requires forall f :: f in names ==> album + [f] in files && tag(files[album + [f]].tags) == Some(x)
    requires x != "" && names != []
    ensures TagValues(files, album, names, tag) == {x}
  {
    assert names[0] in names;
    assert x in TagValues(files, album, names, tag);
  }

  /** The name has a non-empty normal form. */
  predicate Normal(k: Knowledge, name: string) { k.casenorm(name) != "" || k.norm(name) != "" }

  /** The album's assessment recommends a retag and `apply` performs it: the next assessment says "leave"
      exactly when the folder name has a non-empty normal form, and recommends the same retag otherwise; it
      never asks for a relocation. The retag is not performed twice: a second `apply` of the recommendation
      changes nothing, finding no target in the first case and the tag already in place in the second. */
  lemma RetagSettles(w: World, k: Knowledge, album: Path, id: string)
    requires album != [] && album[0] != "" && Assess(w, k, album).action.RetagTo?
    requires Completes(w, ApplyScript(album, AudioFiles(w, album), album[0], id))
    ensures Assess(w, k, album).action == RetagTo(album[0])
    ensures var v := Exec(w, ApplyScript(album, AudioFiles(w, album), album[0], id));
            && Assess(v, k, album).action == (if Normal(k, album[0]) then Leave else RetagTo(album[0]))
            && forall artist, confirmed, writable, reply ::
                 && AsksForTag(Assess(v, k, album), "", artist)
                 && ApplyAnswers(true, Assess(v, k, album), artist, confirmed, writable, reply) ==>
                   reply == if Normal(k, album[0]) then NoTarget else Noop
  {
    var v := ApplyOutcome(w, album, AudioFiles(w, album), album[0], id);
    Reassess(w, v, k, album);
    RelatedToItself(k, album[0]);
    SecondApply(Assess(v, k, album), album[0]);
  }

  /** Without an argument a settled album has no target, and one with the recommended artist nothing to do. */
  lemma SecondApply(a: Assessment, folder: string)
    requires folder != "" && a.albumArtists == Some({folder}) && a.action in {Leave, RetagTo(folder)}
    ensures forall artist :: AsksForTag(a, "", artist) ==> artist == if a.action == Leave then "" else folder
  {
    forall artist | AsksForTag(a, "", artist) ensures artist == if a.action == Leave then "" else folder {
      assert WantsTag(a, "", artist) <==> artist != "";
      assert WantsTag(a, "", folder) <==> a.action != Leave;
    }
  }

  lemma ApplyOutcome(w: World, album: Path, names: seq<string>, artist: string, id: string) returns (v: World)
    requires Distinct(names) && Completes(w, ApplyScript(album, names, artist, id))
    ensures v == Exec(w, ApplyScript(album, names, artist, id)) && TagsWritten(w, v, album, names, artist, id)
  {
    var e := Entry(id, Retagged, album, names);
    var steps := RetagSteps(album, names, artist, id);
    CompletesPrefix(w, steps, [Record(e)]);
    RetagLoop(w, album, names, artist, id);
    ExecConcat(w, steps, [Record(e)]);
    ExecRecord(Exec(w, steps), e);
    v := Exec(w, ApplyScript(album, names, artist, id));
  }

  lemma Reassess(w: World, v: World, k: Knowledge, album: Path)
    requires album != [] && album[0] != "" && Assess(w, k, album).action.RetagTo?
    requires v.dirs == w.dirs && Tagged(v.files, w.files, album, AudioFiles(w, album), album[0])
    requires forall f :: f in AudioFiles(w, album) ==> album + [f] in w.files && w.files[album + [f]].taggable
    ensures Assess(v, k, album).action == if Related(k, album[0], album[0]) then Leave else RetagTo(album[0])
    ensures Assess(v, k, album).albumArtists == Some({album[0]})
  {
    TaggedLibrary(w, v, album, AudioFiles(w, album), album[0]);
    RetaggedTags(w, v, album, album[0]);
    SameIdentities(w, v, album);
    SameFolder(w, v, FolderDir(album), album);
    var folderId := OrElse(FolderMbid(w, FolderDir(album), album), k.nameToMbid(album[0]));
    RetagDecides(k, album[0], Artists(w, album), AlbumArtists(w, album), Identity(w, album), folderId);
  }

  lemma TaggedLibrary(w: World, v: World, album: Path, names: seq<string>, artist: string)
    requires v.dirs == w.dirs && Tagged(v.files, w.files, album, names, artist)
    ensures SameLibrary(w, v)
  {}

  lemma RetagDecides(k: Knowledge, folder: string, arts: set<string>, aas: set<string>,
                     content: Option<string>, folderId: Option<string>)
    requires !IsVa(k, folder) && Decide(k, folder, arts, aas, content, folderId).action.RetagTo?
    ensures Decide(k, folder, arts, {folder}, content, folderId).action ==
              if Related(k, folder, folder) then Leave else RetagTo(folder)
    ensures Decide(k, folder, arts, {folder}, content, folderId).albumArtists == Some({folder})
  {
    assert Only({folder}) == Some(folder);
  }
}
