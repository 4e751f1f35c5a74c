/** The tools of rick-library-mcp as scripts of file steps. A crash or an exception leaves the world
    that a prefix of the script produces. */
module LibraryScripts {
  import opened Basics
  import opened Text
  import opened LibraryTree

  function Last(p: Path): string
    requires p != []
  {
    p[|p| - 1]
  }

  function LastDot(s: string): (i: int)
    ensures -1 <= i < |s|
    ensures i >= 0 ==> s[i] == '.'
  {
    if s == [] then -1 else if s[|s| - 1] == '.' then |s| - 1 else LastDot(s[..|s| - 1])
  }

  /** os.path.splitext(name)[1].lower() in AUDIO_EXTS: the last dot counts unless only dots precede it. */
  predicate IsAudioName(name: string) {
    var i := LastDot(name);
    && i > 0
    && (exists k :: 0 <= k < i && name[k] != '.')
    && Lower(name[i..]) in {".flac", ".mp3", ".m4a", ".opus", ".ogg", ".wav", ".aac"}
  }

  /** An audio file of the library: a file whose name has one of the audio extensions. */
  predicate IsAudio(p: Path) { p != [] && IsAudioName(Last(p)) }

  /** _audio_files: the audio file names directly in a directory, sorted. */
  function AudioFiles(w: World, dir: Path): (names: seq<string>)
    ensures Distinct(names)
    ensures forall f :: f in names <==> dir + [f] in w.files && IsAudioName(f)
  {
    var s := set p | p in w.files && p != [] && Parent(p) == dir && IsAudioName(Last(p)) :: Last(p);
    assert forall f :: f in s <==> dir + [f] in w.files && IsAudioName(f) by {
      forall f ensures f in s <==> dir + [f] in w.files && IsAudioName(f) {
        var p := dir + [f];
        assert Parent(p) == dir && Last(p) == f;
        if f in s {
          var q :| q in w.files && q != [] && Parent(q) == dir && IsAudioName(Last(q)) && f == Last(q);
          assert q == Parent(q) + [Last(q)];
        }
      }
    }
    SortedNames(s)
  }

  ghost predicate Distinct(names: seq<string>) {
    forall i, j :: 0 <= i < j < |names| ==> names[i] != names[j]
  }

  lemma DistinctTail(names: seq<string>)
    requires Distinct(names) && names != []
    ensures Distinct(names[1..]) && names[0] !in names[1..]
    ensures forall f :: f in names <==> f == names[0] || f in names[1..]
  {
    assert names == [names[0]] + names[1..];
  }

  lemma Mp3Name(name: string)
    requires name == "t.mp3"
    ensures IsAudioName(name)
  {
    var a, b, c := name[..4], name[..3], name[..2];
    assert a[..3] == b && b[..2] == c;
    assert LastDot(c) == 1;
    assert LastDot(b) == 1;
    assert LastDot(a) == 1;
    assert LastDot(name) == 1;
    LowerMp3(name[1..]);
    assert name[0] != '.';
  }

  lemma LowerMp3(s: string)
    requires s == ".mp3"
    ensures Lower(s) == ".mp3"
  {
    assert |Lower(s)| == 4 && Lower(s)[0] == '.' && Lower(s)[1] == 'm' && Lower(s)[2] == 'p' && Lower(s)[3] == '3';
  }

  /** A directory with one file that can be audio. */
  lemma OneOwnTrack(w: World, dir: Path, name: string)
    requires IsAudioName(name) && dir + [name] in w.files
    requires forall p :: p in w.files && p != [] && Parent(p) == dir ==> p == dir + [name]
    ensures AudioFiles(w, dir) == [name]
  {
    var names := AudioFiles(w, dir);
    forall f | f in names ensures f == name {
      assert Parent(dir + [f]) == dir && Last(dir + [f]) == f;
      assert Last(dir + [name]) == name;
    }
    assert name in names;
    OnlyElement(names, name);
  }

  lemma OnlyElement(names: seq<string>, name: string)
    requires Distinct(names) && name in names && forall f :: f in names ==> f == name
    ensures names == [name]
  {
    assert |names| <= 1 || names[0] != names[1];
    forall i | 0 <= i < |names| ensures names[i] == name { assert names[i] in names; }
  }

  // ---------------------------------------------------------------------------
  // the folder a relocation goes to
  // ---------------------------------------------------------------------------

  predicate IsDot(c: char) { c == '.' }

  /** target_artist.replace("/", "_").strip().strip(".") */
  function Trimmed(artist: string): string {
    StripBy(Strip(Replace(artist, '/', '_')), IsDot)
  }

  /** target_artist.replace("/", "_").strip().strip(".") or target_artist */
  function SafeArtist(artist: string): string {
    if Trimmed(artist) != [] then Trimmed(artist) else artist
  }

  /** A name that is one ordinary path component. */
  predicate PlainName(name: string) { name != [] && '/' !in name && name != "." && name != ".." }

  /** The destination folder is an ordinary name below the library root for every artist name except
      the two directory names "." and ".." (the tool itself has already rejected the empty name). */
  lemma SafeArtistIsPlain(artist: string)
    requires artist != []
    ensures PlainName(SafeArtist(artist)) <==> artist != "." && artist != ".."
  {
    TrimmedKeeps(artist, '/');
    if Trimmed(artist) != [] {
      var c := Trimmed(artist)[0];
      TrimmedKeeps(artist, c);
      assert c != '.';
    }
  }

  lemma TrimmedKeeps(artist: string, c: char)
    ensures c in Trimmed(artist) ==> c in Replace(artist, '/', '_')
    ensures '/' in artist ==> Trimmed(artist) != []
    ensures '/' !in Trimmed(artist)
    ensures Trimmed(artist) != [] ==> Trimmed(artist)[0] != '.'
  {
    var u := Replace(artist, '/', '_');
    StripKeeps(u, IsSpace, c);
    StripKeeps(Strip(u), IsDot, c);
    StripKeeps(u, IsSpace, '/');
    StripKeeps(Strip(u), IsDot, '/');
    if '/' in artist {
      var i :| 0 <= i < |artist| && artist[i] == '/';
      assert u[i] == '_';
      StripKeeps(u, IsSpace, '_');
      StripKeeps(Strip(u), IsDot, '_');
    }
  }

  /** The folder is the artist's name with its slashes replaced, the blanks at its ends and then the dots at its ends
      taken off, or the name itself when nothing is left. */
  lemma SafeArtistIs(artist: string, u: string, t: string)
    requires IsStripped(Replace(artist, '/', '_'), IsSpace, u) && IsStripped(u, IsDot, t)
    ensures SafeArtist(artist) == if t != "" then t else artist
  {
    StripIsUnique(Replace(artist, '/', '_'), IsSpace, u);
    StripIsUnique(u, IsDot, t);
  }

  /** os.path.join(MEDIA_ROOT, safe_artist, basename(album)) */
  function Destination(album: Path, artist: string): (r: Path)
    ensures |r| == 2 && (album != [] ==> Last(r) == Last(album))
  {
    [SafeArtist(artist), BaseName(album)]
  }

  /** The name of the library root, as MEDIA_ROOT defaults to. */
  const ROOT_NAME := "media"

  function BaseName(album: Path): string { if album == [] then ROOT_NAME else Last(album) }

  // ---------------------------------------------------------------------------
  // scripts
  // ---------------------------------------------------------------------------

  function RetagSteps(album: Path, names: seq<string>, artist: string, id: string): seq<FileStep> {
    if names == [] then [] else
      [Backup(id, names[0], album + [names[0]]), Retag(album + [names[0]], artist)]
      + RetagSteps(album, names[1..], artist, id)
  }

  function BackupSteps(album: Path, names: seq<string>, id: string): seq<FileStep> {
    if names == [] then [] else [Backup(id, names[0], album + [names[0]])] + BackupSteps(album, names[1..], id)
  }

  function BestEffortSteps(album: Path, names: seq<string>, artist: string): seq<FileStep> {
    if names == [] then [] else
      [RetagBestEffort(album + [names[0]], artist)] + BestEffortSteps(album, names[1..], artist)
  }

  function RestoreSteps(album: Path, names: seq<string>, id: string, onlyExisting: bool): seq<FileStep> {
    if names == [] then [] else
      [Restore(id, names[0], album + [names[0]], onlyExisting)] + RestoreSteps(album, names[1..], id, onlyExisting)
  }

  /** apply, once it has decided to go ahead. */
  function ApplyScript(album: Path, names: seq<string>, artist: string, id: string): seq<FileStep> {
    RetagSteps(album, names, artist, id) + [Record(Entry(id, Retagged, album, names))]
  }

  /** relocate, once it has decided to go ahead. */
  function RelocateScript(album: Path, dst: Path, names: seq<string>, artist: string, id: string): seq<FileStep>
    requires dst != []
  {
    BackupSteps(album, names, id)
    + [MakeDirectory(Parent(dst)), Move(album, dst)]
    + BestEffortSteps(dst, names, artist)
    + [Record(Entry(id, Relocated(dst), album, names))]
  }

  predicate IsChange(e: Entry, id: string) { e.id == id && !e.op.Reverted? }

  /** The entry at i is a change recorded under id, and no later entry is. */
  predicate LatestAt(ledger: seq<Entry>, id: string, i: nat) {
    i < |ledger| && IsChange(ledger[i], id) && forall j :: i < j < |ledger| ==> !IsChange(ledger[j], id)
  }

  predicate NoneRecorded(ledger: seq<Entry>, id: string) {
    forall i :: 0 <= i < |ledger| ==> !IsChange(ledger[i], id)
  }

  lemma LatestStays(ledger: seq<Entry>, rest: seq<Entry>, id: string)
    requires ledger != [] && rest == ledger[..|ledger| - 1] && !IsChange(ledger[|ledger| - 1], id)
    ensures NoneRecorded(ledger, id) <==> NoneRecorded(rest, id)
    ensures forall i: nat :: LatestAt(rest, id, i) ==> LatestAt(ledger, id, i) && ledger[i] == rest[i]
  {
    assert ledger == rest + [ledger[|rest|]];
    assert NoneRecorded(rest, id) ==> forall i :: 0 <= i < |ledger| ==> !IsChange(ledger[i], id);
    assert NoneRecorded(ledger, id) ==> forall i :: 0 <= i < |rest| ==> !IsChange(ledger[i], id);
  }

  /** The latest change recorded under id; reversal records are passed over, and there is none exactly when no
      change has that id. */
  function Lookup(ledger: seq<Entry>, id: string): (r: Option<Entry>)
    ensures r.None? <==> NoneRecorded(ledger, id)
    ensures r.Some? ==> exists i: nat :: LatestAt(ledger, id, i) && ledger[i] == r.value
  {
    if ledger == [] then None else
      var last, rest := |ledger| - 1, ledger[..|ledger| - 1];
      if IsChange(ledger[last], id) then
        assert LatestAt(ledger, id, last);
        Some(ledger[last])
      else
        LatestStays(ledger, rest, id);
        Lookup(rest, id)
  }

  /** Where revert first moves the album back, if it does. */
  function MoveBackSteps(w: World, e: Entry): seq<FileStep> {
    if e.op.Relocated? && e.path != [] && IsDir(w, e.op.newPath) && !Exists(w, e.path)
    then [MakeDirectory(Parent(e.path)), Move(e.op.newPath, e.path)]
    else []
  }

  function UndoSteps(w: World, e: Entry): seq<FileStep> {
    MoveBackSteps(w, e)
    + RestoreSteps(e.path, e.names, e.id, e.op.Relocated?)
    + [Record(Entry(e.id, Reverted, e.path, e.names))]
  }

  /** revert; an unknown change id does nothing. */
  function RevertScript(w: World, id: string): seq<FileStep> {
    match Lookup(w.ledger, id)
    case None => []
    case Some(e) => UndoSteps(w, e)
  }

  /** A change id no backup and no ledger entry carries: _change_id draws it at random. */
  ghost predicate Fresh(w: World, id: string) {
    && (forall k :: k in w.backups ==> k.id != id)
    && (forall e :: e in w.ledger ==> e.id != id)
  }

  ghost predicate RelocateEnabled(w: World, album: Path, artist: string) {
    && IsDir(w, album)
    && !Exists(w, Destination(album, artist))
  }
}
