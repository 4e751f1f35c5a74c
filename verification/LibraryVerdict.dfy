/** What the assessment of an album says, in terms of its tags and identifiers: when it recommends a retag, when a
    relocation, how sure it is, and that these conditions leave no other answer. */
module LibraryVerdict {
  import opened Basics
  import opened Text
  import opened LibraryTree
  import opened LibraryScripts
  import opened LibraryIdentity
  import opened LibraryAssess

  // ---------------------------------------------------------------------------
  // the evidence
  // ---------------------------------------------------------------------------

  /** What is known of an album: its folder, whether it has tracks, the values of their two artist tags, and the
      identifiers of its content and of its folder. */
  datatype Evidence = Evidence(folder: string, tracks: bool, artists: set<string>, albumArtists: set<string>,
                               content: Option<string>, owner: Option<string>)

  /** The folder belongs to whom its other albums say, else to whom its name says. */
  function EvidenceOf(w: World, k: Knowledge, album: Path): Evidence {
    Evidence(FolderName(album), AudioFiles(w, album) != [], Artists(w, album), AlbumArtists(w, album),
             Identity(w, album), OrElse(FolderMbid(w, FolderDir(album), album), k.nameToMbid(FolderName(album))))
  }

  /** One of the listed tracks has this value of the tag. */
  ghost predicate Occurs(files: map<Path, Content>, album: Path, names: seq<string>, tag: Tags -> Option<string>,
                         x: string)
  {
    exists f :: f in names && album + [f] in files && tag(files[album + [f]].tags) == Some(x)
  }

  /** The two sets hold the non-empty tag values of the album's own audio files. */
  lemma EvidenceIsOfTracks(w: World, k: Knowledge, album: Path)
    ensures var e, names := EvidenceOf(w, k, album), AudioFiles(w, album);
            && (forall x :: x in e.artists <==> x != "" && Occurs(w.files, album, names, (t: Tags) => t.artist, x))
            && (forall x :: x in e.albumArtists <==>
                  x != "" && Occurs(w.files, album, names, (t: Tags) => t.albumArtist, x))
  {
    ValuesAre(w.files, album, AudioFiles(w, album), ArtistTag);
    ValuesAre(w.files, album, AudioFiles(w, album), AlbumArtistTag);
  }

  lemma ValuesAre(files: map<Path, Content>, album: Path, names: seq<string>, tag: Tags -> Option<string>)
    requires forall f :: f in names ==> album + [f] in files
    ensures forall x :: x in TagValues(files, album, names, tag) <==> x != "" && Occurs(files, album, names, tag, x)
  {}

  /** Two names are related when they are the same but for case and blanks, or when of their normal forms, neither of
      them empty, one occurs in the other. */
  lemma RelatedIff(k: Knowledge, a: string, b: string)
    ensures Related(k, a, b) <==>
            || k.casenorm(a) == k.casenorm(b) != ""
            || (k.norm(a) != "" && k.norm(b) != "" &&
                (OccursIn(k.norm(a), k.norm(b)) || OccursIn(k.norm(b), k.norm(a))))
  {
    ContainsIff(k.norm(a), k.norm(b));
    ContainsIff(k.norm(b), k.norm(a));
    assert k.norm(b) == [] + k.norm(b) + [];
  }

  predicate Sole(names: set<string>, x: string) { names == {x} }

  /** The tags are read at all. */
  predicate Readable(k: Knowledge, e: Evidence) { e.tracks && !IsVa(k, e.folder) }

  ghost predicate Compilation(k: Knowledge, e: Evidence) { exists x :: Sole(e.albumArtists, x) && IsVa(k, x) }

  /** The tracks have one album artist, and it is the folder's. */
  ghost predicate LabelFits(k: Knowledge, e: Evidence) {
    exists x :: Sole(e.albumArtists, x) && Related(k, x, e.folder)
  }

  /** The tracks have one album artist, and it is not the folder's. */
  ghost predicate LabelIsOdd(k: Knowledge, e: Evidence) {
    exists x :: Sole(e.albumArtists, x) && !Related(k, x, e.folder)
  }

  ghost predicate Judged(k: Knowledge, e: Evidence) { Readable(k, e) && !Compilation(k, e) }

  predicate BothKnown(e: Evidence) { e.content.Some? && e.owner.Some? }

  predicate Confirmed(e: Evidence) { BothKnown(e) && e.content == e.owner }

  predicate ArtistsFit(k: Knowledge, e: Evidence) {
    e.artists != {} && forall a | a in e.artists :: Related(k, a, e.folder)
  }

  /** The content's artist has this name: MusicBrainz says so, or has no name and it is the only artist tag. */
  predicate Resolves(k: Knowledge, e: Evidence, t: string) {
    t != "" && e.content.Some? &&
    var named := k.mbidToName(e.content.value);
    named == Some(t) || (named in {None, Some("")} && Sole(e.artists, t))
  }

  /** Both identifiers are known and agree but the album artist is not the folder's, or the identifiers do not
      decide, every artist tag is the folder's and the only album artist is not. */
  ghost predicate CallsForRetag(k: Knowledge, e: Evidence) {
    Judged(k, e) &&
    ((Confirmed(e) && !LabelFits(k, e)) || (!BothKnown(e) && ArtistsFit(k, e) && LabelIsOdd(k, e)))
  }

  /** Both identifiers are known and differ, and the content's artist is t, not the folder's. */
  ghost predicate CallsForMove(k: Knowledge, e: Evidence, t: string) {
    Judged(k, e) && BothKnown(e) && !Confirmed(e) && Resolves(k, e, t) && !Related(k, t, e.folder)
  }

  /** There is nothing to correct, or it is not this tool's business. */
  ghost predicate CallsForNothing(k: Knowledge, e: Evidence) {
    e.tracks && (IsVa(k, e.folder) || Compilation(k, e) || (Confirmed(e) && LabelFits(k, e)))
  }

  // ---------------------------------------------------------------------------
  // the verdict
  // ---------------------------------------------------------------------------

  /** The answer the evidence calls for. */
  ghost predicate Verdict(k: Knowledge, e: Evidence, a: Assessment) {
    && (a.action == Skip <==> !e.tracks)
    && (a.action == RetagTo(e.folder) <==> CallsForRetag(k, e))
    && (a.action.RetagTo? ==> a.action.artist == e.folder)
    && (forall t :: a.action == RelocateTo(t) <==> CallsForMove(k, e, t))
    && (a.confidence == SkipConfidence <==> !e.tracks)
    && (a.confidence == High <==> a.action.RetagTo? || a.action.RelocateTo?)
    && (a.confidence == Suppress <==> CallsForNothing(k, e))
    && a.albumArtists == if Readable(k, e) then Some(e.albumArtists) else None
  }

  lemma OnlyIsSole(s: set<string>)
    ensures forall x :: Sole(s, x) <==> Only(s) == Some(x)
  {
    forall x | Sole(s, x) ensures Only(s) == Some(x) { assert x in s; }
  }

  lemma LabelFacts(k: Knowledge, e: Evidence)
    ensures var aa := Only(e.albumArtists);
            && (Compilation(k, e) <==> aa.Some? && IsVa(k, aa.value))
            && (LabelFits(k, e) <==> aa.Some? && Related(k, aa.value, e.folder))
            && (LabelIsOdd(k, e) <==> aa.Some? && !Related(k, aa.value, e.folder))
  {
    OnlyIsSole(e.albumArtists);
  }

  lemma NamedOrSole(k: Knowledge, e: Evidence)
    requires e.content.Some?
    ensures var named := k.mbidToName(e.content.value);
            forall t :: Resolves(k, e, t) <==> t != "" && (if Truthy(named) then named else Only(e.artists)) == Some(t)
  {
    OnlyIsSole(e.artists);
  }

  /** What the rules say once the tags are read. */
  lemma DecideIsVerdict(k: Knowledge, e: Evidence)
    requires Readable(k, e)
    ensures Verdict(k, e, Decide(k, e.folder, e.artists, e.albumArtists, e.content, e.owner))
  {
    LabelFacts(k, e);
    if e.content.Some? { NamedOrSole(k, e); }
  }

  /** The assessment is the answer the evidence calls for ... */
  lemma AssessIsVerdict(w: World, k: Knowledge, album: Path)
    ensures Verdict(k, EvidenceOf(w, k, album), Assess(w, k, album))
  {
    var e := EvidenceOf(w, k, album);
    if Readable(k, e) { DecideIsVerdict(k, e); }
  }

  /** ... and no other one is. */
  lemma VerdictIsUnique(k: Knowledge, e: Evidence, a: Assessment, b: Assessment)
    requires Verdict(k, e, a) && Verdict(k, e, b)
    ensures a == b
  {
    if t :| a.action == RelocateTo(t) { assert b.action == RelocateTo(t); }
    if t :| b.action == RelocateTo(t) { assert a.action == RelocateTo(t); }
  }
}
