/** The identities of albums and folders in terms of the embedded identifiers, read track by track and sibling by
    sibling. */
module LibraryLeads {
  import opened Basics
  import opened LibraryTree
  import opened LibraryScripts
  import opened LibraryIdentity

  // ---------------------------------------------------------------------------
  // the dominant value
  // ---------------------------------------------------------------------------

  /** Where the list has this value. */
  function Places(s: Ids, m: string): set<nat> { set i: nat | i < |s| && s[i] == Some(m) }

  /** m stands at place i, no value is more common, and none as common comes before. */
  ghost predicate LeadsFrom(s: Ids, m: string, i: nat) {
    && i < |s| && s[i] == Some(m)
    && (forall x :: |Places(s, x)| <= |Places(s, m)|)
    && (forall j :: 0 <= j < i && s[j].Some? ==> |Places(s, s[j].value)| < |Places(s, m)|)
  }

  ghost predicate Leads(s: Ids, m: string) { exists i: nat :: LeadsFrom(s, m, i) }

  lemma PlacesGrow(front: Ids, x: Option<string>, m: string)
    ensures |Places(front + [x], m)| == |Places(front, m)| + if x == Some(m) then 1 else 0
  {
    assert Places(front + [x], m) == Places(front, m) + if x == Some(m) then {|front|} else {};
  }

  lemma {:induction false} CountIsPlaces(s: Ids, m: string)
    ensures Count(s, m) == |Places(s, m)|
    decreases |s|
  {
    if s != [] {
      var front, x := s[..|s| - 1], s[|s| - 1];
      CountIsPlaces(front, m);
      PlacesGrow(front, x, m);
      CountSnoc(front, x, m);
      assert s == front + [x];
    }
  }

  lemma CountSnoc(front: Ids, x: Option<string>, m: string)
    ensures Count(front + [x], m) == Count(front, m) + if x == Some(m) then 1 else 0
  {
    CountAppend(front, x);
  }

  /** r stands in rest, and what stands before it, best included, is less common. */
  ghost predicate BeatsEarlier(all: Ids, rest: Ids, best: Option<string>, r: string, i: nat) {
    && i < |rest| && rest[i] == Some(r)
    && (best.Some? ==> Count(all, best.value) < Count(all, r))
    && (forall j :: 0 <= j < i && rest[j].Some? ==> Count(all, rest[j].value) < Count(all, r))
  }

  lemma {:induction false} ScanBeatsEarlier(all: Ids, rest: Ids, best: Option<string>)
    ensures var r := Scan(all, rest, best);
            r == best || (r.Some? && exists i: nat :: BeatsEarlier(all, rest, best, r.value, i))
    decreases |rest|
  {
    if rest != [] {
      var better, r := Better(all, best, rest[0]), Scan(all, rest, best);
      ScanBeatsEarlier(all, rest[1..], better);
      if r != best && r == better {
        assert BeatsEarlier(all, rest, best, r.value, 0);
      } else if r != best {
        var i: nat :| BeatsEarlier(all, rest[1..], better, r.value, i);
        assert BeatsEarlier(all, rest, best, r.value, i + 1);
      }
    }
  }

  /** The dominant value leads, and there is one as soon as there is any value. */
  lemma DominantLeads(s: Ids)
    ensures Dominant(s).None? <==> forall i :: 0 <= i < |s| ==> s[i].None?
    ensures Dominant(s).Some? ==> Leads(s, Dominant(s).value)
  {
    DominantIsMostCommon(s);
    if Dominant(s).Some? {
      var m := Dominant(s).value;
      ScanBeatsEarlier(s, s, None);
      var i: nat :| BeatsEarlier(s, s, None, m, i);
      forall x ensures Count(s, x) == |Places(s, x)| { CountIsPlaces(s, x); }
      assert LeadsFrom(s, m, i);
    }
  }

  /** At most one value leads. */
  lemma LeadsIsUnique(s: Ids, m: string, n: string)
    requires Leads(s, m) && Leads(s, n)
    ensures m == n
  {
    var i: nat :| LeadsFrom(s, m, i);
    var j: nat :| LeadsFrom(s, n, j);
  }

  // ---------------------------------------------------------------------------
  // albums
  // ---------------------------------------------------------------------------

  /** The identifiers of the tracks' artists, in the order of the file names. */
  ghost predicate AreArtistIds(w: World, dir: Path, names: seq<string>, ids: Ids) {
    |ids| == |names| && forall i :: 0 <= i < |names| ==>
      dir + [names[i]] in w.files && ids[i] == w.files[dir + [names[i]]].tags.artistMbid
  }

  ghost predicate AreAlbumArtistIds(w: World, dir: Path, names: seq<string>, ids: Ids) {
    |ids| == |names| && forall i :: 0 <= i < |names| ==>
      dir + [names[i]] in w.files && ids[i] == w.files[dir + [names[i]]].tags.albumArtistMbid
  }

  ghost predicate Blank(ids: Ids) { forall i :: 0 <= i < |ids| ==> ids[i].None? }

  /** The album's identity leads among the tracks' artist identifiers; only if there is none at all it leads among
      their album-artist identifiers. */
  lemma IdentityLeads(w: World, dir: Path, artists: Ids, albumArtists: Ids)
    requires AreArtistIds(w, dir, AudioFiles(w, dir), artists)
    requires AreAlbumArtistIds(w, dir, AudioFiles(w, dir), albumArtists)
    ensures Identity(w, dir).None? <==> Blank(artists) && Blank(albumArtists)
    ensures Identity(w, dir).Some? ==> Leads(if Blank(artists) then albumArtists else artists, Identity(w, dir).value)
  {
    IdentityIs(w, dir, AudioFiles(w, dir), artists, albumArtists);
    DominantLeads(artists);
    DominantLeads(albumArtists);
  }

  lemma IdentityIs(w: World, dir: Path, names: seq<string>, artists: Ids, albumArtists: Ids)
    requires names == AudioFiles(w, dir)
    requires AreArtistIds(w, dir, names, artists) && AreAlbumArtistIds(w, dir, names, albumArtists)
    ensures Identity(w, dir) == if Dominant(artists).Some? then Dominant(artists) else Dominant(albumArtists)
  {
    TheseAreTheIds(w, dir, names, artists, albumArtists);
  }

  lemma TheseAreTheIds(w: World, dir: Path, names: seq<string>, artists: Ids, albumArtists: Ids)
    requires forall f :: f in names ==> dir + [f] in w.files
    requires AreArtistIds(w, dir, names, artists) && AreAlbumArtistIds(w, dir, names, albumArtists)
    ensures artists == ArtistIds(w, dir, names) && albumArtists == AlbumArtistIds(w, dir, names)
  {}

  // ---------------------------------------------------------------------------
  // siblings and folders
  // ---------------------------------------------------------------------------

  /** The i-th name is the first one that has an answer. */
  ghost predicate FirstAnswer(names: seq<string>, ask: string -> Option<string>, i: nat) {
    i < |names| && ask(names[i]).Some? && forall j :: 0 <= j < i ==> ask(names[j]).None?
  }

  lemma {:induction false} FirstFoundIs(names: seq<string>, ask: string -> Option<string>)
    ensures FirstFound(names, ask).None? <==> forall i :: 0 <= i < |names| ==> ask(names[i]).None?
    ensures FirstFound(names, ask).Some? ==>
              exists i: nat :: FirstAnswer(names, ask, i) && ask(names[i]) == FirstFound(names, ask)
  {
    if names != [] {
      var rest := names[1..];
      FirstFoundIs(rest, ask);
      if ask(names[0]).Some? {
        assert FirstAnswer(names, ask, 0);
      } else if FirstFound(rest, ask).Some? {
        var i: nat :| FirstAnswer(rest, ask, i) && ask(rest[i]) == FirstFound(rest, ask);
        assert FirstAnswer(names, ask, i + 1) && ask(names[i + 1]) == FirstFound(names, ask);
      }
    }
  }

  /** What a sub-directory answers: its identity, unless it is the excluded album. */
  ghost predicate AsksDiscs(w: World, sub: Path, exclude: Path, ask: string -> Option<string>) {
    forall d {:trigger ask(d)} :: ask(d) == if sub + [d] == exclude then None else Identity(w, sub + [d])
  }

  /** A sibling's identifier is its own or, without one, that of its first identified sub-directory; the excluded
      album itself has none. */
  lemma SiblingIdIs(w: World, sub: Path, exclude: Path) returns (ask: string -> Option<string>, i: nat)
    ensures AsksDiscs(w, sub, exclude, ask)
    ensures sub == exclude ==> SiblingId(w, sub, exclude).None?
    ensures sub != exclude && Identity(w, sub).Some? ==> SiblingId(w, sub, exclude) == Identity(w, sub)
    ensures sub != exclude && Identity(w, sub).None? ==>
              || (FirstAnswer(SubDirs(w, sub), ask, i) && SiblingId(w, sub, exclude) == ask(SubDirs(w, sub)[i]))
              || (SiblingId(w, sub, exclude).None? &&
                  forall j :: 0 <= j < |SubDirs(w, sub)| ==> ask(SubDirs(w, sub)[j]).None?)
  {
    var discs := SubDirs(w, sub);
    ask, i := DiscAt(w, sub, exclude), 0;
    FirstFoundIs(discs, ask);
    if FirstFound(discs, ask).Some? {
      i :| FirstAnswer(discs, ask, i) && ask(discs[i]) == FirstFound(discs, ask);
    }
  }

  lemma {:induction false} FoundIsPicked(names: seq<string>, ask: string -> Option<string>)
    ensures |FoundIds(names, ask)| == |Picked(names, ask)|
    ensures forall j :: 0 <= j < |Picked(names, ask)| ==> FoundIds(names, ask)[j] == Some(Picked(names, ask)[j])
  {
    if names != [] { FoundIsPicked(names[1..], ask); }
  }

  lemma FoundAt(names: seq<string>, ask: string -> Option<string>) returns (at: seq<nat>)
    ensures PickedPlaces(names, ask, at) && |at| == |FoundIds(names, ask)|
    ensures forall j :: 0 <= j < |at| ==> FoundIds(names, ask)[j] == ask(names[at[j]])
  {
    at := PickedInOrder(names, ask);
    FoundIsPicked(names, ask);
  }

  /** The folder's identity leads among its first six identified siblings, in the order of their names. */
  lemma FolderLeads(w: World, dir: Path, exclude: Path, names: seq<string>, ask: string -> Option<string>)
      returns (at: seq<nat>, sample: Ids)
    requires names == SubDirs(w, dir) && ask == SiblingAt(w, dir, exclude)
    ensures PickedPlaces(names, ask, at) && |sample| == Min(6, |at|)
    ensures forall j :: 0 <= j < |sample| ==> sample[j] == ask(names[at[j]])
    ensures FolderMbid(w, dir, exclude).None? <==> at == []
    ensures FolderMbid(w, dir, exclude).Some? ==> Leads(sample, FolderMbid(w, dir, exclude).value)
  {
    at, sample := SampleLeads(names, ask);
    FolderMbidIs(w, dir, exclude, names, ask, sample);
  }

  lemma FolderMbidIs(w: World, dir: Path, exclude: Path, names: seq<string>, ask: string -> Option<string>, sample: Ids)
    requires names == SubDirs(w, dir) && ask == SiblingAt(w, dir, exclude) && sample == Take(FoundIds(names, ask), 6)
    ensures FolderMbid(w, dir, exclude) == Dominant(sample)
  {}

  lemma SampleLeads(names: seq<string>, ask: string -> Option<string>) returns (at: seq<nat>, sample: Ids)
    ensures PickedPlaces(names, ask, at) && sample == Take(FoundIds(names, ask), 6) && |sample| == Min(6, |at|)
    ensures forall j :: 0 <= j < |sample| ==> sample[j] == ask(names[at[j]])
    ensures Dominant(sample).None? <==> at == []
    ensures Dominant(sample).Some? ==> Leads(sample, Dominant(sample).value)
  {
    at := FoundAt(names, ask);
    sample := Take(FoundIds(names, ask), 6);
    DominantLeads(sample);
    assert forall j :: 0 <= j < |sample| ==> sample[j] in FoundIds(names, ask);
  }
}
