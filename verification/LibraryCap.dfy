/** The six-sample scan of a folder agrees with a scan of every sibling exactly as long as at most two identified
    siblings disagree with the rest. */
module LibraryCap {
  import opened Basics
  import opened LibraryTree
  import opened LibraryScripts
  import opened LibraryIdentity

  // ---------------------------------------------------------------------------
  // lists of identifiers
  // ---------------------------------------------------------------------------

  function Repeat(m: string, n: nat): Ids { seq(n, _ => Some(m)) }

  lemma {:induction false} CountRepeat(m: string, n: nat, t: Ids, x: string)
    ensures Count(Repeat(m, n) + t, x) == (if x == m then n else 0) + Count(t, x)
  {
    if n == 0 {
      assert Repeat(m, n) + t == t;
    } else {
      CountRepeat(m, n - 1, t, x);
      assert (Repeat(m, n) + t)[1..] == Repeat(m, n - 1) + t;
    }
  }

  /** First e exceptions, then k siblings that agree. */
  function Misleading(a: string, e: nat, m: string, k: nat): Ids { Repeat(a, e) + Repeat(m, k) }

  lemma CountMisleading(a: string, e: nat, m: string, k: nat, x: string)
    requires a != m
    ensures Count(Misleading(a, e, m, k), x) == if x == a then e else if x == m then k else 0
  {
    CountRepeat(a, e, Repeat(m, k), x);
    CountRepeat(m, k, [], x);
    assert Repeat(m, k) + [] == Repeat(m, k);
  }

  lemma FirstSix(a: string, e: nat, m: string)
    requires e >= 3
    ensures Take(Misleading(a, e, m, e + 1), FOLDER_SCAN_CAP) == Misleading(a, Min(e, 6), m, 6 - Min(e, 6))
  {}

  lemma FirstWins(a: string, e: nat, m: string, k: nat)
    requires a != m && e > 0 && e >= k
    ensures Dominant(Misleading(a, e, m, k)) == Some(a)
  {
    var ids := Misleading(a, e, m, k);
    forall x ensures Count(ids, x) <= e { CountMisleading(a, e, m, k, x); }
    CountMisleading(a, e, m, k, a);
    assert ids[0] == Some(a);
    TieGoesToTheFirst(ids);
  }

  lemma RestWins(a: string, e: nat, m: string)
    requires a != m
    ensures Dominant(Misleading(a, e, m, e + 1)) == Some(m)
  {
    var ids := Misleading(a, e, m, e + 1);
    forall x ensures Count(ids, x) == if x == a then e else if x == m then e + 1 else 0 {
      CountMisleading(a, e, m, e + 1, x);
    }
    UniqueMajority(ids, m);
  }

  // ---------------------------------------------------------------------------
  // a folder with such siblings
  // ---------------------------------------------------------------------------

  /** Album names in sorted order: a, aa, aaa, ... */
  function AlbumName(i: nat): string { seq(i + 1, _ => 'a') }

  function AlbumNames(n: nat): (names: seq<string>)
    ensures |names| == n && forall i :: 0 <= i < n ==> names[i] == AlbumName(i)
  {
    seq(n, i requires 0 <= i < n => AlbumName(i))
  }

  lemma LongerIsLater(i: nat, j: nat)
    requires i <= j
    ensures LexLeq(AlbumName(i), AlbumName(j))
  {
    PrefixIsEarlier(AlbumName(i), AlbumName(j));
  }

  lemma {:induction false} PrefixIsEarlier(a: string, b: string)
    requires a <= b
    ensures LexLeq(a, b)
  {
    if a != [] { PrefixIsEarlier(a[1..], b[1..]); }
  }

  lemma NamesAscend(n: nat)
    ensures Ascending(AlbumNames(n), LexLeq)
  {
    var names := AlbumNames(n);
    forall i, j | 0 <= i < j < n ensures LexLeq(names[i], names[j]) && names[i] != names[j] {
      LongerIsLater(i, j);
      assert |names[i]| != |names[j]|;
    }
  }

  function Tagged(id: Option<string>): Content { Content(Tags(None, None, id, None), true, []) }

  /** Below the folder there is one album for each identifier, with one track that carries it. */
  ghost predicate HasAlbums(w: World, folder: string, track: string, ids: Ids) {
    && HasOnly(w, folder, AlbumNames(|ids|))
    && forall i: nat {:trigger HasAlbum(w, [folder] + [AlbumName(i)], track, ids[i])} ::
         i < |ids| ==> HasAlbum(w, [folder] + [AlbumName(i)], track, ids[i])
  }

  ghost predicate HasOnly(w: World, folder: string, names: seq<string>) {
    forall f {:trigger f in names} :: [folder] + [f] in w.dirs <==> f in names
  }

  ghost predicate HasAlbum(w: World, dir: Path, track: string, id: Option<string>) {
    AudioFiles(w, dir) == [track] && dir + [track] in w.files && w.files[dir + [track]] == Tagged(id)
  }

  lemma FolderAlbums(w: World, folder: string, track: string, ids: Ids, subs: seq<string>)
    requires HasAlbums(w, folder, track, ids) && subs == SubDirs(w, [folder])
    ensures subs == AlbumNames(|ids|)
  {
    LexIsTotalOrder();
    NamesAscend(|ids|);
    SubDirsAscend(w, [folder], subs);
    forall f ensures f in subs <==> f in AlbumNames(|ids|) { assert f in subs <==> [folder] + [f] in w.dirs; }
    ListingUnique(subs, AlbumNames(|ids|), LexLeq);
  }

  lemma SubDirsAscend(w: World, dir: Path, subs: seq<string>)
    requires subs == SubDirs(w, dir)
    ensures Ascending(subs, LexLeq)
  {}

  lemma AlbumIdentity(w: World, dir: Path, track: string, id: Option<string>, exclude: Path)
    requires HasAlbum(w, dir, track, id) && id.Some? && dir != exclude
    ensures SiblingId(w, dir, exclude) == id
  {
    var ids := ArtistIds(w, dir, [track]);
    assert ids == [id] && ids[1..] == [];
    assert Scan(ids, ids, None) == Scan(ids, ids[1..], id) == id;
  }

  /** When every name has an answer, the answers found are those. */
  lemma {:induction false} AllAnswer(names: seq<string>, ask: string -> Option<string>, ids: Ids)
    requires |names| == |ids| && forall i :: 0 <= i < |ids| ==> ids[i].Some? && ask(names[i]) == ids[i]
    ensures FoundIds(names, ask) == ids
  {
    if names != [] {
      AllAnswer(names[1..], ask, ids[1..]);
      assert ids == [ids[0]] + ids[1..];
    }
  }

  lemma FolderIds(w: World, folder: string, track: string, ids: Ids, exclude: Path)
    requires HasAlbums(w, folder, track, ids) && |exclude| != 2 && forall k :: 0 <= k < |ids| ==> ids[k].Some?
    ensures SiblingIds(w, [folder], SubDirs(w, [folder]), exclude) == ids
  {
    var names := AlbumNames(|ids|);
    FolderAlbums(w, folder, track, ids, SubDirs(w, [folder]));
    var ask := SiblingAt(w, [folder], exclude);
    forall i | 0 <= i < |ids| ensures ask(names[i]) == ids[i] {
      assert HasAlbum(w, [folder] + [AlbumName(i)], track, ids[i]);
      AlbumIdentity(w, [folder] + [AlbumName(i)], track, ids[i], exclude);
    }
    AllAnswer(names, ask, ids);
  }

  // ---------------------------------------------------------------------------
  // such a library
  // ---------------------------------------------------------------------------

  function Tracks(folder: string, track: string, n: nat): (r: set<Path>)
    ensures forall p :: p in r <==> |p| == 3 && p[0] == folder && p[2] == track && p[1] in AlbumNames(n)
  {
    assert forall p: Path :: |p| == 3 ==> p == [p[0], p[1], p[2]];
    set f | f in AlbumNames(n) :: [folder, f, track]
  }

  function Albums(folder: string, n: nat): (r: set<Path>)
    ensures forall p :: p in r <==> |p| == 2 && p[0] == folder && p[1] in AlbumNames(n)
  {
    assert forall p: Path :: |p| == 2 ==> p == [p[0], p[1]];
    set f | f in AlbumNames(n) :: [folder, f]
  }

  lemma AlbumIn(folder: string, n: nat, f: string)
    ensures [folder] + [f] in {[], [folder]} + Albums(folder, n) <==> f in AlbumNames(n)
  {
    var p := [folder] + [f];
    assert p[0] == folder && p[1] == f && |p| == 2;
  }

  lemma NameLength(f: string, n: nat)
    requires f in AlbumNames(n)
    ensures 0 < |f| <= n && f == AlbumName(|f| - 1)
  {
    var i :| 0 <= i < n && AlbumNames(n)[i] == f;
  }

  ghost function Folder(folder: string, track: string, ids: Ids): World {
    World(map p | p in Tracks(folder, track, |ids|) :: NameLength(p[1], |ids|); Tagged(ids[|p[1]| - 1]),
          map p | p in {[], [folder]} + Albums(folder, |ids|) :: 0, 1, map[], [])
  }

  lemma FolderIsTree(folder: string, track: string, ids: Ids, w: World)
    requires w == Folder(folder, track, ids)
    ensures WellFormed(w)
  {
    forall p | p in w.files ensures Parent(p) in w.dirs && p !in w.dirs {
      assert |Parent(p)| == 2 && Parent(p)[0] == folder && Parent(p)[1] == p[1];
      assert Parent(p) in Albums(folder, |ids|);
    }
    forall p | p in w.dirs && p != [] ensures Parent(p) in w.dirs {
      if |p| == 2 { assert Parent(p) == [folder]; } else { assert Parent(p) == []; }
    }
  }

  /** The album's track is the only file in its directory, and carries the identifier. */
  ghost predicate OnlyTrack(w: World, dir: Path, track: string, id: Option<string>) {
    && dir + [track] in w.files && w.files[dir + [track]] == Tagged(id)
    && forall q :: q in w.files && q != [] && Parent(q) == dir ==> q == dir + [track]
  }

  lemma FolderTrack(folder: string, track: string, ids: Ids, w: World, i: nat, dir: Path)
    requires w == Folder(folder, track, ids) && i < |ids| && dir == [folder] + [AlbumName(i)]
    ensures OnlyTrack(w, dir, track, ids[i])
  {
    var p := dir + [track];
    assert p[0] == folder && p[1] == AlbumName(i) && p[2] == track && AlbumNames(|ids|)[i] in AlbumNames(|ids|);
    assert p in Tracks(folder, track, |ids|);
    forall q | q in w.files && q != [] && Parent(q) == dir ensures q == p {
      assert q[0] == Parent(q)[0] && q[1] == Parent(q)[1];
    }
  }

  lemma OnlyTrackIsAlbum(w: World, dir: Path, track: string, id: Option<string>)
    requires OnlyTrack(w, dir, track, id) && IsAudioName(track)
    ensures HasAlbum(w, dir, track, id)
  {
    OneOwnTrack(w, dir, track);
  }

  /** Every list of identifiers is that of a folder in some well-formed library. */
  lemma FolderExists(folder: string, track: string, ids: Ids) returns (w: World)
    requires IsAudioName(track)
    ensures WellFormed(w) && HasAlbums(w, folder, track, ids)
  {
    w := Folder(folder, track, ids);
    FolderIsTree(folder, track, ids, w);
    forall i: nat | i < |ids| ensures HasAlbum(w, [folder] + [AlbumName(i)], track, ids[i]) {
      FolderTrack(folder, track, ids, w, i, [folder] + [AlbumName(i)]);
      OnlyTrackIsAlbum(w, [folder] + [AlbumName(i)], track, ids[i]);
    }
    FolderHasOnly(folder, track, ids, w);
  }

  lemma FolderHasOnly(folder: string, track: string, ids: Ids, w: World)
    requires w == Folder(folder, track, ids)
    ensures HasOnly(w, folder, AlbumNames(|ids|))
  {
    forall f ensures [folder] + [f] in w.dirs <==> f in AlbumNames(|ids|) { AlbumIn(folder, |ids|, f); }
  }

  // ---------------------------------------------------------------------------
  // the limit
  // ---------------------------------------------------------------------------

  /** In every well-formed library, a folder with exactly e identified siblings besides those of m is answered alike. */
  ghost predicate AgreesWith(e: nat) {
    forall w, dir, exclude, m :: WellFormed(w) && Exceptions(w, dir, exclude, m) == e ==>
      FolderMbid(w, dir, exclude) == FolderMbidUncapped(w, dir, exclude)
  }

  function Exceptions(w: World, dir: Path, exclude: Path, m: string): nat {
    var ids := SiblingIds(w, dir, SubDirs(w, dir), exclude);
    |ids| - Count(ids, m)
  }

  /** For every number of exceptions from three on there is a folder whose capped scan answers differently. */
  lemma MoreExceptionsCanMislead(folder: string, track: string, a: string, m: string, e: nat, exclude: Path)
      returns (w: World)
    requires e >= 3 && a != m && IsAudioName(track) && |exclude| != 2
    ensures WellFormed(w) && Exceptions(w, [folder], exclude, m) == e
    ensures FolderMbid(w, [folder], exclude) == Some(a) && FolderMbidUncapped(w, [folder], exclude) == Some(m)
  {
    var ids := Misleading(a, e, m, e + 1);
    w := FolderOf(folder, track, ids, exclude);
    MisledBy(w, [folder], exclude, a, e, m, ids);
  }

  lemma FolderOf(folder: string, track: string, ids: Ids, exclude: Path) returns (w: World)
    requires IsAudioName(track) && |exclude| != 2 && forall k :: 0 <= k < |ids| ==> ids[k].Some?
    ensures WellFormed(w) && SiblingIds(w, [folder], SubDirs(w, [folder]), exclude) == ids
  {
    w := FolderExists(folder, track, ids);
    FolderIds(w, folder, track, ids, exclude);
  }

  lemma MisledBy(w: World, dir: Path, exclude: Path, a: string, e: nat, m: string, ids: Ids)
    requires e >= 3 && a != m && ids == Misleading(a, e, m, e + 1)
    requires SiblingIds(w, dir, SubDirs(w, dir), exclude) == ids
    ensures Exceptions(w, dir, exclude, m) == e
    ensures FolderMbid(w, dir, exclude) == Some(a) && FolderMbidUncapped(w, dir, exclude) == Some(m)
  {
    CountMisleading(a, e, m, e + 1, m);
    CapMisleads(a, e, m, ids);
  }

  /** With e exceptions in front of e + 1 siblings that agree, the first six answer differently from all of them. */
  lemma CapMisleads(a: string, e: nat, m: string, ids: Ids)
    requires e >= 3 && a != m && ids == Misleading(a, e, m, e + 1)
    ensures Dominant(Take(ids, FOLDER_SCAN_CAP)) == Some(a) && Dominant(ids) == Some(m)
  {
    FirstSix(a, e, m);
    FirstWins(a, Min(e, 6), m, 6 - Min(e, 6));
    RestWins(a, e, m);
  }

  /** The cap of six is safe for exactly the numbers of exceptions up to two. */
  lemma AgreesExactlyUpToTwo(e: nat)
    ensures AgreesWith(e) <==> e <= 2
  {
    if e <= 2 {
      forall w, dir, exclude, m | WellFormed(w) && Exceptions(w, dir, exclude, m) == e
        ensures FolderMbid(w, dir, exclude) == FolderMbidUncapped(w, dir, exclude)
      {
        CappedScanAgrees(w, dir, exclude, m);
      }
    } else {
      Mp3Name("t.mp3");
      var w := MoreExceptionsCanMislead("F", "t.mp3", "A", "M", e, []);
      assert Exceptions(w, ["F"], [], "M") == e;
    }
  }
}
