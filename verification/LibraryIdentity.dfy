/** Who an album or an artist folder belongs to: the dominant embedded identifier, the capped scan of
    sibling albums, and the loop that computes the dominant value. */
module LibraryIdentity {
  import opened Basics
  import opened LibraryTree
  import opened LibraryScripts
  import opened LibraryUndo

  type Ids = seq<Option<string>>

  function Count(s: Ids, m: string): (n: nat)
    ensures n <= |s|
  {
    if s == [] then 0 else (if s[0] == Some(m) then 1 else 0) + Count(s[1..], m)
  }

  /** A later value wins only with a strictly larger count, as Python's max over a dictionary does. */
  function Better(all: Ids, best: Option<string>, c: Option<string>): Option<string> {
    if c.Some? && (best.None? || Count(all, c.value) > Count(all, best.value)) then c else best
  }

  function Scan(all: Ids, rest: Ids, best: Option<string>): Option<string> {
    if rest == [] then best else Scan(all, rest[1..], Better(all, best, rest[0]))
  }

  /** _dominant: the most common value, the earliest one on a tie. */
  function Dominant(s: Ids): Option<string> { Scan(s, s, None) }

  lemma {:induction false} ScanFacts(all: Ids, rest: Ids, best: Option<string>)
    ensures var r := Scan(all, rest, best);
            && (r.None? <==> best.None? && forall x :: x in rest ==> x.None?)
            && (r.Some? ==> r == best || r in rest)
            && (r.Some? && best.Some? ==> Count(all, best.value) <= Count(all, r.value))
            && (forall x :: x in rest && x.Some? ==> r.Some? && Count(all, x.value) <= Count(all, r.value))
    decreases |rest|
  {
    if rest != [] {
      ScanFacts(all, rest[1..], Better(all, best, rest[0]));
      assert rest == [rest[0]] + rest[1..];
    }
  }

  lemma {:induction false} CountZero(s: Ids, m: string)
    ensures Count(s, m) == 0 <==> Some(m) !in s
    decreases |s|
  {
    if s != [] {
      CountZero(s[1..], m);
      assert s == [s[0]] + s[1..];
    }
  }

  /** The dominant value is absent only when there is none, and no value is more common. */
  lemma DominantIsMostCommon(s: Ids)
    ensures Dominant(s).None? <==> forall x :: x in s ==> x.None?
    ensures Dominant(s).Some? ==> Dominant(s) in s
    ensures Dominant(s).Some? ==> forall m :: Count(s, m) <= Count(s, Dominant(s).value)
  {
    ScanFacts(s, s, None);
    if Dominant(s).Some? {
      forall m ensures Count(s, m) <= Count(s, Dominant(s).value) {
        CountZero(s, m);
      }
    }
  }

  lemma UniqueMajority(s: Ids, m: string)
    requires Count(s, m) > 0 && forall x :: x != m ==> Count(s, x) < Count(s, m)
    ensures Dominant(s) == Some(m)
  {
    DominantIsMostCommon(s);
    CountZero(s, m);
  }

  lemma {:induction false} CountTwo(s: Ids, x: string, y: string)
    requires x != y
    ensures Count(s, x) + Count(s, y) <= |s|
    decreases |s|
  {
    if s != [] { CountTwo(s[1..], x, y); }
  }

  lemma {:induction false} CountDropped(s: Ids, n: nat, m: string)
    requires n <= |s|
    ensures n - Count(s[..n], m) <= |s| - Count(s, m)
    decreases |s|
  {
    if n == 0 {
      assert s[..0] == [];
    } else {
      assert s[..n][1..] == s[1..][..n - 1];
      CountDropped(s[1..], n - 1, m);
    }
  }

  // ---------------------------------------------------------------------------
  // albums and folders
  // ---------------------------------------------------------------------------

  function ArtistIds(w: World, dir: Path, names: seq<string>): Ids
    requires forall f :: f in names ==> dir + [f] in w.files
  {
    seq(|names|, i requires 0 <= i < |names| => w.files[dir + [names[i]]].tags.artistMbid)
  }

  function AlbumArtistIds(w: World, dir: Path, names: seq<string>): Ids
    requires forall f :: f in names ==> dir + [f] in w.files
  {
    seq(|names|, i requires 0 <= i < |names| => w.files[dir + [names[i]]].tags.albumArtistMbid)
  }

  function OrElse(a: Option<string>, b: Option<string>): Option<string> { if a.Some? then a else b }

  /** What _album_identity_mbid computes when it really reads the tags. */
  function Identity(w: World, dir: Path): Option<string> {
    var names := AudioFiles(w, dir);
    OrElse(Dominant(ArtistIds(w, dir, names)), Dominant(AlbumArtistIds(w, dir, names)))
  }

  /** Sub-directories of dir, sorted by name. */
  function SubDirs(w: World, dir: Path): (names: seq<string>)
    ensures forall f :: f in names <==> dir + [f] in w.dirs
  {
    var s := set p | p in w.dirs && p != [] && Parent(p) == dir :: Last(p);
    assert forall f :: f in s <==> dir + [f] in w.dirs by {
      forall f ensures f in s <==> dir + [f] in w.dirs {
        TargetPath(dir, f);
        if f in s {
          var q :| q in w.dirs && q != [] && Parent(q) == dir && f == Last(q);
          assert q == Parent(q) + [Last(q)];
        }
      }
    }
    SortedNames(s)
  }

  /** What the sub-directories of sub are asked, by name. */
  function DiscAt(w: World, sub: Path, exclude: Path): string -> Option<string> {
    d => if sub + [d] == exclude then None else Identity(w, sub + [d])
  }

  function FirstFound(names: seq<string>, ask: string -> Option<string>): Option<string> {
    if names == [] then None else if ask(names[0]).Some? then ask(names[0]) else FirstFound(names[1..], ask)
  }

  /** The first identified sub-directory: the one-level-deeper look at multi-disc folders. */
  function Peek(w: World, sub: Path, discs: seq<string>, exclude: Path): Option<string> {
    FirstFound(discs, DiscAt(w, sub, exclude))
  }

  function SiblingId(w: World, sub: Path, exclude: Path): Option<string> {
    if sub == exclude then None
    else OrElse(Identity(w, sub), Peek(w, sub, SubDirs(w, sub), exclude))
  }

  /** What the siblings in dir are asked, by name. */
  function SiblingAt(w: World, dir: Path, exclude: Path): string -> Option<string> {
    f => SiblingId(w, dir + [f], exclude)
  }

  /** The answers found, in the order of the names. */
  function FoundIds(names: seq<string>, ask: string -> Option<string>): (ids: Ids)
    ensures forall x :: x in ids ==> x.Some?
  {
    if names == [] then [] else (if ask(names[0]).Some? then [ask(names[0])] else []) + FoundIds(names[1..], ask)
  }

  /** The identifiers of all identified siblings, in directory order. */
  function SiblingIds(w: World, dir: Path, subs: seq<string>, exclude: Path): Ids {
    FoundIds(subs, SiblingAt(w, dir, exclude))
  }

  lemma {:induction false} SameAnswers(names: seq<string>, ask: string -> Option<string>,
                                       again: string -> Option<string>)
    requires forall f :: f in names ==> ask(f) == again(f)
    ensures FoundIds(names, ask) == FoundIds(names, again) && FirstFound(names, ask) == FirstFound(names, again)
  {
    if names != [] { SameAnswers(names[1..], ask, again); }
  }

  const FOLDER_SCAN_CAP := 6

  /** _folder_mbid: the dominant identifier of at most FOLDER_SCAN_CAP identified siblings. */
  function FolderMbid(w: World, dir: Path, exclude: Path): Option<string> {
    Dominant(Take(SiblingIds(w, dir, SubDirs(w, dir), exclude), FOLDER_SCAN_CAP))
  }

  /** The same question asked of every sibling. */
  function FolderMbidUncapped(w: World, dir: Path, exclude: Path): Option<string> {
    Dominant(SiblingIds(w, dir, SubDirs(w, dir), exclude))
  }

  lemma CapIsEnough(ids: Ids, m: string)
    requires |ids| - Count(ids, m) <= 2
    ensures Dominant(Take(ids, FOLDER_SCAN_CAP)) == Dominant(ids)
  {
    if |ids| > FOLDER_SCAN_CAP {
      var front := ids[..6];
      CountDropped(ids, 6, m);
      forall x | x != m ensures Count(front, x) < Count(front, m) && Count(ids, x) < Count(ids, m) {
        CountTwo(front, x, m);
        CountTwo(ids, x, m);
      }
      UniqueMajority(front, m);
      UniqueMajority(ids, m);
    } else {
      assert Take(ids, FOLDER_SCAN_CAP) == ids;
    }
  }

  /** If all but at most two identified siblings share one identifier, the capped scan answers what a
      scan of every sibling would, for any folder size and order. */
  lemma CappedScanAgrees(w: World, dir: Path, exclude: Path, m: string)
    requires var ids := SiblingIds(w, dir, SubDirs(w, dir), exclude); |ids| - Count(ids, m) <= 2
    ensures FolderMbid(w, dir, exclude) == FolderMbidUncapped(w, dir, exclude)
  {
    CapIsEnough(SiblingIds(w, dir, SubDirs(w, dir), exclude), m);
  }

  /** On a tie for the largest count the first element wins if its count is the largest. */
  lemma TieGoesToTheFirst(s: Ids)
    requires s != [] && s[0].Some?
    requires forall x :: x in s && x.Some? ==> Count(s, x.value) <= Count(s, s[0].value)
    ensures Dominant(s) == s[0]
  {
    ScanStays(s, s[1..], s[0]);
  }

  lemma {:induction false} ScanStays(all: Ids, rest: Ids, best: Option<string>)
    requires best.Some? && forall x :: x in rest && x.Some? ==> Count(all, x.value) <= Count(all, best.value)
    ensures Scan(all, rest, best) == best
    decreases |rest|
  {
    if rest != [] { ScanStays(all, rest[1..], best); }
  }

  // ---------------------------------------------------------------------------
  // identity depends only on the identifiers of the files directly in the directory
  // ---------------------------------------------------------------------------

  ghost predicate SameView(w: World, d: Path, v: World, e: Path) {
    forall f :: (d + [f] in w.files <==> e + [f] in v.files)
             && (d + [f] in w.files ==> SameMbids(w.files[d + [f]], v.files[e + [f]]))
  }

  lemma SameAudio(w: World, d: Path, v: World, e: Path)
    requires forall f :: d + [f] in w.files <==> e + [f] in v.files
    ensures AudioFiles(w, d) == AudioFiles(v, e)
  {
    LexIsTotalOrder();
    ListingUnique(AudioFiles(w, d), AudioFiles(v, e), LexLeq);
  }

  lemma SameIdentity(w: World, d: Path, v: World, e: Path)
    requires SameView(w, d, v, e)
    ensures Identity(w, d) == Identity(v, e)
  {
    SameAudio(w, d, v, e);
    SameIds(w, d, v, e, AudioFiles(w, d));
  }

  lemma SameIds(w: World, d: Path, v: World, e: Path, names: seq<string>)
    requires forall f :: f in names ==>
               d + [f] in w.files && e + [f] in v.files && SameMbids(w.files[d + [f]], v.files[e + [f]])
    ensures ArtistIds(w, d, names) == ArtistIds(v, e, names)
    ensures AlbumArtistIds(w, d, names) == AlbumArtistIds(v, e, names)
  {}

  // ---------------------------------------------------------------------------
  // the loop
  // ---------------------------------------------------------------------------

  /** The dictionary after the values seen so far: their counts, keyed in first-seen order. */
  ghost predicate Tallied(seen: Ids, counts: map<string, nat>, order: seq<string>) {
    && (forall m :: m in counts <==> m in order)
    && (forall m :: (if m in counts then counts[m] else 0) == Count(seen, m))
    && Firsts(seen) == order
  }

  lemma TallyNext(seen: Ids, x: Option<string>, counts: map<string, nat>, order: seq<string>)
    requires Tallied(seen, counts, order)
    ensures x.None? ==> Tallied(seen + [x], counts, order)
    ensures x.Some? && x.value in counts ==> Tallied(seen + [x], counts[x.value := counts[x.value] + 1], order)
    ensures x.Some? && x.value !in counts ==> Tallied(seen + [x], counts[x.value := 1], order + [x.value])
  {
    CountAppend(seen, x);
    assert (seen + [x])[..|seen|] == seen;
    FirstsMembers(seen);
  }

  /** _dominant as written: a dictionary of counts in first-seen order, then the first maximum. */
  method DominantByCounting(mbids: Ids) returns (r: Option<string>)
    ensures r == Dominant(mbids)
  {
    var counts: map<string, nat> := map[];
    var order: seq<string> := [];
    for i := 0 to |mbids|
      invariant Tallied(mbids[..i], counts, order)
    {
      assert mbids[..i + 1] == mbids[..i] + [mbids[i]];
      TallyNext(mbids[..i], mbids[i], counts, order);
      if mbids[i].Some? {
        var m := mbids[i].value;
        if m in counts {
          counts := counts[m := counts[m] + 1];
        } else {
          counts := counts[m := 1];
          order := order + [m];
        }
      }
    }
    assert mbids[..|mbids|] == mbids;
    r := None;
    for k := 0 to |order|
      invariant r == ScanKeys(mbids, order[..k], None)
    {
      FirstsMembers(mbids);
      assert order[..k + 1] == order[..k] + [order[k]];
      ScanKeysAppend(mbids, order[..k], order[k], None);
      assert order[k] in order;
      assert r.Some? ==> r.value in order by { ScanKeysMember(mbids, order[..k], None); }
      if r.None? || counts[order[k]] > counts[r.value] {
        r := Some(order[k]);
      }
    }
    assert order[..|order|] == order;
    ScanFirsts(mbids, mbids);
  }

  /** The distinct values in first-seen order: the dictionary's keys. */
  ghost function Firsts(s: Ids): seq<string>
    decreases |s|
  {
    if s == [] then [] else
      var front, x := s[..|s| - 1], s[|s| - 1];
      if x.Some? && x !in front then Firsts(front) + [x.value] else Firsts(front)
  }

  ghost function ScanKeys(all: Ids, keys: seq<string>, best: Option<string>): Option<string>
    decreases |keys|
  {
    if keys == [] then best else ScanKeys(all, keys[1..], Better(all, best, Some(keys[0])))
  }

  lemma {:induction false} CountAppend(s: Ids, x: Option<string>)
    ensures forall m :: Count(s + [x], m) == Count(s, m) + (if x == Some(m) then 1 else 0)
    decreases |s|
  {
    if s == [] {
      assert s + [x] == [x];
      assert forall m :: Count([x][1..], m) == 0;
    } else {
      assert (s + [x])[1..] == s[1..] + [x];
      CountAppend(s[1..], x);
    }
  }

  lemma {:induction false} FirstsMembers(s: Ids)
    ensures forall m :: m in Firsts(s) <==> Some(m) in s
    decreases |s|
  {
    if s != [] {
      FirstsMembers(s[..|s| - 1]);
      assert s == s[..|s| - 1] + [s[|s| - 1]];
    }
  }

  lemma {:induction false} ScanKeysAppend(all: Ids, keys: seq<string>, k: string, best: Option<string>)
    ensures ScanKeys(all, keys + [k], best) == Better(all, ScanKeys(all, keys, best), Some(k))
    decreases |keys|
  {
    if keys == [] {
      assert keys + [k] == [k];
      assert [k][1..] == [];
    } else {
      assert (keys + [k])[1..] == keys[1..] + [k];
      ScanKeysAppend(all, keys[1..], k, Better(all, best, Some(keys[0])));
    }
  }

  lemma {:induction false} ScanKeysMember(all: Ids, keys: seq<string>, best: Option<string>)
    ensures var r := ScanKeys(all, keys, best); r.Some? ==> r == best || r.value in keys
    decreases |keys|
  {
    if keys != [] {
      ScanKeysMember(all, keys[1..], Better(all, best, Some(keys[0])));
    }
  }

  lemma {:induction false} ScanAppend(all: Ids, s: Ids, x: Option<string>, best: Option<string>)
    ensures Scan(all, s + [x], best) == Better(all, Scan(all, s, best), x)
    decreases |s|
  {
    if s == [] {
      assert s + [x] == [x];
      assert [x][1..] == [];
    } else {
      assert (s + [x])[1..] == s[1..] + [x];
      ScanAppend(all, s[1..], x, Better(all, best, s[0]));
    }
  }

  /** Going over the distinct keys picks what going over every occurrence picks. */
  lemma {:induction false} ScanFirsts(all: Ids, s: Ids)
    ensures ScanKeys(all, Firsts(s), None) == Scan(all, s, None)
    decreases |s|
  {
    if s != [] {
      var front, x := s[..|s| - 1], s[|s| - 1];
      assert s == front + [x];
      ScanFirsts(all, front);
      ScanAppend(all, front, x, None);
      if x.Some? && x !in front {
        ScanKeysAppend(all, Firsts(front), x.value, None);
      } else if x.Some? {
        ScanFacts(all, front, None);
      }
    }
  }
}
