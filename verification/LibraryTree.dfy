/** The music library as rick-library-mcp sees it: a file tree, the off-library backup volume and
    the append-only change ledger, with the single file-system steps its tools are made of. */
module LibraryTree {
  import opened Basics

  /** A path below MEDIA_ROOT, component by component; [] is MEDIA_ROOT itself. */
  type Path = seq<string>

  datatype Tags = Tags(artist: Option<string>, albumArtist: Option<string>,
                       artistMbid: Option<string>, albumArtistMbid: Option<string>)

  /** The bytes of one file: the four tags the server reads, whether the tag library can edit the
      file at all, and everything else. */
  datatype Content = Content(tags: Tags, taggable: bool, rest: seq<bv8>)

  /** _write_album_artist: the album artist changes and nothing else does. */
  function WithAlbumArtist(c: Content, artist: string): (r: Content)
  {
    c.(tags := c.tags.(albumArtist := Some(artist)))
  }

  datatype BackupKey = BackupKey(id: string, name: string)

  datatype Operation = Retagged | Relocated(newPath: Path) | Reverted

  datatype Entry = Entry(id: string, op: Operation, path: Path, names: seq<string>)

  /** `dirs` maps each directory to its modification time. Every directory change is stamped from
      `clock`, so no two directories ever share a modification time. */
  datatype World = World(files: map<Path, Content>, dirs: map<Path, nat>, clock: nat,
                         backups: map<BackupKey, Content>, ledger: seq<Entry>)

  predicate IsDir(w: World, p: Path) { p in w.dirs }
  predicate Exists(w: World, p: Path) { p in w.files || p in w.dirs }

  function Parent(p: Path): Path
    requires p != []
  {
    p[..|p| - 1]
  }

  /** Files are not directories, and whatever exists sits in a directory. */
  ghost predicate WellFormed(w: World) {
    && [] in w.dirs
    && (forall p :: p in w.files ==> p !in w.dirs)
    && (forall p {:trigger Parent(p)} :: p in w.files ==> Parent(p) in w.dirs)
    && (forall p {:trigger Parent(p)} :: p in w.dirs && p != [] ==> Parent(p) in w.dirs)
    && (forall p :: p in w.dirs ==> w.dirs[p] < w.clock)
  }

  /** Nothing exists at or below p. */
  ghost predicate Clear(w: World, p: Path) {
    && (forall q :: q in w.files ==> !(p <= q))
    && (forall q :: q in w.dirs ==> !(p <= q))
  }

  lemma {:induction false} AncestorIsDir(w: World, p: Path, q: Path)
    requires WellFormed(w)
    requires Exists(w, q) && p <= q && p != q
    ensures p in w.dirs
    decreases |q|
  {
    if p != Parent(q) {
      AncestorIsDir(w, p, Parent(q));
    }
  }

  lemma AbsentIsClear(w: World, p: Path)
    requires WellFormed(w) && !Exists(w, p)
    ensures Clear(w, p)
  {
    forall q | q in w.files ensures !(p <= q) { if p <= q { AncestorIsDir(w, p, q); } }
    forall q | q in w.dirs ensures !(p <= q) { if p <= q { AncestorIsDir(w, p, q); } }
  }

  // ---------------------------------------------------------------------------
  // renaming a directory
  // ---------------------------------------------------------------------------

  ghost predicate Apart(a: Path, b: Path) { !(a <= b) && !(b <= a) }

  function Reloc(p: Path, src: Path, dst: Path): Path
  {
    if src <= p then dst + p[|src|..] else p
  }

  /** The map after everything at or below src is renamed to sit at or below dst. */
  function Rekey<V>(m: map<Path, V>, src: Path, dst: Path): map<Path, V>
  {
    map q | q in (set p | p in m :: Reloc(p, src, dst)) && Reloc(q, dst, src) in m :: m[Reloc(q, dst, src)]
  }

  lemma RelocInverse(p: Path, src: Path, dst: Path)
    requires !(dst <= p)
    ensures Reloc(Reloc(p, src, dst), dst, src) == p
  {
    if src <= p {
      assert p == src + p[|src|..];
      assert (dst + p[|src|..])[|dst|..] == p[|src|..];
    }
  }

  /** r is m with everything at or below src renamed to sit at or below dst. */
  ghost predicate Renamed<V(!new)>(m: map<Path, V>, r: map<Path, V>, src: Path, dst: Path) {
    && (forall p {:trigger Reloc(p, src, dst)} :: p in m ==> Reloc(p, src, dst) in r && r[Reloc(p, src, dst)] == m[p])
    && (forall q {:trigger Reloc(q, dst, src)} :: q in r ==>
        !(src <= q) && Reloc(q, dst, src) in m && q == Reloc(Reloc(q, dst, src), src, dst))
  }

  lemma RekeyFacts<V(!new)>(m: map<Path, V>, src: Path, dst: Path)
    requires Apart(src, dst)
    requires forall p :: p in m ==> !(dst <= p)
    ensures Renamed(m, Rekey(m, src, dst), src, dst)
  {
    forall p | p in m
      ensures Reloc(p, src, dst) in Rekey(m, src, dst) && Rekey(m, src, dst)[Reloc(p, src, dst)] == m[p]
    {
      RelocInverse(p, src, dst);
    }
    forall q | q in Rekey(m, src, dst)
      ensures !(src <= q) && Reloc(q, dst, src) in m && q == Reloc(Reloc(q, dst, src), src, dst)
    {
      var p :| p in m && q == Reloc(p, src, dst);
      RelocInverse(p, src, dst);
      if src <= p && src <= q {
        PrefixesComparable(src, dst, q);
      }
    }
  }

  lemma PrefixesComparable(a: Path, b: Path, q: Path)
    requires a <= q && b <= q
    ensures a <= b || b <= a
  {
    if |a| <= |b| {
      assert a == q[..|a|] == b[..|a|];
    } else {
      assert b == q[..|b|] == a[..|b|];
    }
  }

  /** shutil.move onto a path that does not exist: a rename. The moved directory keeps its own
      modification time; the two parents are stamped. */
  function MoveDir(w: World, src: Path, dst: Path): World
    requires src != [] && dst != []
  {
    Restamped(w, Rekey(w.files, src, dst), Rekey(w.dirs, src, dst), src, dst)
  }

  /** os.makedirs(exist_ok=True): creates the missing ancestors, each stamped, as is its parent. */
  function MakeDirs(w: World, d: Path): World
    decreases |d|
  {
    if d == [] || d in w.dirs then w else
      var w1 := MakeDirs(w, Parent(d));
      w1.(dirs := w1.dirs[Parent(d) := w1.clock][d := w1.clock + 1], clock := w1.clock + 2)
  }

  /** No file is in the way. */
  predicate CanMakeDirs(w: World, d: Path)
    decreases |d|
  {
    d !in w.files && (d != [] ==> CanMakeDirs(w, Parent(d)))
  }

  lemma {:induction false} ExistingCanBeMade(w: World, d: Path)
    requires WellFormed(w) && d in w.dirs
    ensures CanMakeDirs(w, d)
    decreases |d|
  {
    if d != [] { ExistingCanBeMade(w, Parent(d)); }
  }

  // ---------------------------------------------------------------------------
  // file steps
  // ---------------------------------------------------------------------------

  datatype FileStep =
    | MakeDirectory(dir: Path)
    | Backup(id: string, name: string, source: Path)
    | Retag(target: Path, artist: string)
    | RetagBestEffort(target: Path, artist: string)
    | Move(source: Path, dest: Path)
    | Restore(id: string, name: string, target: Path, onlyExisting: bool)
    | Record(entry: Entry)

  /** Whether a Restore step copies anything: the `isfile` tests of `revert`. */
  predicate Restores(w: World, s: FileStep)
    requires s.Restore?
  {
    BackupKey(s.id, s.name) in w.backups && (s.onlyExisting ==> s.target in w.files)
  }

  /** The step does not raise. */
  ghost predicate CanDo(w: World, s: FileStep) {
    match s
    case MakeDirectory(d) => CanMakeDirs(w, d)
    case Backup(_, _, source) => source in w.files
    case Retag(target, _) => target in w.files && w.files[target].taggable
    case RetagBestEffort(_, _) => true
    case Move(src, dst) =>
      && src != [] && dst != []
      && IsDir(w, src) && !Exists(w, dst) && IsDir(w, Parent(dst)) && !(src <= dst)
    case Restore(_, _, target, _) =>
      Restores(w, s) ==> target != [] && target !in w.dirs && Parent(target) in w.dirs
    case Record(_) => true
  }

  ghost function Do(w: World, s: FileStep): World
    requires CanDo(w, s)
  {
    match s
    case MakeDirectory(d) => MakeDirs(w, d)
    case Backup(id, name, source) => w.(backups := w.backups[BackupKey(id, name) := w.files[source]])
    case Retag(target, artist) => w.(files := w.files[target := WithAlbumArtist(w.files[target], artist)])
    case RetagBestEffort(target, artist) =>
      if target in w.files && w.files[target].taggable
      then w.(files := w.files[target := WithAlbumArtist(w.files[target], artist)])
      else w
    case Move(src, dst) => MoveDir(w, src, dst)
    case Restore(id, name, target, _) =>
      if !Restores(w, s) then w
      else if target in w.files then w.(files := w.files[target := w.backups[BackupKey(id, name)]])
      else w.(files := w.files[target := w.backups[BackupKey(id, name)]],
              dirs := w.dirs[Parent(target) := w.clock], clock := w.clock + 1)
    case Record(entry) => w.(ledger := w.ledger + [entry])
  }

  /** The world after as many leading steps of the script as do not raise. */
  ghost function Exec(w: World, script: seq<FileStep>): World
    decreases |script|
  {
    if script == [] || !CanDo(w, script[0]) then w else Exec(Do(w, script[0]), script[1..])
  }

  /** No step of the script raises. */
  ghost predicate Completes(w: World, script: seq<FileStep>)
    decreases |script|
  {
    script == [] || (CanDo(w, script[0]) && Completes(Do(w, script[0]), script[1..]))
  }

  lemma {:induction false} ExecConcat(w: World, a: seq<FileStep>, b: seq<FileStep>)
    requires Completes(w, a)
    ensures Exec(w, a + b) == Exec(Exec(w, a), b)
    ensures Completes(w, a + b) <==> Completes(Exec(w, a), b)
    decreases |a|
  {
    if a == [] {
      assert a + b == b;
    } else {
      assert (a + b)[1..] == a[1..] + b;
      ExecConcat(Do(w, a[0]), a[1..], b);
    }
  }

  lemma {:induction false} CompletesPrefix(w: World, a: seq<FileStep>, b: seq<FileStep>)
    requires Completes(w, a + b)
    ensures Completes(w, a)
    decreases |a|
  {
    if a != [] {
      assert (a + b)[1..] == a[1..] + b;
      CompletesPrefix(Do(w, a[0]), a[1..], b);
    }
  }

  // ---------------------------------------------------------------------------
  // every step keeps the tree well formed
  // ---------------------------------------------------------------------------

  lemma {:induction false} MakeDirsFacts(w: World, d: Path)
    requires WellFormed(w) && CanMakeDirs(w, d)
    ensures WellFormed(MakeDirs(w, d))
    ensures MakeDirs(w, d).files == w.files && MakeDirs(w, d).backups == w.backups && MakeDirs(w, d).ledger == w.ledger
    ensures w.dirs.Keys <= MakeDirs(w, d).dirs.Keys
    ensures d in MakeDirs(w, d).dirs
    ensures forall p :: p in MakeDirs(w, d).dirs && p !in w.dirs ==> p <= d
    ensures w.clock <= MakeDirs(w, d).clock
    ensures forall p :: p in MakeDirs(w, d).dirs ==>
              MakeDirs(w, d).dirs[p] >= w.clock || (p in w.dirs && w.dirs[p] == MakeDirs(w, d).dirs[p])
    decreases |d|
  {
    if d != [] && d !in w.dirs {
      MakeDirsFacts(w, Parent(d));
    }
  }

  /** The parent of a renamed path is the renamed parent; dst itself hangs below its own parent. */
  lemma RelocParent(p: Path, src: Path, dst: Path)
    requires p != [] && src != [] && dst != []
    ensures Reloc(p, src, dst) != []
    ensures Parent(Reloc(p, src, dst)) == if p == src then Parent(dst) else Reloc(Parent(p), src, dst)
  {
    if src <= p && p != src {
      assert src <= Parent(p);
      assert (dst + p[|src|..])[..|dst| + |p| - |src| - 1] == dst + Parent(p)[|src|..];
    } else {
      PrefixOfParent(src, p);
    }
  }

  lemma PrefixOfParent(a: Path, p: Path)
    requires p != []
    ensures a <= Parent(p) ==> a <= p
  {}

  lemma MoveIsRename(w: World, src: Path, dst: Path)
    requires WellFormed(w) && CanDo(w, Move(src, dst))
    ensures Clear(w, dst) && Apart(src, dst)
    ensures Renamed(w.files, Rekey(w.files, src, dst), src, dst)
    ensures Renamed(w.dirs, Rekey(w.dirs, src, dst), src, dst)
    ensures Parent(src) in Rekey(w.dirs, src, dst) && Parent(dst) in Rekey(w.dirs, src, dst)
    ensures MoveDir(w, src, dst).dirs.Keys == Rekey(w.dirs, src, dst).Keys
  {
    AbsentIsClear(w, dst);
    RekeyFacts(w.files, src, dst);
    RekeyFacts(w.dirs, src, dst);
    assert Reloc(Parent(src), src, dst) == Parent(src);
    PrefixOfParent(src, dst);
    assert Reloc(Parent(dst), src, dst) == Parent(dst);
  }

  /** A tree with new maps and the two parents of a rename stamped. */
  function Restamped(w: World, files: map<Path, Content>, dirs: map<Path, nat>, src: Path, dst: Path): World
    requires src != [] && dst != []
  {
    w.(files := files, dirs := dirs[Parent(src) := w.clock][Parent(dst) := w.clock + 1], clock := w.clock + 2)
  }

  /** The two renamed maps that make up the renamed tree. */
  lemma MoveShape(w: World, src: Path, dst: Path) returns (v: World, files: map<Path, Content>, dirs: map<Path, nat>)
    requires src != [] && dst != [] && WellFormed(w) && CanDo(w, Move(src, dst))
    ensures Clear(w, dst) && Apart(src, dst)
    ensures Renamed(w.files, files, src, dst) && Renamed(w.dirs, dirs, src, dst)
    ensures Parent(src) in dirs && Parent(dst) in dirs
    ensures v == MoveDir(w, src, dst)
    ensures v == Restamped(w, files, dirs, src, dst)
  {
    MoveIsRename(w, src, dst);
    v, files, dirs := MoveDir(w, src, dst), Rekey(w.files, src, dst), Rekey(w.dirs, src, dst);
  }

  lemma RenameKeepsTree(w: World, files: map<Path, Content>, dirs: map<Path, nat>, src: Path, dst: Path)
    requires WellFormed(w) && src != [] && dst != []
    requires Renamed(w.files, files, src, dst) && Renamed(w.dirs, dirs, src, dst)
    requires Parent(dst) in dirs
    ensures [] in dirs
    ensures forall q {:trigger Parent(q)} {:trigger q in files} :: q in files ==>
            q !in dirs && q != [] && Parent(q) in dirs
    ensures forall q {:trigger Parent(q)} :: q in dirs && q != [] ==> Parent(q) in dirs
    ensures forall q :: q in dirs ==> dirs[q] < w.clock
  {
    assert Reloc([], src, dst) == [];
    forall q | q in files ensures q !in dirs && q != [] && Parent(q) in dirs {
      RelocParent(Reloc(q, dst, src), src, dst);
    }
    forall q | q in dirs ensures dirs[q] < w.clock && (q != [] ==> Parent(q) in dirs) {
      var p := Reloc(q, dst, src);
      if q != [] { RelocParent(p, src, dst); }
    }
  }

  lemma MoveKeepsTree(w: World, src: Path, dst: Path)
    requires WellFormed(w) && CanDo(w, Move(src, dst))
    ensures WellFormed(MoveDir(w, src, dst))
  {
    var v, files, dirs := MoveShape(w, src, dst);
    RenameKeepsTree(w, files, dirs, src, dst);
    RestampKeepsTree(w, v, files, dirs, src, dst);
  }

  lemma RestampKeepsTree(w: World, v: World, files: map<Path, Content>, dirs: map<Path, nat>, src: Path, dst: Path)
    requires src != [] && dst != [] && v == Restamped(w, files, dirs, src, dst)
    requires [] in dirs && Parent(src) in dirs && Parent(dst) in dirs
    requires forall q {:trigger Parent(q)} {:trigger q in files} :: q in files ==>
             q !in dirs && q != [] && Parent(q) in dirs
    requires forall q {:trigger Parent(q)} :: q in dirs && q != [] ==> Parent(q) in dirs
    requires forall q :: q in dirs ==> dirs[q] < w.clock
    ensures WellFormed(v)
  {
    assert v.dirs.Keys == dirs.Keys;
  }

  lemma StepKeepsTree(w: World, s: FileStep)
    requires WellFormed(w) && CanDo(w, s)
    ensures WellFormed(Do(w, s))
  {
    match s
    case MakeDirectory(d) => MakeDirsFacts(w, d);
    case Move(src, dst) => MoveKeepsTree(w, src, dst);
    case _ =>
  }

  lemma {:induction false} ExecKeepsTree(w: World, script: seq<FileStep>)
    requires WellFormed(w)
    ensures WellFormed(Exec(w, script))
    decreases |script|
  {
    if script != [] && CanDo(w, script[0]) {
      StepKeepsTree(w, script[0]);
      ExecKeepsTree(Do(w, script[0]), script[1..]);
    }
  }
}
