/** Whole sessions with the library tools: changes are made and undone in last-in-first-out order. */
module LibrarySession {
  import opened LibraryTree
  import opened LibraryScripts
  import opened LibraryUndo

  datatype Act =
    | Retagging(album: Path, artist: string, id: string)
    | Relocating(album: Path, artist: string, id: string)
    | UndoLatest

  /** A change not yet undone, with the world it was made in. */
  datatype Frame = Frame(entry: Entry, before: World)

  datatype Session = Session(world: World, open: seq<Frame>)

  function Top(s: Session): Frame
    requires s.open != []
  {
    s.open[|s.open| - 1]
  }

  /** The call gets past its own checks, draws a fresh change id and runs to the end; an album sits
      at least two levels deep when it is moved, and moves to a folder with an ordinary name. */
  ghost predicate Feasible(s: Session, a: Act) {
    match a
    case Retagging(album, artist, id) =>
      && IsDir(s.world, album) && Fresh(s.world, id)
      && Completes(s.world, ApplyScript(album, AudioFiles(s.world, album), artist, id))
    case Relocating(album, artist, id) =>
      && |album| >= 2 && PlainName(SafeArtist(artist)) && RelocateEnabled(s.world, album, artist) && Fresh(s.world, id)
      && Completes(s.world, RelocateScript(album, Destination(album, artist), AudioFiles(s.world, album), artist, id))
    case UndoLatest => s.open != []
  }

  ghost function Perform(s: Session, a: Act): Session
    requires Feasible(s, a)
  {
    match a
    case Retagging(album, artist, id) =>
      var names := AudioFiles(s.world, album);
      Session(Exec(s.world, ApplyScript(album, names, artist, id)),
              s.open + [Frame(Entry(id, Retagged, album, names), s.world)])
    case Relocating(album, artist, id) =>
      var names := AudioFiles(s.world, album);
      var dst := Destination(album, artist);
      Session(Exec(s.world, RelocateScript(album, dst, names, artist, id)),
              s.open + [Frame(Entry(id, Relocated(dst), album, names), s.world)])
    case UndoLatest =>
      Session(Exec(s.world, RevertScript(s.world, Top(s).entry.id)), s.open[..|s.open| - 1])
  }

  ghost predicate AllFeasible(s: Session, acts: seq<Act>)
    decreases |acts|
  {
    acts == [] || (Feasible(s, acts[0]) && AllFeasible(Perform(s, acts[0]), acts[1..]))
  }

  ghost function PerformAll(s: Session, acts: seq<Act>): Session
    requires AllFeasible(s, acts)
    decreases |acts|
  {
    if acts == [] then s else PerformAll(Perform(s, acts[0]), acts[1..])
  }

  /** The open changes can be undone one after the other, down to the starting world. */
  ghost predicate Unwinds(start: World, w: World, open: seq<Frame>)
    decreases |open|
  {
    && WellFormed(w)
    && if open == [] then Restored(start, w)
       else var f := open[|open| - 1];
            Undoable(w, f.entry, f.before) && Unwinds(start, f.before, open[..|open| - 1])
  }

  lemma RetaggingKeepsUnwinding(start: World, s: Session, a: Act, t: Session)
    requires Unwinds(start, s.world, s.open) && Feasible(s, a) && a.Retagging? && t == Perform(s, a)
    ensures Unwinds(start, t.world, t.open)
  {
    var names := AudioFiles(s.world, a.album);
    ApplyUndoable(s.world, a.album, names, a.artist, a.id);
    ExecKeepsTree(s.world, ApplyScript(a.album, names, a.artist, a.id));
    assert t.open[..|t.open| - 1] == s.open;
  }

  lemma RelocatingKeepsUnwinding(start: World, s: Session, a: Act, t: Session)
    requires Unwinds(start, s.world, s.open) && Feasible(s, a) && a.Relocating? && t == Perform(s, a)
    ensures Unwinds(start, t.world, t.open)
  {
    var names, dst := AudioFiles(s.world, a.album), Destination(a.album, a.artist);
    RelocateUndoable(s.world, a.album, dst, names, a.artist, a.id);
    ExecKeepsTree(s.world, RelocateScript(a.album, dst, names, a.artist, a.id));
    assert t.open[..|t.open| - 1] == s.open;
  }

  lemma UndoKeepsUnwinding(start: World, s: Session, t: Session)
    requires Unwinds(start, s.world, s.open) && Feasible(s, UndoLatest) && t == Perform(s, UndoLatest)
    ensures Unwinds(start, t.world, t.open)
  {
    var f := Top(s);
    UndoOne(s.world, f.entry, f.before);
    ExecKeepsTree(s.world, RevertScript(s.world, f.entry.id));
    UnwindsStable(start, f.before, t.world, t.open);
  }

  lemma ActKeepsUnwinding(start: World, s: Session, a: Act)
    requires Unwinds(start, s.world, s.open) && Feasible(s, a)
    ensures Unwinds(start, Perform(s, a).world, Perform(s, a).open)
  {
    match a
    case Retagging(_, _, _) => RetaggingKeepsUnwinding(start, s, a, Perform(s, a));
    case Relocating(_, _, _) => RelocatingKeepsUnwinding(start, s, a, Perform(s, a));
    case UndoLatest => UndoKeepsUnwinding(start, s, Perform(s, a));
  }

  lemma UnwindsStable(start: World, w: World, v: World, open: seq<Frame>)
    requires Unwinds(start, w, open) && WellFormed(v) && Restored(w, v)
    ensures Unwinds(start, v, open)
  {
    if open == [] {
      RestoredTransitive(start, w, v);
    } else {
      var f := open[|open| - 1];
      UndoableStable(w, v, f.entry, f.before);
    }
  }

  lemma {:induction false} SessionUnwinds(start: World, s: Session, acts: seq<Act>)
    requires Unwinds(start, s.world, s.open) && AllFeasible(s, acts)
    ensures Unwinds(start, PerformAll(s, acts).world, PerformAll(s, acts).open)
    decreases |acts|
  {
    if acts != [] {
      ActKeepsUnwinding(start, s, acts[0]);
      SessionUnwinds(start, Perform(s, acts[0]), acts[1..]);
    }
  }

  /** One revert, at any point of any session, restores exactly the files there were just before the
      change it undoes, whatever else was changed and undone in between. */
  lemma RevertRestores(start: World, acts: seq<Act>)
    requires WellFormed(start) && AllFeasible(Session(start, []), acts)
    requires PerformAll(Session(start, []), acts).open != []
    ensures var s := PerformAll(Session(start, []), acts);
            && Completes(s.world, RevertScript(s.world, Top(s).entry.id))
            && Perform(s, UndoLatest).world.files == Top(s).before.files
  {
    SessionUnwinds(start, Session(start, []), acts);
    LatestIsUndone(start, PerformAll(Session(start, []), acts));
  }

  lemma LatestIsUndone(start: World, s: Session)
    requires s.open != [] && Unwinds(start, s.world, s.open)
    ensures Completes(s.world, RevertScript(s.world, Top(s).entry.id))
    ensures Perform(s, UndoLatest).world.files == Top(s).before.files
  {
    UndoOne(s.world, Top(s).entry, Top(s).before);
  }

  function Undos(n: nat): seq<Act> { if n == 0 then [] else [UndoLatest] + Undos(n - 1) }

  /** Nothing is left over but empty artist folders. */
  ghost predicate OnlyEmptyFoldersLeft(start: World, w: World) {
    && start.dirs.Keys <= w.dirs.Keys
    && forall d :: d in w.dirs && d !in start.dirs ==>
         && |d| == 1
         && (forall p :: p in w.files ==> !(d <= p))
         && (forall p :: p in w.dirs && d <= p ==> p == d)
  }

  lemma LeftoversAreEmpty(start: World, w: World)
    requires WellFormed(start) && WellFormed(w) && Restored(start, w)
    ensures OnlyEmptyFoldersLeft(start, w)
  {
    forall d | d in w.dirs && d !in start.dirs
      ensures (forall p :: p in w.files ==> !(d <= p)) && (forall p :: p in w.dirs && d <= p ==> p == d)
    {
      assert d !in w.files;
      AbsentIsClear(start, d);
      forall p | p in w.dirs && d <= p ensures p == d {
        if p !in start.dirs { assert |p| == 1; }
      }
    }
  }

  /** After any session, undoing what is still open, latest first, always succeeds and puts every
      library file back at its original path with its original bytes. */
  lemma UndoEverything(start: World, acts: seq<Act>)
    requires WellFormed(start) && AllFeasible(Session(start, []), acts)
    ensures var t := PerformAll(Session(start, []), acts);
            && AllFeasible(t, Undos(|t.open|))
            && var end := PerformAll(t, Undos(|t.open|));
               end.open == [] && end.world.files == start.files && OnlyEmptyFoldersLeft(start, end.world)
  {
    SessionUnwinds(start, Session(start, []), acts);
    var t := PerformAll(Session(start, []), acts);
    var end := UnwindAll(start, t, |t.open|);
    LeftoversAreEmpty(start, end.world);
  }

  /** n undos of the latest open change succeed and lead to this end. */
  ghost predicate UndoesTo(t: Session, n: nat, end: Session) {
    AllFeasible(t, Undos(n)) && PerformAll(t, Undos(n)) == end
  }

  lemma {:induction false} UnwindAll(start: World, t: Session, n: nat) returns (end: Session)
    requires Unwinds(start, t.world, t.open) && n == |t.open|
    ensures UndoesTo(t, n, end) && end.open == [] && WellFormed(end.world) && Restored(start, end.world)
    decreases n
  {
    if n == 0 {
      return t;
    }
    var u := UndoOnce(start, t);
    end := UnwindAll(start, u, n - 1);
    UndosCons(t, u, n, end);
  }

  lemma UndoOnce(start: World, t: Session) returns (u: Session)
    requires Unwinds(start, t.world, t.open) && t.open != []
    ensures Feasible(t, UndoLatest) && u == Perform(t, UndoLatest)
    ensures Unwinds(start, u.world, u.open) && |u.open| == |t.open| - 1
  {
    u := Perform(t, UndoLatest);
    ActKeepsUnwinding(start, t, UndoLatest);
  }

  lemma UndosCons(t: Session, u: Session, n: nat, end: Session)
    requires n > 0 && Feasible(t, UndoLatest) && u == Perform(t, UndoLatest) && UndoesTo(u, n - 1, end)
    ensures UndoesTo(t, n, end)
  {
    var acts := Undos(n);
    assert acts[0] == UndoLatest && acts[1..] == Undos(n - 1);
  }
}
