/** When a member of a layer can be written, and what a hard link is a link to. */
module LayerWrites {
  import opened Strings
  import opened Layers

  /** A symlink stands where a directory on the way to `p` has to be. */
  predicate LinkInTheWay(t: Tree, p: Path)
    requires p != []
  {
    exists i :: 0 < i < |p| && p[..i] in t && t[p[..i]].Link?
  }

  lemma InTheWayIs(t: Tree, p: Path)
    requires p != []
    ensures LinkInTheWay(t, p) <==> !NoLinkAbove(t, Parent(p))
  {
    if LinkInTheWay(t, p) {
      var i :| 0 < i < |p| && p[..i] in t && t[p[..i]].Link?;
      assert Parent(p)[..i] == p[..i];
      AncestorIff(Parent(p), p[..i]);
    }
    if !NoLinkAbove(t, Parent(p)) {
      var q :| q in Ancestors(Parent(p)) && q in t && t[q].Link?;
      AncestorIff(Parent(p), q);
      assert p[..|q|] == q;
    }
  }

  /** Directories are made down to where an entry goes exactly where no symlink is in the way. */
  lemma WalkIsMade(t: Tree, p: Path)
    requires p != []
    ensures RealDir(t, Parent(p), 0, true) == Found(MadeDirs(t, Parent(p))) <==> !LinkInTheWay(t, p)
    ensures RealDir(t, Parent(p), 0, true).Found? <==> !LinkInTheWay(t, p)
  {
    InTheWayIs(t, p);
    if RealDir(t, Parent(p), 0, true).Found? { RealDirUnlinked(t, Parent(p), 0); }
    if NoLinkAbove(t, Parent(p)) { RealDirMakes(t, Parent(p), 0); }
  }

  /** A directory, a file or a symlink is written exactly where no symlink is in the way;
      a device or a fifo is passed over. */
  lemma WriteIsRefused(t: Tree, p: Path, kind: Kind, keep: Keep)
    requires p != [] && !kind.HardMember?
    ensures Write(t, p, kind, keep).Ok? <==> kind.Device? || !LinkInTheWay(t, p)
    ensures kind.Device? ==> Write(t, p, kind, keep) == Ok(t)
  {
    WalkIsMade(t, p);
  }

  /** The tree a hard link looks its source up in: the directories above it made, and what
      stood in its own place gone. */
  function Before(t: Tree, p: Path): Tree
    requires p != []
  {
    Clear(MadeDirs(t, Parent(p)), p)
  }

  /** A hard link is written exactly where no symlink is in the way and its source is a
      name inside the image and among the requested paths, that is there and no directory;
      then it holds what the source does. */
  lemma HardLinkIs(t: Tree, p: Path, source: string, keep: Keep)
    requires WellFormed(t) && p != []
    ensures Write(t, p, HardMember(source), keep).Ok? <==>
      && !LinkInTheWay(t, p) && MemberPath(source).Some? && Kept(keep, MemberPath(source).value)
      && MemberPath(source).value in Before(t, p) && Before(t, p)[MemberPath(source).value] != Dir
    ensures Write(t, p, HardMember(source), keep).Ok? ==>
      Write(t, p, HardMember(source), keep).tree == Before(t, p)[p := Before(t, p)[MemberPath(source).value]]
  {
    WalkIsMade(t, p);
    if !LinkInTheWay(t, p) {
      InTheWayIs(t, p);
      MadeDirsWellFormed(t, Parent(p));
      ClearWellFormed(MadeDirs(t, Parent(p)), p);
      if MemberPath(source).Some? { SourceIs(Before(t, p), p, MemberPath(source).value, keep); }
    }
  }

  lemma SourceIs(t: Tree, p: Path, src: Path, keep: Keep)
    requires WellFormed(t)
    ensures HardLink(t, p, Some(src), keep) == if Kept(keep, src) && src in t && t[src] != Dir then Ok(t[p := t[src]]) else Err
  {
    if src != [] { RealDirFinds(t, Parent(src), 0); }
  }
}
