/** Applying layers through the requested paths gives, under those paths, what
    applying every member would. */
module LayerProjection {
  import opened Strings
  import opened Layers

  // --- the requested paths ----------------------------------------------------------

  predicate In(ps: seq<Path>, p: Path) { exists q :: q in ps && Under(p, q) }

  /** `_prefixes`: each path's components, once, and none inside another; None when
      one names no directory inside the image. */
  function Normalized(paths: seq<string>): Option<seq<Path>> {
    if paths == [] then Some([])
    else
      var parts := Parts(Split(paths[|paths| - 1], '/'));
      match Normalized(paths[..|paths| - 1])
      case None => None
      case Some(front) => if parts == [] || ".." in parts then None else Some(if parts in front then front else front + [parts])
  }

  function Outermost(all: seq<Path>, some: seq<Path>): seq<Path> {
    if some == [] then []
    else (if exists q :: q in all && q != some[0] && Under(some[0], q) then [] else [some[0]]) + Outermost(all, some[1..])
  }

  function Prefixes(paths: seq<string>): Option<seq<Path>> {
    match Normalized(paths)
    case None => None
    case Some(all) => Some(Outermost(all, all))
  }

  lemma {:induction false} OutermostIff(all: seq<Path>, some: seq<Path>, p: Path)
    ensures p in Outermost(all, some) <==> p in some && !exists q :: q in all && q != p && Under(p, q)
  {
    if some != [] {
      OutermostIff(all, some[1..], p);
      assert some == [some[0]] + some[1..];
    }
  }

  /** Above any path of the list stands one that is inside no other. */
  lemma {:induction false} HasOutermost(all: seq<Path>, p: Path) returns (q: Path)
    requires p in all
    ensures q in Outermost(all, all) && Under(p, q)
    decreases |p|
  {
    OutermostIff(all, all, p);
    if r :| r in all && r != p && Under(p, r) {
      q := HasOutermost(all, r);
    } else {
      q := p;
    }
  }

  lemma {:induction false} NormalizedNonempty(paths: seq<string>)
    requires Normalized(paths).Some?
    ensures forall p :: p in Normalized(paths).value ==> p != []
  {
    if paths != [] { NormalizedNonempty(paths[..|paths| - 1]); }
  }

  /** The prefixes cover exactly the paths the requested ones do, and none is inside another. */
  lemma PrefixesCover(paths: seq<string>)
    requires Normalized(paths).Some?
    ensures var all, out := Normalized(paths).value, Prefixes(paths).value;
            && (forall p: Path :: In(out, p) <==> In(all, p))
            && (forall q, r :: q in out && r in out && q != r ==> !Under(q, r))
            && (forall q :: q in out ==> q != [])
  {
    var all, out := Normalized(paths).value, Prefixes(paths).value;
    NormalizedNonempty(paths);
    forall q | q in out
      ensures q in all && forall r :: r in all && r != q ==> !Under(q, r)
    {
      OutermostIff(all, all, q);
    }
    forall p: Path, q | q in all && Under(p, q)
      ensures exists r :: r in out && Under(p, r)
    {
      var r := HasOutermost(all, q);
      assert Under(p, r);
    }
  }

  // --- projection ---------------------------------------------------------------------

  /** Strictly above a requested path, and not itself under one. */
  predicate AboveThem(ps: seq<Path>, p: Path) { !In(ps, p) && exists q :: q in ps && p < q }

  /** The same under the requested paths, with only directories above them. */
  ghost predicate Same(ps: seq<Path>, full: Tree, some: Tree) {
    && WellFormed(full) && WellFormed(some)
    && (forall p: Path :: In(ps, p) ==> (p in full <==> p in some) && (p in full ==> full[p] == some[p]))
    && (forall p: Path :: AboveThem(ps, p) && p in full ==> full[p] == Dir)
    && (forall p: Path :: AboveThem(ps, p) && p in some ==> some[p] == Dir)
  }

  /** What the layers have to be: above a requested path directories alone, and
      hard links under them to files under them. */
  predicate Projects(ps: seq<Path>, m: Member) {
    match MemberPath(m.name)
    case None => true
    case Some(p) =>
      && (AboveThem(ps, p) ==> m.kind.DirMember? || m.kind.Device?)
      && (In(ps, p) && m.kind.HardMember? && MemberPath(m.kind.source).Some? ==> In(ps, MemberPath(m.kind.source).value))
  }

  lemma KeptIn(ps: seq<Path>, p: Path)
    ensures Kept(Only(ps), p) <==> In(ps, p)
  {
  }

  lemma ClearSame(ps: seq<Path>, full: Tree, some: Tree, p: Path)
    requires Same(ps, full, some)
    ensures Same(ps, Clear(full, p), Clear(some, p))
  {
    ClearWellFormed(full, p);
    ClearWellFormed(some, p);
  }

  /** Removing is clearing, in a well-formed tree. */
  lemma RemoveIs(t: Tree, p: Path)
    requires WellFormed(t) && p != []
    ensures Remove(t, p) == Clear(t, p)
  {
    RealDirFinds(t, Parent(p), 0);
    if !IsDir(t, Parent(p)) {
      forall q | q in t && Under(q, p) ensures false {
        assert q[..|p| - 1] == Parent(p);
        NotBelow(t, q, |p| - 1);
      }
      assert Clear(t, p) == t;
    }
  }

  /** ... and emptying leaves the directory alone. */
  lemma EmptyIs(t: Tree, p: Path)
    requires WellFormed(t)
    ensures Empty(t, p) == map q | q in t && (!Under(q, p) || q == p) :: t[q]
  {
    RealDirFinds(t, p, 0);
    if !IsDir(t, p) {
      forall q | q in t && Under(q, p) && q != p ensures false {
        assert q[..|p|] == p;
        NotBelow(t, q, |p|);
      }
      assert (map q | q in t && (!Under(q, p) || q == p) :: t[q]) == t;
    }
  }

  /** No whiteout of the layer names "..". */
  predicate OrdinaryWhiteout(name: string) {
    match MemberPath(name)
    case Some(w) => w != [] && Leaf(w) != OPAQUE && IsWhiteout(Leaf(w)) ==> Leaf(w)[|WHITEOUT|..] != ".."
    case None => true
  }

  lemma WhiteoutSame(ps: seq<Path>, full: Tree, some: Tree, name: string)
    requires Same(ps, full, some) && Whiteout(full, name).Ok? && OrdinaryWhiteout(name)
    ensures Whiteout(some, name).Ok? && Same(ps, Whiteout(full, name).tree, Whiteout(some, name).tree)
  {
    var p := MemberPath(name).value;
    if p != [] && Leaf(p) == OPAQUE {
      EmptyIs(full, Parent(p));
      EmptyIs(some, Parent(p));
      EmptyWellFormed(full, Parent(p));
      EmptyWellFormed(some, Parent(p));
    } else if p != [] && IsWhiteout(Leaf(p)) {
      var w := Parent(p) + [Leaf(p)[|WHITEOUT|..]];
      assert Parent(w) == Parent(p);
      RemoveIs(full, w);
      RemoveIs(some, w);
      ClearSame(ps, full, some, w);
      ClearDirIs(full, Parent(p));
      ClearDirIs(some, Parent(p));
    }
  }

  /** Writing where nothing is requested changes nothing there. */
  lemma OutsideSame(ps: seq<Path>, full: Tree, some: Tree, p: Path, kind: Kind)
    requires Same(ps, full, some) && p != [] && !In(ps, p) && Write(full, p, kind, All).Ok?
    requires AboveThem(ps, p) ==> kind.DirMember? || kind.Device?
    ensures Same(ps, Write(full, p, kind, All).tree, some)
  {
    if !kind.Device? {
      WriteWellFormed(full, p, kind, All);
      RealDirUnlinked(full, Parent(p), 0);
      RealDirMakes(full, Parent(p), 0);
      MadeDirsWellFormed(full, Parent(p));
      RealDirFinds(MadeDirs(full, Parent(p)), p, 0);
      var out := Write(full, p, kind, All).tree;
      assert Written(full, p, kind, out);
      forall q: Path
        ensures In(ps, q) ==> (q in out <==> q in some) && (q in out ==> out[q] == some[q])
        ensures AboveThem(ps, q) && q in out ==> out[q] == Dir
      {
        AncestorIff(Parent(p), q);
        OutsidePoint(ps, p, q);
        WrittenElsewhere(full, p, kind, out, q);
      }
    }
  }

  /** A write, seen from outside: the directories above made, the entry replaced. */
  ghost predicate Written(t: Tree, p: Path, kind: Kind, out: Tree)
    requires p != []
  {
    var m := MadeDirs(t, Parent(p));
    && (kind.DirMember? && IsDir(m, p) ==> out == m)
    && (!(kind.DirMember? && IsDir(m, p)) ==>
         p in out && out == Clear(m, p)[p := out[p]] && (kind.DirMember? ==> out[p] == Dir))
  }

  lemma WrittenElsewhere(t: Tree, p: Path, kind: Kind, out: Tree, q: Path)
    requires WellFormed(t) && p != [] && Written(t, p, kind, out)
    ensures q != [] && q < p ==> q in out && out[q] == Dir
    ensures !(q <= p) && !Under(q, p) ==> (q in out <==> q in t) && (q in out ==> out[q] == t[q])
    ensures q == p && kind.DirMember? ==> q in out && out[q] == Dir
    ensures q != p && Under(q, p) && kind.DirMember? && (p in t ==> t[p] == Dir) ==> (q in out <==> q in t) && (q in out ==> out[q] == t[q])
  {
    AncestorIff(Parent(p), q);
    AncestorIff(Parent(p), p);
    NothingUnder(t, p, q);
  }

  /** ... and beneath an entry that is replaced nothing stays. */
  lemma WrittenBeneath(t: Tree, p: Path, kind: Kind, out: Tree, q: Path)
    requires WellFormed(t) && p != [] && Written(t, p, kind, out) && q != p && Under(q, p)
    ensures kind.DirMember? && p in t && t[p] == Dir ==> (q in out <==> q in t) && (q in out ==> out[q] == t[q])
    ensures !(kind.DirMember? && p in t && t[p] == Dir) ==> q !in out
  {
    AncestorIff(Parent(p), q);
    AncestorIff(Parent(p), p);
    NothingUnder(t, p, q);
  }

  lemma NothingUnder(t: Tree, p: Path, q: Path)
    requires WellFormed(t) && p != []
    ensures p !in t && Under(q, p) ==> q !in t
  {
    if p !in t && Under(q, p) && q != p {
      assert q[..|p|] == p;
      if q in t { NotBelow(t, q, |p|); }
    }
  }

  /** A path beside or above the requested ones has none of theirs at or above it,
      and has theirs beneath only by being above one. */
  lemma OutsidePoint(ps: seq<Path>, p: Path, q: Path)
    requires p != [] && !In(ps, p)
    ensures In(ps, q) ==> !(q <= p)
    ensures In(ps, q) && Under(q, p) ==> AboveThem(ps, p)
    ensures AboveThem(ps, q) && Under(q, p) ==> AboveThem(ps, p)
  {
    if In(ps, q) {
      var r :| r in ps && Under(q, r);
      assert q <= p ==> r <= p;
      assert p <= q ==> p <= r || r <= p;
    }
    if AboveThem(ps, q) {
      var r :| r in ps && q < r;
      assert p <= q ==> p < r;
    }
  }

  /** Below a requested path both trees have the same directories above. */
  lemma SameAbove(ps: seq<Path>, full: Tree, some: Tree, p: Path)
    requires Same(ps, full, some) && In(ps, p) && p != [] && NoLinkAbove(full, Parent(p))
    ensures NoLinkAbove(some, Parent(p))
  {
    var r :| r in ps && Under(p, r);
    forall q | q in Ancestors(Parent(p)) && q in some
      ensures !some[q].Link?
    {
      AncestorIff(Parent(p), q);
      assert q < p && (q < r || r <= q);
      if !In(ps, q) { assert AboveThem(ps, q); }
    }
  }

  /** What a write puts at `p`. */
  function Placed(t: Tree, p: Path, kind: Kind): Node
    requires p != [] && (kind.HardMember? ==> MemberPath(kind.source).Some? && MemberPath(kind.source).value in Clear(MadeDirs(t, Parent(p)), p))
  {
    match kind
    case FileMember(data) => File(data)
    case LinkMember(target) => Link(target)
    case HardMember(name) => Clear(MadeDirs(t, Parent(p)), p)[MemberPath(name).value]
    case _ => Dir
  }

  predicate Linkable(t: Tree, p: Path, kind: Kind)
    requires p != []
  {
    kind.HardMember? ==>
      && MemberPath(kind.source).Some? && MemberPath(kind.source).value in Clear(MadeDirs(t, Parent(p)), p)
      && Clear(MadeDirs(t, Parent(p)), p)[MemberPath(kind.source).value] != Dir
  }

  /** When a write succeeds, and what it writes. */
  lemma WriteIs(t: Tree, p: Path, kind: Kind, keep: Keep)
    requires WellFormed(t) && p != [] && !kind.Device? && NoLinkAbove(t, Parent(p))
    requires keep.Only? && kind.HardMember? && MemberPath(kind.source).Some? ==> Kept(keep, MemberPath(kind.source).value)
    ensures Write(t, p, kind, keep).Ok? <==> Linkable(t, p, kind)
    ensures Write(t, p, kind, keep).Ok? ==>
      Written(t, p, kind, Write(t, p, kind, keep).tree) && p in Write(t, p, kind, keep).tree
      && Write(t, p, kind, keep).tree[p] == Placed(t, p, kind)
  {
    RealDirMakes(t, Parent(p), 0);
    MadeDirsWellFormed(t, Parent(p));
    var m := MadeDirs(t, Parent(p));
    RealDirFinds(m, p, 0);
    if kind.HardMember? && MemberPath(kind.source).Some? && MemberPath(kind.source).value != [] {
      ClearWellFormed(m, p);
      RealDirFinds(Clear(m, p), Parent(MemberPath(kind.source).value), 0);
    }
  }

  lemma SameSource(ps: seq<Path>, full: Tree, some: Tree, p: Path, s: Path)
    requires Same(ps, full, some) && p != [] && In(ps, p) && In(ps, s)
    ensures var a, b := Clear(MadeDirs(full, Parent(p)), p), Clear(MadeDirs(some, Parent(p)), p);
            (s in a <==> s in b) && (s in a ==> a[s] == b[s])
  {
  }

  /** A member under a requested path is written alike in both. */
  lemma InsideSame(ps: seq<Path>, full: Tree, some: Tree, p: Path, kind: Kind)
    requires Same(ps, full, some) && p != [] && In(ps, p) && Write(full, p, kind, All).Ok?
    requires kind.HardMember? && MemberPath(kind.source).Some? ==> In(ps, MemberPath(kind.source).value)
    ensures Write(some, p, kind, Only(ps)).Ok?
    ensures Same(ps, Write(full, p, kind, All).tree, Write(some, p, kind, Only(ps)).tree)
  {
    if !kind.Device? {
      RealDirUnlinked(full, Parent(p), 0);
      SameAbove(ps, full, some, p);
      WriteIs(full, p, kind, All);
      if kind.HardMember? && MemberPath(kind.source).Some? {
        SameSource(ps, full, some, p, MemberPath(kind.source).value);
      }
      WriteIs(some, p, kind, Only(ps));
      WriteWellFormed(full, p, kind, All);
      WriteWellFormed(some, p, kind, Only(ps));
      BothWritten(ps, full, some, p, kind, Write(full, p, kind, All).tree, Write(some, p, kind, Only(ps)).tree);
    }
  }

  lemma BothWritten(ps: seq<Path>, full: Tree, some: Tree, p: Path, kind: Kind, full': Tree, some': Tree)
    requires Same(ps, full, some) && p != [] && In(ps, p)
    requires Written(full, p, kind, full') && Written(some, p, kind, some') && WellFormed(full') && WellFormed(some')
    requires p in full' && p in some' && full'[p] == some'[p]
    ensures Same(ps, full', some')
  {
    forall q: Path
      ensures In(ps, q) ==> (q in full' <==> q in some') && (q in full' ==> full'[q] == some'[q])
      ensures AboveThem(ps, q) ==> (q in full' ==> full'[q] == Dir) && (q in some' ==> some'[q] == Dir)
    {
      WrittenElsewhere(full, p, kind, full', q);
      WrittenElsewhere(some, p, kind, some', q);
      if q != p && Under(q, p) {
        WrittenBeneath(full, p, kind, full', q);
        WrittenBeneath(some, p, kind, some', q);
        UnderIn(ps, p, q);
      }
    }
  }

  lemma UnderIn(ps: seq<Path>, p: Path, q: Path)
    requires In(ps, p) && Under(q, p)
    ensures In(ps, q)
  {
    var r :| r in ps && Under(p, r);
    assert Under(q, r);
  }

  // --- whole layers ---------------------------------------------------------------------

  lemma {:induction false} WhiteoutsSame(ps: seq<Path>, full: Tree, some: Tree, layer: seq<Member>)
    requires Same(ps, full, some) && Whiteouts(full, layer).Ok? && forall m :: m in layer ==> OrdinaryWhiteout(m.name)
    ensures Whiteouts(some, layer).Ok? && Same(ps, Whiteouts(full, layer).tree, Whiteouts(some, layer).tree)
  {
    if layer != [] {
      var n := |layer| - 1;
      WhiteoutsSame(ps, full, some, layer[..n]);
      WhiteoutSame(ps, Whiteouts(full, layer[..n]).tree, Whiteouts(some, layer[..n]).tree, layer[n].name);
    }
  }

  lemma {:induction false} PlacesSame(ps: seq<Path>, full: Tree, some: Tree, layer: seq<Member>)
    requires Same(ps, full, some) && Places(full, layer, All).Ok? && forall m :: m in layer ==> Projects(ps, m)
    ensures Places(some, layer, Only(ps)).Ok? && Same(ps, Places(full, layer, All).tree, Places(some, layer, Only(ps)).tree)
  {
    if layer != [] {
      var n := |layer| - 1;
      PlacesSame(ps, full, some, layer[..n]);
      PlaceSame(ps, Places(full, layer[..n], All).tree, Places(some, layer[..n], Only(ps)).tree, layer[n]);
    }
  }

  lemma PlaceSame(ps: seq<Path>, full: Tree, some: Tree, m: Member)
    requires Same(ps, full, some) && Place(full, m, All).Ok? && Projects(ps, m)
    ensures Place(some, m, Only(ps)).Ok? && Same(ps, Place(full, m, All).tree, Place(some, m, Only(ps)).tree)
  {
    var p := MemberPath(m.name).value;
    if p != [] && !(WHITEOUT <= Leaf(p)) {
      KeptIn(ps, p);
      if In(ps, p) { InsideSame(ps, full, some, p, m.kind); } else { OutsideSame(ps, full, some, p, m.kind); }
    }
  }

  function ApplyLayers(layers: seq<seq<Member>>, keep: Keep): Result {
    if layers == [] then Ok(map[])
    else
      match ApplyLayers(layers[..|layers| - 1], keep)
      case Ok(t) => ApplyLayer(t, layers[|layers| - 1], keep)
      case Err => Err
  }

  predicate AllProject(ps: seq<Path>, layers: seq<seq<Member>>) {
    forall layer, m :: layer in layers && m in layer ==> Projects(ps, m) && OrdinaryWhiteout(m.name)
  }

  /** An image whose every member applies, applied through the requested paths:
      under them the same tree, above them directories alone. */
  lemma {:induction false} ProjectionIsRestriction(ps: seq<Path>, layers: seq<seq<Member>>)
    requires AllProject(ps, layers) && ApplyLayers(layers, All).Ok?
    ensures ApplyLayers(layers, Only(ps)).Ok?
    ensures Same(ps, ApplyLayers(layers, All).tree, ApplyLayers(layers, Only(ps)).tree)
  {
    if layers != [] {
      var n := |layers| - 1;
      assert layers[n] in layers && forall l :: l in layers[..n] ==> l in layers;
      ProjectionIsRestriction(ps, layers[..n]);
      var full, some := ApplyLayers(layers[..n], All).tree, ApplyLayers(layers[..n], Only(ps)).tree;
      WhiteoutsSame(ps, full, some, layers[n]);
      PlacesSame(ps, Whiteouts(full, layers[n]).tree, Whiteouts(some, layers[n]).tree, layers[n]);
    }
  }
}
