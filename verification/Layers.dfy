/** Image layers of `fetch_release.py`: one layer applied to a tree, whiteouts
    first, then the members under the requested paths. */
module Layers {
  import opened Strings

  type Path = seq<string>

  datatype Node = Dir | File(data: string) | Link(target: string)

  /** A tree below its root; the root itself is a directory and is never a key. */
  type Tree = map<Path, Node>

  /** Every entry's parent is a real directory. */
  predicate WellFormed(t: Tree) {
    forall p | p in t :: p != [] && IsDir(t, Parent(p))
  }

  predicate IsDir(t: Tree, p: Path) { p == [] || (p in t && t[p] == Dir) }

  function Parent(p: Path): Path
    requires p != []
  {
    p[..|p| - 1]
  }

  function Leaf(p: Path): string
    requires p != []
  {
    p[|p| - 1]
  }

  /** `q` is `p` or beneath it. */
  predicate Under(q: Path, p: Path) { p <= q }

  // --- names ---------------------------------------------------------------------

  const WHITEOUT := ".wh."
  const OPAQUE := ".wh..wh..opq"

  function Parts(parts: seq<string>): Path {
    if parts == [] then []
    else (if parts[0] == "" || parts[0] == "." then [] else [parts[0]]) + Parts(parts[1..])
  }

  /** A member's path, or None when the image is refused for its name. */
  function MemberPath(name: string): Option<Path> {
    var path := Parts(Split(name, '/'));
    if "/" <= name || ".." in path then None else Some(path)
  }

  predicate IsWhiteout(leaf: string) {
    WHITEOUT <= leaf && !(WHITEOUT + WHITEOUT <= leaf) && |leaf| > |WHITEOUT|
  }

  // --- the tree's operations -------------------------------------------------------

  /** Remove an entry and all beneath it. */
  function Clear(t: Tree, p: Path): Tree {
    map q | q in t && !Under(q, p) :: t[q]
  }

  datatype Walked = Found(tree: Tree) | Absent | Refused

  /** Walk `rel` through real directories from its first `i` components on; with
      `create`, missing ones are made, files replaced, and a symlink refused. */
  function RealDir(t: Tree, rel: Path, i: nat, create: bool): Walked
    requires i <= |rel|
    decreases |rel| - i
  {
    if i == |rel| then Found(t)
    else
      var here := rel[..i + 1];
      if here in t && t[here] == Dir then RealDir(t, rel, i + 1, create)
      else if !create then Absent
      else if here in t && t[here].Link? then Refused
      else RealDir(t[here := Dir], rel, i + 1, create)
  }

  function Remove(t: Tree, p: Path): Tree
    requires p != []
  {
    if RealDir(t, Parent(p), 0, false).Found? then Clear(t, p) else t
  }

  /** Remove a directory and all beneath it. */
  function ClearDir(t: Tree, p: Path): Tree {
    if RealDir(t, p, 0, false).Found? then Clear(t, p) else t
  }

  /** Remove all beneath a directory. */
  function Empty(t: Tree, p: Path): Tree {
    if RealDir(t, p, 0, false).Found? then map q | q in t && (!Under(q, p) || q == p) :: t[q] else t
  }

  datatype Kind = DirMember | FileMember(data: string) | LinkMember(target: string) | HardMember(source: string) | Device

  datatype Member = Member(name: string, kind: Kind)

  datatype Result = Ok(tree: Tree) | Err

  /** Which members a run keeps: those under the requested paths, or all. */
  datatype Keep = All | Only(prefixes: seq<Path>)

  predicate Kept(keep: Keep, p: Path) {
    keep.All? || exists q :: q in keep.prefixes && Under(p, q)
  }

  function Write(t: Tree, p: Path, kind: Kind, keep: Keep): Result
    requires p != []
  {
    if kind.Device? then Ok(t)
    else
      match RealDir(t, Parent(p), 0, true)
      case Found(t1) =>
        (match kind
         case DirMember => Ok(if RealDir(t1, p, 0, false).Found? then t1 else Clear(t1, p)[p := Dir])
         case FileMember(data) => Ok(Clear(t1, p)[p := File(data)])
         case LinkMember(target) => Ok(Clear(t1, p)[p := Link(target)])
         case HardMember(name) => HardLink(Clear(t1, p), p, MemberPath(name), keep)
         case Device => Ok(t))
      case _ => Err
  }

  /** The target has been cleared; the source has to be kept, there, and no directory. */
  function HardLink(t: Tree, p: Path, source: Option<Path>, keep: Keep): Result {
    if source == None || !Kept(keep, source.value) || source.value == [] then Err
    else
      var src := source.value;
      if !RealDir(t, Parent(src), 0, false).Found? || src !in t || t[src] == Dir then Err
      else Ok(t[p := t[src]])
  }

  /** The first pass: one member's whiteout. */
  function Whiteout(t: Tree, name: string): Result {
    match MemberPath(name)
    case None => Err
    case Some(p) =>
      if p == [] then Ok(t)
      else if Leaf(p) == OPAQUE then Ok(Empty(t, Parent(p)))
      else if !IsWhiteout(Leaf(p)) then Ok(t)
      else RemoveNamed(t, Parent(p), Leaf(p)[|WHITEOUT|..])
  }

  /** "." is the directory itself; ".." is emptied, and removing it then fails the run. */
  function RemoveNamed(t: Tree, parent: Path, name: string): Result {
    if name == "." then Ok(ClearDir(t, parent))
    else if name != ".." then Ok(Remove(t, parent + [name]))
    else if RealDir(t, parent, 0, false).Found? then Err
    else Ok(t)
  }

  /** The second pass: one member written, when it is one to keep. */
  function Place(t: Tree, m: Member, keep: Keep): Result {
    match MemberPath(m.name)
    case None => Err
    case Some(p) =>
      if p != [] && !(WHITEOUT <= Leaf(p)) && Kept(keep, p) then Write(t, p, m.kind, keep) else Ok(t)
  }

  function Whiteouts(t: Tree, layer: seq<Member>): Result {
    if layer == [] then Ok(t)
    else
      match Whiteouts(t, layer[..|layer| - 1])
      case Ok(t1) => Whiteout(t1, layer[|layer| - 1].name)
      case Err => Err
  }

  function Places(t: Tree, layer: seq<Member>, keep: Keep): Result {
    if layer == [] then Ok(t)
    else
      match Places(t, layer[..|layer| - 1], keep)
      case Ok(t1) => Place(t1, layer[|layer| - 1], keep)
      case Err => Err
  }

  function ApplyLayer(t: Tree, layer: seq<Member>, keep: Keep): Result {
    match Whiteouts(t, layer)
    case Ok(t1) => Places(t1, layer, keep)
    case Err => Err
  }

  // --- every tree on the way is well formed --------------------------------------

  function Ancestors(rel: Path): set<Path> { set i | 0 < i <= |rel| :: rel[..i] }

  lemma AncestorIff(rel: Path, q: Path)
    ensures q in Ancestors(rel) <==> q != [] && q <= rel
  {
    if q != [] && q <= rel { assert q == rel[..|q|]; }
  }

  /** All directories down to `rel` made. */
  function MadeDirs(t: Tree, rel: Path): Tree {
    map q | q in t.Keys + Ancestors(rel) :: if q in Ancestors(rel) then Dir else t[q]
  }

  predicate NoLinkAbove(t: Tree, rel: Path) {
    forall q :: q in Ancestors(rel) && q in t ==> !t[q].Link?
  }

  lemma {:induction false} RealDirFinds(t: Tree, rel: Path, i: nat)
    requires WellFormed(t) && i <= |rel|
    requires IsDir(t, rel[..i])
    ensures RealDir(t, rel, i, false) == if IsDir(t, rel) then Found(t) else Absent
    decreases |rel| - i
  {
    if i == |rel| {
      assert rel[..i] == rel;
    } else if IsDir(t, rel[..i + 1]) {
      RealDirFinds(t, rel, i + 1);
    } else {
      NotBelow(t, rel, i + 1);
    }
  }

  /** Nothing is below what is no directory. */
  lemma {:induction false} NotBelow(t: Tree, rel: Path, i: nat)
    requires WellFormed(t) && 0 < i <= |rel| && !IsDir(t, rel[..i])
    ensures !IsDir(t, rel) && (i < |rel| ==> rel !in t)
    decreases |rel|
  {
    if i < |rel| {
      assert Parent(rel)[..i] == rel[..i];
      NotBelow(t, Parent(rel), i);
    } else {
      assert rel[..i] == rel;
    }
  }

  lemma {:induction false} RealDirMakes(t: Tree, rel: Path, i: nat)
    requires i <= |rel| && NoLinkAbove(t, rel)
    requires forall j :: 0 < j <= i ==> IsDir(t, rel[..j])
    ensures RealDir(t, rel, i, true) == Found(MadeDirs(t, rel))
    decreases |rel| - i
  {
    if i == |rel| {
      assert MadeDirs(t, rel) == t;
    } else {
      var here := rel[..i + 1];
      assert here in Ancestors(rel);
      var t1 := t[here := Dir];
      assert MadeDirs(t1, rel) == MadeDirs(t, rel);
      if here in t && t[here] == Dir { assert t1 == t; }
      RealDirMakes(t1, rel, i + 1);
    }
  }

  /** A walk that is not refused met no symlink. */
  lemma {:induction false} RealDirUnlinked(t: Tree, rel: Path, i: nat)
    requires i <= |rel| && RealDir(t, rel, i, true).Found?
    requires forall j :: 0 < j <= i ==> IsDir(t, rel[..j])
    ensures NoLinkAbove(t, rel)
    decreases |rel| - i
  {
    if i < |rel| {
      var here := rel[..i + 1];
      var t1 := if here in t && t[here] == Dir then t else t[here := Dir];
      RealDirUnlinked(t1, rel, i + 1);
      forall q | q in Ancestors(rel) && q in t
        ensures !t[q].Link?
      {
        if q != here { assert t1[q] == t[q]; }
      }
    }
  }

  lemma MadeDirsWellFormed(t: Tree, rel: Path)
    requires WellFormed(t) && NoLinkAbove(t, rel)
    ensures WellFormed(MadeDirs(t, rel)) && IsDir(MadeDirs(t, rel), rel)
  {
    var m := MadeDirs(t, rel);
    AncestorIff(rel, rel);
    forall p | p in m
      ensures p != [] && IsDir(m, Parent(p))
    {
      AncestorIff(rel, p);
      if p != [] {
        AncestorIff(rel, Parent(p));
        if p in Ancestors(rel) { assert Parent(p) <= rel; }
      }
    }
  }

  lemma ClearWellFormed(t: Tree, p: Path)
    requires WellFormed(t)
    ensures WellFormed(Clear(t, p))
  {
    var c := Clear(t, p);
    forall q | q in c
      ensures q != [] && IsDir(c, Parent(q))
    {
      assert q in t && (Under(Parent(q), p) ==> p <= q);
    }
  }

  lemma EmptyWellFormed(t: Tree, p: Path)
    requires WellFormed(t)
    ensures WellFormed(Empty(t, p))
  {
    RealDirFinds(t, p, 0);
    var c := Empty(t, p);
    if IsDir(t, p) {
      forall q | q in c
        ensures q != [] && IsDir(c, Parent(q))
      {
        assert q in t && (Under(Parent(q), p) ==> p <= q);
      }
    }
  }

  /** In a well-formed tree only an entry that is no directory stays. */
  lemma ClearDirIs(t: Tree, p: Path)
    requires WellFormed(t)
    ensures ClearDir(t, p) == map q | q in t && !(Under(q, p) && (q == p ==> t[q] == Dir)) :: t[q]
    ensures WellFormed(ClearDir(t, p))
  {
    RealDirFinds(t, p, 0);
    ClearWellFormed(t, p);
    if !IsDir(t, p) {
      forall q | q in t && Under(q, p) && q != p ensures false {
        assert q[..|p|] == p;
        NotBelow(t, q, |p|);
      }
      assert (map q | q in t && !(Under(q, p) && (q == p ==> t[q] == Dir)) :: t[q]) == t;
    }
  }

  /** Adding an entry under a directory, nothing being beneath it. */
  lemma AddWellFormed(t: Tree, p: Path, node: Node)
    requires WellFormed(t) && p != [] && IsDir(t, Parent(p))
    requires node == Dir || forall q :: q in t ==> !(Under(q, p) && q != p)
    ensures WellFormed(t[p := node])
  {
    var a := t[p := node];
    forall q | q in a
      ensures q != [] && IsDir(a, Parent(q))
    {
      if Parent(q) == p { assert p <= q; }
    }
  }

  /** Every operation keeps each entry's parent a real directory, whatever the member. */
  lemma WriteWellFormed(t: Tree, p: Path, kind: Kind, keep: Keep)
    requires WellFormed(t) && p != [] && Write(t, p, kind, keep).Ok?
    ensures WellFormed(Write(t, p, kind, keep).tree)
  {
    if !kind.Device? {
      RealDirUnlinked(t, Parent(p), 0);
      RealDirMakes(t, Parent(p), 0);
      var t1 := MadeDirs(t, Parent(p));
      MadeDirsWellFormed(t, Parent(p));
      RealDirFinds(t1, p, 0);
      ClearWellFormed(t1, p);
      var c := Clear(t1, p);
      assert IsDir(c, Parent(p));
      match kind
      case DirMember => AddWellFormed(c, p, Dir);
      case FileMember(data) => AddWellFormed(c, p, File(data));
      case LinkMember(target) => AddWellFormed(c, p, Link(target));
      case HardMember(name) =>
        AddWellFormed(c, p, c[MemberPath(name).value]);
      case Device =>
    }
  }

  lemma RemoveWellFormed(t: Tree, parent: Path, name: string)
    requires WellFormed(t) && RemoveNamed(t, parent, name).Ok?
    ensures WellFormed(RemoveNamed(t, parent, name).tree)
  {
    ClearDirIs(t, parent);
    ClearWellFormed(t, parent + [name]);
  }

  lemma WhiteoutWellFormed(t: Tree, name: string)
    requires WellFormed(t) && Whiteout(t, name).Ok?
    ensures WellFormed(Whiteout(t, name).tree)
  {
    var p := MemberPath(name).value;
    if p != [] && Leaf(p) == OPAQUE {
      EmptyWellFormed(t, Parent(p));
    } else if p != [] && IsWhiteout(Leaf(p)) {
      RemoveWellFormed(t, Parent(p), Leaf(p)[|WHITEOUT|..]);
    }
  }

  lemma {:induction false} WhiteoutsWellFormed(t: Tree, layer: seq<Member>)
    requires WellFormed(t) && Whiteouts(t, layer).Ok?
    ensures WellFormed(Whiteouts(t, layer).tree)
  {
    if layer != [] {
      var n := |layer| - 1;
      WhiteoutsWellFormed(t, layer[..n]);
      WhiteoutWellFormed(Whiteouts(t, layer[..n]).tree, layer[n].name);
    }
  }

  lemma {:induction false} PlacesWellFormed(t: Tree, layer: seq<Member>, keep: Keep)
    requires WellFormed(t) && Places(t, layer, keep).Ok?
    ensures WellFormed(Places(t, layer, keep).tree)
  {
    if layer != [] {
      var n := |layer| - 1;
      PlacesWellFormed(t, layer[..n], keep);
      var t1, m := Places(t, layer[..n], keep).tree, layer[n];
      var p := MemberPath(m.name).value;
      if p != [] && !(WHITEOUT <= Leaf(p)) && Kept(keep, p) { WriteWellFormed(t1, p, m.kind, keep); }
    }
  }

  /** Every tree on the way through a layer is well formed: after any number of its
      whiteouts, and after any number of its members. */
  lemma LayerWellFormed(t: Tree, layer: seq<Member>, keep: Keep, i: nat, j: nat)
    requires WellFormed(t) && i <= |layer| && j <= |layer|
    ensures Whiteouts(t, layer[..i]).Ok? ==> WellFormed(Whiteouts(t, layer[..i]).tree)
    ensures Whiteouts(t, layer).Ok? && Places(Whiteouts(t, layer).tree, layer[..j], keep).Ok? ==>
      WellFormed(Places(Whiteouts(t, layer).tree, layer[..j], keep).tree)
  {
    if Whiteouts(t, layer[..i]).Ok? { WhiteoutsWellFormed(t, layer[..i]); }
    if Whiteouts(t, layer).Ok? {
      WhiteoutsWellFormed(t, layer);
      if Places(Whiteouts(t, layer).tree, layer[..j], keep).Ok? {
        PlacesWellFormed(Whiteouts(t, layer).tree, layer[..j], keep);
      }
    }
  }
}
