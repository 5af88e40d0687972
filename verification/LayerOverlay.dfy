/** What applying a layer amounts to, whatever the order its members come in: the
    lower tree without what the layer whites out, overlaid with its members. */
module LayerOverlay {
  import opened Strings
  import opened Layers

  // --- the whiteouts ---------------------------------------------------------------

  /** What a layer names to be removed: entries, and directories to be emptied. */
  predicate WhitesOut(layer: seq<Member>, p: Path, node: Node) {
    exists m :: m in layer && NamesWhiteout(m.name, p, node)
  }

  predicate NamesWhiteout(name: string, p: Path, node: Node) {
    match MemberPath(name)
    case Some(w) =>
      w != [] && (
        if Leaf(w) == OPAQUE then Under(p, Parent(w)) && p != Parent(w)
        else IsWhiteout(Leaf(w)) && NamesEntry(Parent(w), Leaf(w)[|WHITEOUT|..], p, node))
    case None => false
  }

  /** "." names its directory, if that is one, and any other name the entry. */
  predicate NamesEntry(parent: Path, name: string, p: Path, node: Node) {
    if name == "." then Under(p, parent) && (p == parent ==> node == Dir) else Under(p, parent + [name])
  }

  /** Names inside the image, and no whiteout of "..". */
  predicate PlainNames(layer: seq<Member>) {
    forall m :: m in layer ==> PlainName(m.name)
  }

  predicate PlainName(name: string) {
    match MemberPath(name)
    case Some(w) => w != [] && IsWhiteout(Leaf(w)) ==> Leaf(w)[|WHITEOUT|..] != ".."
    case None => false
  }

  function Lower(t: Tree, layer: seq<Member>): Tree {
    map p | p in t && !WhitesOut(layer, p, t[p]) :: t[p]
  }

  /** The tree without what one member whites out. */
  function Without(t: Tree, name: string): Tree {
    map p | p in t && !NamesWhiteout(name, p, t[p]) :: t[p]
  }

  lemma WhiteoutIs(t: Tree, name: string)
    requires WellFormed(t) && PlainName(name)
    ensures Whiteout(t, name) == Ok(Without(t, name))
  {
    var w := MemberPath(name).value;
    if w != [] && Leaf(w) == OPAQUE {
      OpaqueIs(t, name, w);
    } else if w != [] && IsWhiteout(Leaf(w)) {
      var leaf := Leaf(w)[|WHITEOUT|..];
      if leaf == "." { SelfIs(t, name, w); } else { NamedIs(t, name, w, leaf); }
    } else {
      assert Without(t, name) == t;
    }
  }

  lemma OpaqueIs(t: Tree, name: string, w: Path)
    requires WellFormed(t) && MemberPath(name) == Some(w) && w != [] && Leaf(w) == OPAQUE
    ensures Empty(t, Parent(w)) == Without(t, name)
  {
    RealDirFinds(t, Parent(w), 0);
    NothingBelow(t, Parent(w));
  }

  lemma NamedIs(t: Tree, name: string, w: Path, leaf: string)
    requires WellFormed(t) && MemberPath(name) == Some(w) && w != [] && Leaf(w) != OPAQUE && IsWhiteout(Leaf(w))
    requires leaf == Leaf(w)[|WHITEOUT|..] && leaf != "."
    ensures Remove(t, Parent(w) + [leaf]) == Without(t, name)
  {
    var x := Parent(w) + [leaf];
    assert Parent(x) == Parent(w);
    RealDirFinds(t, Parent(w), 0);
    NothingBelow(t, Parent(w));
  }

  lemma SelfIs(t: Tree, name: string, w: Path)
    requires WellFormed(t) && MemberPath(name) == Some(w) && w != [] && Leaf(w) != OPAQUE && IsWhiteout(Leaf(w))
    requires Leaf(w)[|WHITEOUT|..] == "."
    ensures ClearDir(t, Parent(w)) == Without(t, name)
  {
    ClearDirIs(t, Parent(w));
  }

  /** Only a directory has anything beneath it. */
  lemma NothingBelow(t: Tree, d: Path)
    requires WellFormed(t)
    ensures !IsDir(t, d) ==> forall q :: q in t && Under(q, d) ==> q == d
  {
    forall q | q in t && Under(q, d) && q != d && !IsDir(t, d)
      ensures false
    {
      assert q[..|d|] == d;
      NotBelow(t, q, |d|);
    }
  }

  /** The first pass removes exactly what the layer whites out, in any order. */
  lemma {:induction false} WhiteoutsAre(t: Tree, layer: seq<Member>)
    requires WellFormed(t) && PlainNames(layer)
    ensures Whiteouts(t, layer) == Ok(Lower(t, layer))
  {
    if layer == [] {
      assert Lower(t, layer) == t;
    } else {
      var n := |layer| - 1;
      WhiteoutsAre(t, layer[..n]);
      WhiteoutsWellFormed(t, layer[..n]);
      var t1 := Lower(t, layer[..n]);
      WhiteoutIs(t1, layer[n].name);
      LowerStep(t, layer);
    }
  }

  lemma LowerStep(t: Tree, layer: seq<Member>)
    requires layer != []
    ensures var n := |layer| - 1;
            var t1 := Lower(t, layer[..n]);
            Lower(t, layer) == map p | p in t1 && !NamesWhiteout(layer[n].name, p, t1[p]) :: t1[p]
  {
    var n := |layer| - 1;
    assert layer == layer[..n] + [layer[n]];
    forall p, node
      ensures WhitesOut(layer, p, node) <==> WhitesOut(layer[..n], p, node) || NamesWhiteout(layer[n].name, p, node)
    {
      assert forall m :: m in layer <==> m in layer[..n] || m == layer[n];
    }
  }

  // --- the members --------------------------------------------------------------------

  /** The members a layer adds: path to node. */
  type Adds = map<Path, Node>

  predicate Places_(m: Member, keep: Keep) {
    match MemberPath(m.name)
    case Some(p) => p != [] && !(WHITEOUT <= Leaf(p)) && Kept(keep, p) && !m.kind.Device?
    case None => false
  }

  function PathOf(m: Member): Path
    requires MemberPath(m.name).Some?
  {
    MemberPath(m.name).value
  }

  function NodeOf(kind: Kind): Node {
    match kind
    case FileMember(data) => File(data)
    case LinkMember(target) => Link(target)
    case _ => Dir
  }

  function Adding(layer: seq<Member>, keep: Keep): Adds {
    if layer == [] then map[]
    else
      var n := |layer| - 1;
      var adds := Adding(layer[..n], keep);
      if Places_(layer[n], keep) then adds[PathOf(layer[n]) := NodeOf(layer[n].kind)] else adds
  }

  predicate Above(adds: Adds, p: Path) { exists m :: m in adds && p < m }

  /** A member that is no directory stands at or above `p`. */
  predicate Shadowed(adds: Adds, p: Path) { exists m :: m in adds && adds[m] != Dir && m <= p }

  predicate Overlaid(t: Tree, adds: Adds, p: Path) {
    p != [] && (p in adds || Above(adds, p) || (p in t && !Shadowed(adds, p)))
  }

  function At(t: Tree, adds: Adds, p: Path): Node
    requires Overlaid(t, adds, p)
  {
    if p in adds then adds[p] else if Above(adds, p) then Dir else t[p]
  }

  /** `u` is `t` overlaid with `adds`: members win, what is above a member is a
      directory, and what is beneath a member that is none is gone. */
  ghost predicate IsOverlay(u: Tree, t: Tree, adds: Adds) {
    forall p :: (p in u <==> Overlaid(t, adds, p)) && (p in u ==> u[p] == At(t, adds, p))
  }

  /** A layer the OCI image format describes: each path once, nothing beneath a
      member that is no directory, no hard links; and no symlink of the lower tree
      above a member. */
  predicate Distinct(layer: seq<Member>, keep: Keep) {
    forall i, j :: 0 <= i < j < |layer| && Places_(layer[i], keep) && Places_(layer[j], keep) ==>
      PathOf(layer[i]) != PathOf(layer[j])
  }

  predicate Plain(t: Tree, layer: seq<Member>, keep: Keep) {
    && PlainNames(layer) && Distinct(layer, keep)
    && (forall m :: m in layer && Places_(m, keep) ==> !m.kind.HardMember?)
    && (forall m, m' :: m in layer && m' in layer && Places_(m, keep) && Places_(m', keep) && m.kind != DirMember ==>
          !(PathOf(m) < PathOf(m')))
    && (forall m, q :: m in layer && Places_(m, keep) && q in t && q < PathOf(m) ==> !t[q].Link?)
  }

  /** The adds are the placed members, whatever their order. */
  lemma {:induction false} AddingHas(layer: seq<Member>, keep: Keep, i: nat)
    requires Distinct(layer, keep) && i < |layer| && Places_(layer[i], keep)
    ensures PathOf(layer[i]) in Adding(layer, keep) && Adding(layer, keep)[PathOf(layer[i])] == NodeOf(layer[i].kind)
    decreases |layer|
  {
    var n := |layer| - 1;
    if i < n {
      DistinctPrefix(layer, keep);
      assert layer[..n][i] == layer[i];
      AddingHas(layer[..n], keep, i);
      LastIsAnother(layer, keep, i);
      AddingKeeps(layer, keep, PathOf(layer[i]));
    } else {
      AddingLast(layer, keep);
    }
  }

  lemma AddingLast(layer: seq<Member>, keep: Keep)
    requires layer != [] && Places_(layer[|layer| - 1], keep)
    ensures var m := layer[|layer| - 1];
            PathOf(m) in Adding(layer, keep) && Adding(layer, keep)[PathOf(m)] == NodeOf(m.kind)
  {
  }

  lemma LastIsAnother(layer: seq<Member>, keep: Keep, i: nat)
    requires Distinct(layer, keep) && i < |layer| - 1 && Places_(layer[i], keep)
    ensures Places_(layer[|layer| - 1], keep) ==> PathOf(layer[|layer| - 1]) != PathOf(layer[i])
  {
  }

  lemma AddingKeeps(layer: seq<Member>, keep: Keep, p: Path)
    requires layer != [] && p in Adding(layer[..|layer| - 1], keep)
    requires Places_(layer[|layer| - 1], keep) ==> PathOf(layer[|layer| - 1]) != p
    ensures p in Adding(layer, keep) && Adding(layer, keep)[p] == Adding(layer[..|layer| - 1], keep)[p]
  {
  }

  lemma DistinctPrefix(layer: seq<Member>, keep: Keep)
    requires Distinct(layer, keep) && layer != []
    ensures Distinct(layer[..|layer| - 1], keep)
  {
    var front := layer[..|layer| - 1];
    assert forall i :: 0 <= i < |front| ==> front[i] == layer[i];
  }

  lemma {:induction false} AddingFrom(layer: seq<Member>, keep: Keep, p: Path) returns (i: nat)
    requires p in Adding(layer, keep)
    ensures i < |layer| && Places_(layer[i], keep) && PathOf(layer[i]) == p && Adding(layer, keep)[p] == NodeOf(layer[i].kind)
  {
    var n := |layer| - 1;
    if Places_(layer[n], keep) && PathOf(layer[n]) == p {
      i := n;
    } else {
      i := AddingFrom(layer[..n], keep, p);
      assert layer[..n][i] == layer[i];
    }
  }

  /** Writing one more member to an overlay gives the overlay with that member. */
  lemma OverlayStep(u: Tree, t: Tree, adds: Adds, p: Path, kind: Kind, keep: Keep)
    requires WellFormed(u) && IsOverlay(u, t, adds) && Fits(adds, p, NodeOf(kind))
    requires !kind.HardMember? && !kind.Device?
    requires forall q :: q in t && q < p ==> !t[q].Link?
    ensures Write(u, p, kind, keep).Ok? && IsOverlay(Write(u, p, kind, keep).tree, t, adds[p := NodeOf(kind)])
  {
    var node, more := NodeOf(kind), adds[p := NodeOf(kind)];
    NoLinksAbove(u, t, adds, p, node);
    var out := WriteIs(u, p, kind, keep);
    forall q
      ensures (q in out <==> Overlaid(t, more, q)) && (q in out ==> out[q] == At(t, more, q))
    {
      AncestorIff(Parent(p), q);
      MoreStep(adds, p, node, q);
      OverlayPoint(u, t, adds, p, node, out, q);
    }
  }

  lemma NoLinksAbove(u: Tree, t: Tree, adds: Adds, p: Path, node: Node)
    requires IsOverlay(u, t, adds) && Fits(adds, p, node)
    requires forall q :: q in t && q < p ==> !t[q].Link?
    ensures NoLinkAbove(u, Parent(p))
  {
    forall q | q in Ancestors(Parent(p)) && q in u
      ensures !u[q].Link?
    {
      AncestorIff(Parent(p), q);
      assert q < p && Overlaid(t, adds, q);
    }
  }

  lemma WriteIs(u: Tree, p: Path, kind: Kind, keep: Keep) returns (out: Tree)
    requires WellFormed(u) && p != [] && NoLinkAbove(u, Parent(p)) && !kind.HardMember? && !kind.Device?
    ensures Write(u, p, kind, keep) == Ok(out) && Replaces(u, out, p, NodeOf(kind))
  {
    RealDirMakes(u, Parent(p), 0);
    MadeDirsWellFormed(u, Parent(p));
    var m := MadeDirs(u, Parent(p));
    RealDirFinds(m, p, 0);
    out := if NodeOf(kind) == Dir && IsDir(m, p) then m else Clear(m, p)[p := NodeOf(kind)];
  }

  lemma MoreStep(adds: Adds, p: Path, node: Node, q: Path)
    requires p !in adds
    ensures Above(adds[p := node], q) <==> Above(adds, q) || q < p
    ensures Shadowed(adds[p := node], q) <==> Shadowed(adds, q) || (node != Dir && p <= q)
  {
    var more := adds[p := node];
    if Above(adds, q) {
      var m :| m in adds && q < m;
      assert m in more;
    }
    if q < p { assert p in more; }
    if Shadowed(adds, q) {
      var m :| m in adds && adds[m] != Dir && m <= q;
      assert m in more && more[m] == adds[m];
    }
    if node != Dir && p <= q { assert p in more && more[p] == node; }
  }

  /** The overlay, path by path: `out` is `u` with the directories above `p` made,
      and the member in place of what was at and beneath `p`. */
  ghost predicate Replaces(u: Tree, out: Tree, p: Path, node: Node)
    requires p != []
  {
    var m := MadeDirs(u, Parent(p));
    out == if node == Dir && IsDir(m, p) then m else Clear(m, p)[p := node]
  }

  ghost predicate Fits(adds: Adds, p: Path, node: Node) {
    && p != [] && p !in adds
    && (forall q :: q in adds && adds[q] != Dir ==> !(q < p))
    && (node != Dir ==> forall q :: q in adds ==> !(p < q))
  }

  lemma OverlayPoint(u: Tree, t: Tree, adds: Adds, p: Path, node: Node, out: Tree, q: Path)
    requires WellFormed(u) && IsOverlay(u, t, adds) && Fits(adds, p, node) && Replaces(u, out, p, node)
    requires q in Ancestors(Parent(p)) <==> q != [] && q < p
    requires Above(adds[p := node], q) <==> Above(adds, q) || q < p
    requires Shadowed(adds[p := node], q) <==> Shadowed(adds, q) || (node != Dir && p <= q)
    ensures (q in out <==> Overlaid(t, adds[p := node], q)) && (q in out ==> out[q] == At(t, adds[p := node], q))
  {
    assert q in u <==> Overlaid(t, adds, q);
    if p < q {
      OverlayBelow(u, t, adds, p, node, out, q);
    } else if q == p || q < p {
      assert q == p || !Under(q, p);
    }
  }

  lemma OverlayBelow(u: Tree, t: Tree, adds: Adds, p: Path, node: Node, out: Tree, q: Path)
    requires WellFormed(u) && IsOverlay(u, t, adds) && Fits(adds, p, node) && Replaces(u, out, p, node)
    requires p < q && q !in Ancestors(Parent(p))
    requires Above(adds[p := node], q) <==> Above(adds, q)
    requires Shadowed(adds[p := node], q) <==> Shadowed(adds, q) || node != Dir
    ensures (q in out <==> Overlaid(t, adds[p := node], q)) && (q in out ==> out[q] == At(t, adds[p := node], q))
  {
    assert q in u <==> Overlaid(t, adds, q);
    AncestorIff(Parent(p), p);
    if node != Dir {
      assert forall m :: m in adds && q < m ==> p < m;
    } else if !IsDir(u, p) {
      NothingBelow(u, p);
    }
  }

  // --- a whole layer --------------------------------------------------------------------

  lemma PlainPrefix(t: Tree, layer: seq<Member>, keep: Keep)
    requires Plain(t, layer, keep) && layer != []
    ensures Plain(t, layer[..|layer| - 1], keep)
  {
    var front := layer[..|layer| - 1];
    assert forall m :: m in front ==> m in layer;
    assert forall i :: 0 <= i < |front| ==> front[i] == layer[i];
  }

  lemma LastFits(t: Tree, layer: seq<Member>, keep: Keep)
    requires Plain(t, layer, keep) && layer != [] && Places_(layer[|layer| - 1], keep)
    ensures var n := |layer| - 1; Fits(Adding(layer[..n], keep), PathOf(layer[n]), NodeOf(layer[n].kind))
  {
    var n := |layer| - 1;
    var front, m := layer[..n], layer[n];
    forall q | q in Adding(front, keep)
      ensures q != PathOf(m) && (Adding(front, keep)[q] != Dir ==> !(q < PathOf(m))) && (NodeOf(m.kind) != Dir ==> !(PathOf(m) < q))
    {
      var i := AddingFrom(front, keep, q);
      assert front[i] == layer[i] && layer[i] in layer && m in layer;
      assert NodeOf(layer[i].kind) != Dir ==> layer[i].kind != DirMember;
    }
  }

  lemma {:induction false} PlacesAre(t: Tree, layer: seq<Member>, keep: Keep)
    requires WellFormed(t) && Plain(t, layer, keep)
    ensures Places(t, layer, keep).Ok? && IsOverlay(Places(t, layer, keep).tree, t, Adding(layer, keep))
  {
    if layer != [] {
      var n := |layer| - 1;
      PlainPrefix(t, layer, keep);
      PlacesAre(t, layer[..n], keep);
      PlacesWellFormed(t, layer[..n], keep);
      assert PlainName(layer[n].name);
      if Places_(layer[n], keep) {
        LastFits(t, layer, keep);
        OverlayStep(Places(t, layer[..n], keep).tree, t, Adding(layer[..n], keep), PathOf(layer[n]), layer[n].kind, keep);
      }
    }
  }

  /** A plain layer applies, and gives the lower tree minus its whiteouts overlaid
      with its members. Neither pass depends on the order the members come in. */
  lemma LayerIsOverlay(t: Tree, layer: seq<Member>, keep: Keep)
    requires WellFormed(t) && PlainNames(layer) && Plain(Lower(t, layer), layer, keep)
    ensures ApplyLayer(t, layer, keep).Ok?
    ensures IsOverlay(ApplyLayer(t, layer, keep).tree, Lower(t, layer), Adding(layer, keep))
  {
    WhiteoutsAre(t, layer);
    WhiteoutsWellFormed(t, layer);
    PlacesAre(Lower(t, layer), layer, keep);
  }

  lemma SameMembers(t: Tree, layer: seq<Member>, other: seq<Member>)
    requires multiset(layer) == multiset(other)
    ensures forall m :: m in layer <==> m in other
    ensures Lower(t, other) == Lower(t, layer)
  {
    forall m ensures m in layer <==> m in other {
      assert m in layer <==> m in multiset(layer);
      assert m in other <==> m in multiset(other);
    }
    assert forall p, node :: WhitesOut(other, p, node) <==> WhitesOut(layer, p, node);
  }

  lemma StandsTwice(layer: seq<Member>, i: nat, j: nat)
    requires i < j < |layer| && layer[i] == layer[j]
    ensures multiset(layer)[layer[i]] >= 2
  {
    var a, b := layer[..j], layer[j..];
    assert layer == a + b && a[i] == layer[i] && b[0] == layer[i];
    assert layer[i] in multiset(a) && layer[i] in multiset(b);
  }

  lemma StandsAgain(layer: seq<Member>, m: Member) returns (i: nat, j: nat)
    requires multiset(layer)[m] >= 2
    ensures i < |layer| && j < |layer| && i != j && layer[i] == m == layer[j]
  {
    assert m in layer;
    i :| 0 <= i < |layer| && layer[i] == m;
    var a, b := layer[..i], layer[i + 1..];
    assert layer == a + [m] + b;
    assert m in multiset(a) || m in multiset(b);
    if m in a {
      j :| 0 <= j < |a| && a[j] == m;
    } else {
      var k :| 0 <= k < |b| && b[k] == m;
      j := i + 1 + k;
    }
  }

  /** Which paths come once does not depend on the order. */
  lemma DistinctInAnyOrder(layer: seq<Member>, other: seq<Member>, keep: Keep)
    requires multiset(layer) == multiset(other) && Distinct(layer, keep)
    ensures Distinct(other, keep)
  {
    forall i, j | 0 <= i < j < |other| && Places_(other[i], keep) && Places_(other[j], keep)
      ensures PathOf(other[i]) != PathOf(other[j])
    {
      if other[i] == other[j] {
        StandsTwice(other, i, j);
        var k, l := StandsAgain(layer, other[i]);
      } else {
        assert other[i] in multiset(layer) && other[j] in multiset(layer);
        var k :| 0 <= k < |layer| && layer[k] == other[i];
        var l :| 0 <= l < |layer| && layer[l] == other[j];
      }
    }
  }

  /** Two orders of the same members give the same tree. */
  lemma OrderIsIrrelevant(t: Tree, layer: seq<Member>, other: seq<Member>, keep: Keep)
    requires WellFormed(t) && multiset(layer) == multiset(other)
    requires PlainNames(layer) && Plain(Lower(t, layer), layer, keep)
    ensures ApplyLayer(t, layer, keep).Ok? && ApplyLayer(t, other, keep) == ApplyLayer(t, layer, keep)
  {
    SameMembers(t, layer, other);
    DistinctInAnyOrder(layer, other, keep);
    LayerIsOverlay(t, layer, keep);
    LayerIsOverlay(t, other, keep);
    SameAdds(layer, other, keep);
    SameAdds(other, layer, keep);
    assert Adding(other, keep) == Adding(layer, keep);
    OverlayUnique(ApplyLayer(t, layer, keep).tree, ApplyLayer(t, other, keep).tree, Lower(t, layer), Adding(layer, keep));
  }

  /** A tree is determined by what it overlays. */
  lemma OverlayUnique(u: Tree, v: Tree, t: Tree, adds: Adds)
    requires IsOverlay(u, t, adds) && IsOverlay(v, t, adds)
    ensures u == v
  {
    assert forall p :: p in u <==> p in v;
  }

  lemma SameAdds(layer: seq<Member>, other: seq<Member>, keep: Keep)
    requires Distinct(other, keep) && forall m :: m in layer ==> m in other
    ensures forall p :: p in Adding(layer, keep) ==> p in Adding(other, keep) && Adding(other, keep)[p] == Adding(layer, keep)[p]
  {
    forall p | p in Adding(layer, keep)
      ensures p in Adding(other, keep) && Adding(other, keep)[p] == Adding(layer, keep)[p]
    {
      var i := AddingFrom(layer, keep, p);
      assert layer[i] in other;
      var j :| 0 <= j < |other| && other[j] == layer[i];
      AddingHas(other, keep, j);
    }
  }
}
