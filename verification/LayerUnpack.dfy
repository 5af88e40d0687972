/** The unpacking of `fetch_release.py` as it runs, on a tree it changes in place. */
module LayerUnpack {
  import opened Strings
  import opened Layers

  datatype Reached = Here | NotThere | Through

  class Unpacker {
    var tree: Tree

    constructor ()
      ensures tree == map[]
    {
      tree := map[];
    }

    /** root/rel reached through real directories only; a symlink in the way of a
        path to create refuses the image. */
    method Walk(rel: Path, create: bool) returns (r: Reached)
      modifies this
      ensures match RealDir(old(tree), rel, 0, create)
              case Found(t) => r == Here && tree == t
              case Absent => r == NotThere && tree == old(tree)
              case Refused => r == Through
      ensures !create ==> tree == old(tree)
    {
      var i := 0;
      while i < |rel|
        invariant 0 <= i <= |rel|
        invariant RealDir(old(tree), rel, 0, create) == RealDir(tree, rel, i, create)
        invariant !create ==> tree == old(tree)
      {
        i := i + 1;
        var here := rel[..i];
        if here in tree && tree[here] == Dir { continue; }
        if !create { return NotThere; }
        if here in tree && tree[here].Link? { return Through; }
        tree := tree[here := Dir];
      }
      return Here;
    }

    method Remove(p: Path)
      requires p != []
      modifies this
      ensures tree == Layers.Remove(old(tree), p)
    {
      var r := Walk(Parent(p), false);
      if r == Here {
        tree := Clear(tree, p);
      }
    }

    method Empty(p: Path)
      modifies this
      ensures tree == Layers.Empty(old(tree), p)
    {
      var r := Walk(p, false);
      if r == Here {
        tree := map q | q in tree && (!Under(q, p) || q == p) :: tree[q];
      }
    }

    method Write(p: Path, kind: Kind, keep: Keep) returns (ok: bool)
      requires p != []
      modifies this
      ensures ok == Layers.Write(old(tree), p, kind, keep).Ok?
      ensures ok ==> tree == Layers.Write(old(tree), p, kind, keep).tree
    {
      if kind.Device? { return true; }
      var r := Walk(Parent(p), true);
      if r != Here { return false; }
      ok := true;
      match kind
      case DirMember =>
        r := Walk(p, false);
        if r != Here {
          tree := Clear(tree, p);
          tree := tree[p := Dir];
        }
      case FileMember(data) =>
        tree := Clear(tree, p);
        tree := tree[p := File(data)];
      case LinkMember(target) =>
        tree := Clear(tree, p);
        tree := tree[p := Link(target)];
      case HardMember(name) =>
        tree := Clear(tree, p);
        ok := LinkTo(p, MemberPath(name), keep);
    }

    method LinkTo(p: Path, source: Option<Path>, keep: Keep) returns (ok: bool)
      modifies this
      ensures ok == HardLink(old(tree), p, source, keep).Ok?
      ensures ok ==> tree == HardLink(old(tree), p, source, keep).tree
    {
      if source == None || !Kept(keep, source.value) || source.value == [] { return false; }
      var r := Walk(Parent(source.value), false);
      if r != Here || source.value !in tree || tree[source.value] == Dir { return false; }
      tree := tree[p := tree[source.value]];
      return true;
    }

    /** One member of the first pass. */
    method Whiteout(name: string) returns (ok: bool)
      modifies this
      ensures ok == Layers.Whiteout(old(tree), name).Ok?
      ensures ok ==> tree == Layers.Whiteout(old(tree), name).tree
    {
      var path := MemberPath(name);
      if path == None { return false; }
      var p := path.value;
      ok := true;
      if p != [] {
        if Leaf(p) == OPAQUE {
          Empty(Parent(p));
        } else if IsWhiteout(Leaf(p)) {
          ok := RemoveNamed(Parent(p), Leaf(p)[|WHITEOUT|..]);
        }
      }
    }

    method RemoveNamed(parent: Path, name: string) returns (ok: bool)
      modifies this
      ensures ok == Layers.RemoveNamed(old(tree), parent, name).Ok?
      ensures ok ==> tree == Layers.RemoveNamed(old(tree), parent, name).tree
    {
      if name != "." && name != ".." {
        Remove(parent + [name]);
        return true;
      }
      var r := Walk(parent, false);
      if name == "." && r == Here {
        tree := Clear(tree, parent);
      }
      return name == "." || r != Here;
    }

    /** One member of the second pass. */
    method Place(m: Member, keep: Keep) returns (ok: bool)
      modifies this
      ensures ok == Layers.Place(old(tree), m, keep).Ok?
      ensures ok ==> tree == Layers.Place(old(tree), m, keep).tree
    {
      var path := MemberPath(m.name);
      if path == None { return false; }
      var p := path.value;
      ok := true;
      if p != [] && !(WHITEOUT <= Leaf(p)) && Kept(keep, p) {
        ok := Write(p, m.kind, keep);
      }
    }

    method FirstPass(layer: seq<Member>) returns (ok: bool)
      modifies this
      ensures ok ==> Whiteouts(old(tree), layer) == Ok(tree)
      ensures !ok ==> Whiteouts(old(tree), layer) == Err
    {
      ghost var below := tree;
      ok := true;
      var i := 0;
      while i < |layer| && ok
        invariant 0 <= i <= |layer|
        invariant ok ==> Whiteouts(below, layer[..i]) == Ok(tree)
        invariant !ok ==> Whiteouts(below, layer[..i]) == Err
      {
        WhiteoutsMore(below, layer, i);
        ok := Whiteout(layer[i].name);
        i := i + 1;
      }
      if ok {
        assert layer[..i] == layer;
      } else {
        WhiteoutsFail(below, layer, i);
      }
    }

    method SecondPass(layer: seq<Member>, keep: Keep) returns (ok: bool)
      modifies this
      ensures ok ==> Places(old(tree), layer, keep) == Ok(tree)
      ensures !ok ==> Places(old(tree), layer, keep) == Err
    {
      ghost var below := tree;
      ok := true;
      var i := 0;
      while i < |layer| && ok
        invariant 0 <= i <= |layer|
        invariant ok ==> Places(below, layer[..i], keep) == Ok(tree)
        invariant !ok ==> Places(below, layer[..i], keep) == Err
      {
        PlacesMore(below, layer, keep, i);
        ok := Place(layer[i], keep);
        i := i + 1;
      }
      if ok {
        assert layer[..i] == layer;
      } else {
        PlacesFail(below, layer, keep, i);
      }
    }

    /** One layer: its whiteouts against what the layers below left, then its members. */
    method ApplyLayer(layer: seq<Member>, keep: Keep) returns (ok: bool)
      modifies this
      ensures ok == Layers.ApplyLayer(old(tree), layer, keep).Ok?
      ensures ok ==> tree == Layers.ApplyLayer(old(tree), layer, keep).tree
      ensures ok && WellFormed(old(tree)) ==> WellFormed(tree)
    {
      ok := FirstPass(layer);
      if !ok { return; }
      ghost var lower := tree;
      ok := SecondPass(layer, keep);
      if ok && WellFormed(old(tree)) {
        WhiteoutsWellFormed(old(tree), layer);
        PlacesWellFormed(lower, layer, keep);
      }
    }
  }

  lemma WhiteoutsMore(t: Tree, layer: seq<Member>, i: nat)
    requires i < |layer|
    ensures Whiteouts(t, layer[..i + 1]) ==
            match Whiteouts(t, layer[..i]) case Ok(t1) => Layers.Whiteout(t1, layer[i].name) case Err => Err
  {
    var front := layer[..i + 1];
    assert front[..|front| - 1] == layer[..i];
  }

  lemma PlacesMore(t: Tree, layer: seq<Member>, keep: Keep, i: nat)
    requires i < |layer|
    ensures Places(t, layer[..i + 1], keep) ==
            match Places(t, layer[..i], keep) case Ok(t1) => Layers.Place(t1, layer[i], keep) case Err => Err
  {
    var front := layer[..i + 1];
    assert front[..|front| - 1] == layer[..i];
  }

  lemma {:induction false} WhiteoutsFail(t: Tree, layer: seq<Member>, i: nat)
    requires i <= |layer| && Whiteouts(t, layer[..i]) == Err
    ensures Whiteouts(t, layer) == Err
  {
    if i == |layer| {
      assert layer[..i] == layer;
    } else {
      assert layer[..|layer| - 1][..i] == layer[..i];
      WhiteoutsFail(t, layer[..|layer| - 1], i);
    }
  }

  lemma {:induction false} PlacesFail(t: Tree, layer: seq<Member>, keep: Keep, i: nat)
    requires i <= |layer| && Places(t, layer[..i], keep) == Err
    ensures Places(t, layer, keep) == Err
  {
    if i == |layer| {
      assert layer[..i] == layer;
    } else {
      assert layer[..|layer| - 1][..i] == layer[..i];
      PlacesFail(t, layer[..|layer| - 1], keep, i);
    }
  }
}
