/** The vetting of one symlink in `fetch_release.py`, against the kernel's own walk
    of the path the link stands at. `limit` is the number of links either follows,
    40 for both. */
module Symlinks {
  import opened Strings
  import opened Layers

  predicate IsLink(t: Tree, p: Path) { p in t && t[p].Link? }

  /** readlink. */
  function Target(t: Tree, p: Path): string
    requires IsLink(t, p)
  {
    t[p].target
  }

  predicate Absolute(target: string) { "/" <= target }

  // --- the check, as the source runs it ----------------------------------------------

  datatype Stop = Climbs | Ends | Meets(where: Path, todo: seq<string>, target: string)

  /** From a directory, take the components of `todo` until a symlink is met. */
  function Steps(t: Tree, where: Path, todo: seq<string>): Stop
    decreases |todo|
  {
    if todo == [] then Ends
    else
      var part, rest := todo[0], todo[1..];
      if part == "" || part == "." then Steps(t, where, rest)
      else if part == ".." then (if where == [] then Climbs else Steps(t, Parent(where), rest))
      else if IsLink(t, where + [part]) then Meets(where, rest, Target(t, where + [part]))
      else Steps(t, where + [part], rest)
  }

  /** Expand links, `hops` more of them. */
  function Expand(t: Tree, where: Path, todo: seq<string>, target: string, hops: nat): bool
    decreases hops
  {
    if hops == 0 then true
    else if Absolute(target) then false
    else
      match Steps(t, where, Split(target, '/') + todo)
      case Climbs => false
      case Ends => true
      case Meets(where', todo', target') => Expand(t, where', todo', target', hops - 1)
  }

  /** Whether the symlink at `rel` stays inside the tree, the tree read as /. */
  method ResolvesInside(t: Tree, rel: Path, limit: nat) returns (inside: bool)
    requires rel != [] && IsLink(t, rel)
    ensures inside == Expand(t, Parent(rel), [], Target(t, rel), limit)
  {
    var where, target := Parent(rel), Target(t, rel);
    var todo: seq<string> := [];
    for hop := 0 to limit
      invariant Expand(t, where, todo, target, limit - hop) == Expand(t, Parent(rel), [], Target(t, rel), limit)
    {
      if Absolute(target) { return false; }
      todo := Split(target, '/') + todo;
      ghost var where0, todo0 := where, todo;
      var met := false;
      while todo != [] && !met
        invariant if met then Steps(t, where0, todo0) == Meets(where, todo, target) else Steps(t, where, todo) == Steps(t, where0, todo0)
        decreases |todo|, !met
      {
        var part := todo[0];
        todo := todo[1..];
        if part == "" || part == "." {
        } else if part == ".." {
          if where == [] { return false; }
          where := Parent(where);
        } else if IsLink(t, where + [part]) {
          target, met := Target(t, where + [part]), true;
        } else {
          where := where + [part];
        }
      }
      if !met { return true; }
    }
    return true;
  }

  // --- the kernel's walk ----------------------------------------------------------------

  /** Where a path leads: to an entry, out of the tree, nowhere (a component that
      is missing, or is no directory and not the last), or past the limit on links. */
  datatype Resolution = Leads(where: Path) | Escapes | Nowhere | TooMany

  /** The kernel's walk of `todo` from `where`, with `hops` links left to follow: each
      component is looked up in a directory, and a link replaces itself by its target. */
  function Resolve(t: Tree, where: Path, todo: seq<string>, hops: nat): Resolution
    decreases hops, |todo|
  {
    if todo == [] then Leads(where)
    else if !IsDir(t, where) then Nowhere
    else
      var part, rest := todo[0], todo[1..];
      if part == "" || part == "." then Resolve(t, where, rest, hops)
      else if part == ".." then (if where == [] then Escapes else Resolve(t, Parent(where), rest, hops))
      else if where + [part] !in t then Nowhere
      else if IsLink(t, where + [part]) then
        Follow(t, where, rest, Target(t, where + [part]), hops)
      else Resolve(t, where + [part], rest, hops)
  }

  /** A link met in `where`, `todo` being left after it. */
  function Follow(t: Tree, where: Path, todo: seq<string>, target: string, hops: nat): Resolution
    decreases hops, 0
  {
    if hops == 0 then TooMany
    else if target != "" && target[0] == '/' then Escapes
    else Resolve(t, where, Split(target, '/') + todo, hops - 1)
  }

  /** Every component of `where` is resolved: none is a symlink. */
  predicate Resolved(t: Tree, where: Path) {
    forall i :: 0 < i <= |where| ==> !IsLink(t, where[..i])
  }

  lemma ResolvedUp(t: Tree, where: Path)
    requires Resolved(t, where) && where != []
    ensures Resolved(t, Parent(where))
  {
    assert forall i :: 0 < i <= |Parent(where)| ==> Parent(where)[..i] == where[..i];
  }

  lemma ResolvedDown(t: Tree, where: Path, part: string)
    requires Resolved(t, where) && !IsLink(t, where + [part])
    ensures Resolved(t, where + [part])
  {
    var p := where + [part];
    assert forall i :: 0 < i <= |where| ==> p[..i] == where[..i];
    assert p[..|where| + 1] == p;
  }

  /** Taking components without a link, the kernel either stops nowhere or gets to
      where the check does. */
  lemma {:induction false} StepsFollow(t: Tree, where: Path, todo: seq<string>, hops: nat)
    requires Resolved(t, where)
    ensures var r := Resolve(t, where, todo, hops);
            match Steps(t, where, todo)
            case Climbs => r.Escapes? || r.Nowhere?
            case Ends => r.Leads? || r.Nowhere?
            case Meets(w, rest, target) =>
              Resolved(t, w) && (r.Nowhere? || r == Follow(t, w, rest, target, hops))
    decreases |todo|
  {
    if todo != [] {
      var part, rest := todo[0], todo[1..];
      if part == "" || part == "." {
        StepsFollow(t, where, rest, hops);
      } else if part == ".." {
        if where != [] {
          ResolvedUp(t, where);
          StepsFollow(t, Parent(where), rest, hops);
        }
      } else if !IsLink(t, where + [part]) {
        ResolvedDown(t, where, part);
        StepsFollow(t, where + [part], rest, hops);
      }
    }
  }

  /** The check takes a target for absolute where its first character is a slash. */
  lemma AbsoluteIs(target: string)
    ensures Absolute(target) <==> target != "" && target[0] == '/'
  {
  }

  /** So it refuses every link with such a target, whatever the tree holds. */
  lemma AbsoluteIsRefused(t: Tree, rel: Path, limit: nat)
    requires rel != [] && IsLink(t, rel) && limit > 0 && Target(t, rel) != "" && Target(t, rel)[0] == '/'
    ensures !Expand(t, Parent(rel), [], Target(t, rel), limit)
  {
    AbsoluteIs(Target(t, rel));
  }

  /** What the check answers of a link about to be followed, the kernel agrees with. */
  lemma {:induction false} ExpandFollows(t: Tree, where: Path, todo: seq<string>, target: string, hops: nat)
    requires Resolved(t, where)
    ensures var r := Follow(t, where, todo, target, hops);
            if Expand(t, where, todo, target, hops) then !r.Escapes? else r.Escapes? || r.Nowhere?
    decreases hops
  {
    AbsoluteIs(target);
    if hops > 0 && !Absolute(target) {
      StepsFollow(t, where, Split(target, '/') + todo, hops - 1);
      match Steps(t, where, Split(target, '/') + todo)
      case Meets(where', todo', target') => ExpandFollows(t, where', todo', target', hops - 1);
      case _ =>
    }
  }

  /** Walking down real directories only brings the kernel to them. */
  lemma {:induction false} WalkDown(t: Tree, rel: Path, i: nat, hops: nat)
    requires WellFormed(t) && i < |rel| && IsDir(t, Parent(rel)) && rel in t && PlainParts(rel)
    ensures Resolve(t, rel[..i], rel[i..], hops) == Resolve(t, Parent(rel), [Leaf(rel)], hops)
    ensures Resolved(t, Parent(rel))
    decreases |rel| - i
  {
    DirsAbove(t, rel);
    if i == |rel| - 1 {
      assert rel[i..] == [Leaf(rel)];
    } else {
      assert rel[i..][0] == rel[i] && rel[i] in rel;
      assert rel[i..][1..] == rel[i + 1..] && rel[..i] + [rel[i]] == rel[..i + 1];
      assert IsDir(t, rel[..i]) && IsDir(t, rel[..i + 1]);
      WalkDown(t, rel, i + 1, hops);
    }
  }

  predicate PlainParts(p: Path) { forall part :: part in p ==> part !in {"", ".", ".."} }

  lemma DirsAbove(t: Tree, rel: Path)
    requires WellFormed(t) && rel in t
    ensures forall i :: 0 <= i < |rel| ==> IsDir(t, rel[..i])
    ensures Resolved(t, Parent(rel))
  {
    forall i | 0 < i < |rel| ensures IsDir(t, rel[..i]) {
      if !IsDir(t, rel[..i]) { NotBelow(t, rel, i); }
    }
    forall i | 0 < i <= |Parent(rel)| ensures !IsLink(t, Parent(rel)[..i]) {
      assert Parent(rel)[..i] == rel[..i];
    }
  }

  /** From the root, the first link the kernel follows is the one at `rel`. */
  lemma FirstLink(t: Tree, rel: Path, hops: nat)
    requires WellFormed(t) && rel != [] && PlainParts(rel) && IsLink(t, rel)
    ensures Resolve(t, [], rel, hops) == Follow(t, Parent(rel), [], Target(t, rel), hops)
  {
    assert rel[0..] == rel && rel[..0] == [];
    WalkDown(t, rel, 0, hops);
    assert Parent(rel) + [Leaf(rel)] == rel && Leaf(rel) in rel;
    LinkStep(t, Parent(rel), Leaf(rel), hops);
  }

  lemma LinkStep(t: Tree, where: Path, part: string, hops: nat)
    requires IsDir(t, where) && part !in {"", ".", ".."} && IsLink(t, where + [part])
    ensures Resolve(t, where, [part], hops) == Follow(t, where, [], Target(t, where + [part]), hops)
  {
    assert [part][1..] == [];
  }

  /** A link the check lets through: whatever the tree holds, the kernel's walk of
      its path, from the root and through at most `limit` links, neither meets an
      absolute target nor climbs above the tree. One it refuses leads out of the
      tree, or nowhere: the check reads a missing component as a directory. */
  lemma VettedLinkStaysInside(t: Tree, rel: Path, limit: nat)
    requires WellFormed(t) && rel != [] && PlainParts(rel) && IsLink(t, rel)
    ensures var r := Resolve(t, [], rel, limit);
            if Expand(t, Parent(rel), [], Target(t, rel), limit) then !r.Escapes? else r.Escapes? || r.Nowhere?
  {
    FirstLink(t, rel, limit);
    DirsAbove(t, rel);
    ExpandFollows(t, Parent(rel), [], Target(t, rel), limit);
  }

  /** A walk that ends inside ends at a resolved place. */
  lemma {:induction false} LeadsInside(t: Tree, where: Path, todo: seq<string>, hops: nat)
    requires WellFormed(t) && Resolved(t, where) && (where == [] || where in t)
    ensures var r := Resolve(t, where, todo, hops);
            r.Leads? ==> (r.where == [] || r.where in t) && Resolved(t, r.where)
    decreases hops, |todo|
  {
    if todo != [] && IsDir(t, where) {
      var part, rest := todo[0], todo[1..];
      if part == "" || part == "." {
        LeadsInside(t, where, rest, hops);
      } else if part == ".." {
        if where != [] {
          ResolvedUp(t, where);
          LeadsInside(t, Parent(where), rest, hops);
        }
      } else if where + [part] in t {
        if IsLink(t, where + [part]) {
          AbsoluteIs(Target(t, where + [part]));
          if hops > 0 && !Absolute(Target(t, where + [part])) {
            LeadsInside(t, where, Split(Target(t, where + [part]), '/') + rest, hops - 1);
          }
        } else {
          ResolvedDown(t, where, part);
          LeadsInside(t, where + [part], rest, hops);
        }
      }
    }
  }
}
