/** What the names of a layer's members and the requested paths mean, on their text. */
module LayerNames {
  import opened Strings
  import opened Layers
  import opened LayerOverlay
  import opened LayerProjection

  /** A component that names an entry of its directory. */
  predicate Component(part: string) {
    part != "" && part != "." && part != ".." && '/' !in part
  }

  predicate Components(parts: seq<string>) {
    parts != [] && forall part :: part in parts ==> Component(part)
  }

  /** Names neither the directory it stands in nor a step up from it. */
  predicate NoSlash(parts: seq<string>) {
    forall part :: part in parts ==> '/' !in part
  }

  lemma {:induction false} PartsOfComponents(parts: seq<string>)
    requires forall part :: part in parts ==> Component(part)
    ensures Parts(parts) == parts
  {
    if parts != [] {
      PartsOfComponents(parts[1..]);
      assert Component(parts[0]);
      assert parts == [parts[0]] + parts[1..];
    }
  }

  /** An empty component or "." anywhere is left out. */
  lemma {:induction false} PartsWithout(a: seq<string>, x: string, b: seq<string>)
    requires x == "" || x == "."
    ensures Parts(a + [x] + b) == Parts(a + b)
  {
    if a == [] {
      assert a + [x] + b == [x] + b && a + b == b && ([x] + b)[1..] == b;
    } else {
      assert (a + [x] + b)[1..] == a[1..] + [x] + b && (a + b)[1..] == a[1..] + b;
      PartsWithout(a[1..], x, b);
    }
  }

  lemma {:induction false} ClimbStays(parts: seq<string>)
    ensures ".." in Parts(parts) <==> ".." in parts
  {
    if parts != [] {
      ClimbStays(parts[1..]);
      assert parts == [parts[0]] + parts[1..];
    }
  }

  lemma StartsWithSlash(name: string)
    ensures "/" <= name <==> name != "" && name[0] == '/'
  {
  }

  /** A name is refused exactly when it starts with a slash or has ".." for a component. */
  lemma NameIsRefused(name: string)
    ensures MemberPath(name) == None <==> (name != "" && name[0] == '/') || ".." in Split(name, '/')
  {
    StartsWithSlash(name);
    ClimbStays(Split(name, '/'));
  }

  lemma JoinStarts(parts: seq<string>)
    requires parts != [] && parts[0] != ""
    ensures Join(parts, '/') != "" && Join(parts, '/')[0] == parts[0][0]
  {
  }

  /** Components with slashes between name the path of those components. */
  lemma NameIsItsPath(parts: seq<string>)
    requires Components(parts)
    ensures MemberPath(Join(parts, '/')) == Some(parts)
  {
    assert Component(parts[0]);
    JoinStarts(parts);
    StartsWithSlash(Join(parts, '/'));
    SplitJoin(parts, '/');
    PartsOfComponents(parts);
    assert forall part :: part in parts ==> Component(part);
  }

  /** ... and so they do with an empty component or "." put anywhere behind the first. */
  lemma NameIsNormalized(a: seq<string>, x: string, b: seq<string>)
    requires a != [] && a[0] != "" && (x == "" || x == ".") && NoSlash(a + b)
    ensures MemberPath(Join(a + [x] + b, '/')) == MemberPath(Join(a + b, '/'))
  {
    var with, without := a + [x] + b, a + b;
    assert forall part :: part in with ==> part in without || part == x;
    SplitJoin(with, '/');
    SplitJoin(without, '/');
    JoinStarts(with);
    JoinStarts(without);
    StartsWithSlash(Join(with, '/'));
    StartsWithSlash(Join(without, '/'));
    PartsWithout(a, x, b);
  }

  // --- the requested paths ------------------------------------------------------------------

  /** `p` is at or beneath what the text's components lead to. */
  predicate Requested(paths: seq<string>, p: Path) {
    exists i :: 0 <= i < |paths| && Parts(Split(paths[i], '/')) <= p
  }

  /** A text that names no directory inside the image. */
  predicate NamesNone(text: string) {
    ".." in Split(text, '/') || forall part :: part in Split(text, '/') ==> part == "" || part == "."
  }

  lemma {:induction false} PartsAreNone(parts: seq<string>)
    ensures Parts(parts) == [] <==> forall part :: part in parts ==> part == "" || part == "."
  {
    if parts != [] {
      var first, rest := parts[0], parts[1..];
      PartsAreNone(rest);
      assert first in parts && forall part :: part in parts <==> part == first || part in rest;
      assert Parts(parts) == if first == "" || first == "." then Parts(rest) else [first] + Parts(rest);
    }
  }

  predicate Among(paths: seq<string>, q: Path) {
    exists i :: 0 <= i < |paths| && Parts(Split(paths[i], '/')) == q
  }

  predicate SomeNone(paths: seq<string>) {
    exists i :: 0 <= i < |paths| && NamesNone(paths[i])
  }

  /** The last text beside those before it. */
  lemma LastAmong(paths: seq<string>, q: Path)
    requires paths != []
    ensures var n := |paths| - 1;
            && (Among(paths, q) <==> Among(paths[..n], q) || Parts(Split(paths[n], '/')) == q)
            && (SomeNone(paths) <==> SomeNone(paths[..n]) || NamesNone(paths[n]))
  {
    var front := paths[..|paths| - 1];
    assert forall i :: 0 <= i < |front| ==> front[i] == paths[i];
  }

  lemma {:induction false} NormalizedIs(paths: seq<string>)
    ensures Normalized(paths) == None <==> SomeNone(paths)
    ensures Normalized(paths).Some? ==> forall q :: q in Normalized(paths).value <==> Among(paths, q)
  {
    if paths != [] {
      var n := |paths| - 1;
      NormalizedIs(paths[..n]);
      LastAmong(paths, []);
      NamesNoneIs(paths[n]);
      if Normalized(paths).Some? {
        forall q ensures q in Normalized(paths).value <==> Among(paths, q) { LastAmong(paths, q); }
      }
    }
  }

  lemma NamesNoneIs(text: string)
    ensures NamesNone(text) <==> var parts := Parts(Split(text, '/')); parts == [] || ".." in parts
  {
    PartsAreNone(Split(text, '/'));
    ClimbStays(Split(text, '/'));
  }

  /** The prefixes are refused exactly when a requested text names nothing, and else
      cover exactly what lies at or beneath one of the texts. */
  lemma PrefixesAreRequested(paths: seq<string>)
    ensures Prefixes(paths) == None <==> SomeNone(paths)
    ensures Prefixes(paths).Some? ==> forall p: Path :: In(Prefixes(paths).value, p) <==> Requested(paths, p)
  {
    NormalizedIs(paths);
    if Normalized(paths).Some? {
      PrefixesCover(paths);
      var all := Normalized(paths).value;
      forall p: Path ensures In(all, p) <==> Requested(paths, p) {
        if Requested(paths, p) {
          var i :| 0 <= i < |paths| && Parts(Split(paths[i], '/')) <= p;
          assert Among(paths, Parts(Split(paths[i], '/')));
        }
      }
    }
  }

  /** Requested as lists of components, they cover exactly what lies at or beneath one of them. */
  lemma PrefixesCoverTheirTexts(texts: seq<Path>)
    requires forall i :: 0 <= i < |texts| ==> Components(texts[i])
    ensures var paths := seq(|texts|, i requires 0 <= i < |texts| => Join(texts[i], '/'));
            && Prefixes(paths).Some?
            && forall p: Path :: In(Prefixes(paths).value, p) <==> exists i :: 0 <= i < |texts| && texts[i] <= p
  {
    var paths := seq(|texts|, i requires 0 <= i < |texts| => Join(texts[i], '/'));
    forall i | 0 <= i < |paths| ensures Parts(Split(paths[i], '/')) == texts[i] && !NamesNone(paths[i]) {
      TextIsItsPath(texts[i]);
      NamesNoneIs(paths[i]);
    }
    PrefixesAreRequested(paths);
    forall p: Path ensures Requested(paths, p) <==> exists i :: 0 <= i < |texts| && texts[i] <= p {
      if i :| 0 <= i < |texts| && texts[i] <= p { assert Parts(Split(paths[i], '/')) <= p; }
    }
  }

  lemma TextIsItsPath(parts: Path)
    requires Components(parts)
    ensures Parts(Split(Join(parts, '/'), '/')) == parts && ".." !in parts
  {
    assert forall part :: part in parts ==> Component(part);
    SplitJoin(parts, '/');
    PartsOfComponents(parts);
  }

  // --- whiteouts ---------------------------------------------------------------------------

  /** A member of `dir` and its name. */
  function Within(dir: Path, leaf: string): string { Join(dir + [leaf], '/') }

  lemma WithinPath(dir: Path, leaf: string)
    requires Component(leaf) && forall part :: part in dir ==> Component(part)
    ensures MemberPath(Within(dir, leaf)) == Some(dir + [leaf]) && Parent(dir + [leaf]) == dir && Leaf(dir + [leaf]) == leaf
  {
    NameIsItsPath(dir + [leaf]);
  }

  lemma WhiteoutNames(name: string)
    requires name != "" && '/' !in name && !(".wh." <= name)
    ensures Component(".wh." + name) && IsWhiteout(".wh." + name) && ".wh." + name != OPAQUE && (".wh." + name)[|WHITEOUT|..] == name
  {
    var leaf := ".wh." + name;
    assert leaf[4..] == name && leaf[0] == '.' && leaf[1] == 'w';
  }

  /** "dir/.wh.name" takes the entry "dir/name" and what is beneath it, and nothing else. */
  lemma WhiteoutTakesItsEntry(dir: Path, name: string, p: Path, node: Node)
    requires Component(name) && !(".wh." <= name) && forall part :: part in dir ==> Component(part)
    ensures NamesWhiteout(Within(dir, ".wh." + name), p, node) <==> dir + [name] <= p
  {
    WhiteoutNames(name);
    WithinPath(dir, ".wh." + name);
  }

  /** "dir/.wh.." takes "dir" itself, if it is a directory, and what is beneath it. */
  lemma WhiteoutTakesItsDirectory(dir: Path, p: Path, node: Node)
    requires forall part :: part in dir ==> Component(part)
    ensures NamesWhiteout(Within(dir, ".wh.."), p, node) <==> dir <= p && (p == dir ==> node == Dir)
  {
    WhiteoutNames(".");
    assert ".wh." + "." == ".wh..";
    WithinPath(dir, ".wh..");
  }

  /** "dir/.wh..wh..opq" takes all that is in "dir", and not "dir". */
  lemma OpaqueTakesTheContents(dir: Path, p: Path, node: Node)
    requires forall part :: part in dir ==> Component(part)
    ensures NamesWhiteout(Within(dir, ".wh..wh..opq"), p, node) <==> dir < p
  {
    var leaf := ".wh..wh..opq";
    assert leaf[0] == '.' && leaf[1] == 'w';
    WithinPath(dir, leaf);
  }

  /** Any other name takes nothing: one without the prefix, the prefix alone, or with
      the prefix twice. */
  lemma OthersTakeNothing(dir: Path, leaf: string, p: Path, node: Node)
    requires Component(leaf) && forall part :: part in dir ==> Component(part)
    requires !(".wh." <= leaf) || leaf == ".wh." || (".wh..wh." <= leaf && leaf != ".wh..wh..opq")
    ensures !NamesWhiteout(Within(dir, leaf), p, node)
  {
    WithinPath(dir, leaf);
    if ".wh..wh." <= leaf { assert WHITEOUT + WHITEOUT == ".wh..wh."; }
  }

  /** A member adds its entry exactly when no whiteout prefix starts its name. */
  lemma MemberIsPlaced(dir: Path, leaf: string, kind: Kind)
    requires Component(leaf) && (forall part :: part in dir ==> Component(part)) && !kind.Device?
    ensures Places_(Member(Within(dir, leaf), kind), All) <==> !(".wh." <= leaf)
  {
    WithinPath(dir, leaf);
  }
}
