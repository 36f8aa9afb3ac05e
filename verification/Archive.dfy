/** Unpacking an engine archive: the shared top-level directory is detected and
    stripped, and every entry is joined under the install directory or refused.
    A path is its components, as `Path::components` yields them, and whether its
    text ends in a slash. */
module Archive {
  import opened Wrappers

  datatype Component = Normal(part: string) | CurDir | ParentDir | RootDir | Prefix

  datatype Entry = Entry(components: seq<Component>, endsInSlash: bool)

  /** An entry that lies strictly inside a top-level directory `prefix`, or is it. */
  predicate InsideDirectory(name: Entry, prefix: string) {
    && name.components != []
    && name.components[0] == Normal(prefix)
    && (|name.components| >= 2 || name.endsInSlash)
  }

  ghost predicate AllInside(names: seq<Entry>, prefix: string) {
    forall name :: name in names ==> InsideDirectory(name, prefix)
  }

  /** The one directory every entry is inside, if there is one. */
  ghost predicate IsCommonPrefix(names: seq<Entry>, prefix: Option<string>) {
    match prefix
    case Some(p) => names != [] && AllInside(names, p)
    case None => names == [] || forall p :: !AllInside(names, p)
  }

  method CommonPrefix(names: seq<Entry>) returns (prefix: Option<string>)
    ensures IsCommonPrefix(names, prefix)
  {
    prefix := None;
    for i := 0 to |names|
      invariant prefix.Some? <==> i > 0
      invariant prefix.Some? ==> forall k :: 0 <= k < i ==> InsideDirectory(names[k], prefix.value)
    {
      var name := names[i];
      assert name in names;
      if name.components == [] || !name.components[0].Normal? {
        return None;
      }
      var first := name.components[0].part;
      if |name.components| == 1 && !name.endsInSlash {
        return None;
      }
      if prefix.Some? && prefix.value != first {
        assert names[0] in names && InsideDirectory(names[0], prefix.value);
        return None;
      }
      prefix := Some(first);
    }
  }

  /** All entries begin with the name, and none is that name alone without a slash. */
  ghost predicate WrappedIn(names: seq<Entry>, p: string) {
    forall name :: name in names ==>
      && |name.components| >= 1 && name.components[0] == Normal(p)
      && !(|name.components| == 1 && !name.endsInSlash)
  }

  /** A common directory is found exactly when there are entries and one name wraps
      them all, and it is that name. */
  lemma PrefixFoundIff(names: seq<Entry>, prefix: Option<string>)
    requires IsCommonPrefix(names, prefix)
    ensures prefix.Some? <==> names != [] && exists p :: WrappedIn(names, p)
    ensures prefix.Some? ==> WrappedIn(names, prefix.value)
  {
    forall p: string ensures WrappedIn(names, p) <==> AllInside(names, p) {
    }
  }

  function StripPrefix(components: seq<Component>, prefix: Option<string>): seq<Component> {
    if prefix.Some? && components != [] && components[0] == Normal(prefix.value) then components[1..] else components
  }

  /** The named parts, which is all that is left of a path without `.`. */
  function Normals(components: seq<Component>): seq<string> {
    if components == [] then []
    else Normals(components[..|components| - 1])
         + (if components[|components| - 1].Normal? then [components[|components| - 1].part] else [])
  }

  predicate Harmless(components: seq<Component>) {
    forall c :: c in components ==> c.Normal? || c.CurDir?
  }

  /** Joining under `root`: accepted exactly when no component could leave it
      and at least one names something, and then the target is `root` followed
      by the named parts. */
  method SafeJoin(root: seq<string>, components: seq<Component>) returns (target: Option<seq<string>>)
    ensures target.Some? <==> Harmless(components) && Normals(components) != []
    ensures target.Some? ==> target.value == root + Normals(components)
    ensures target.Some? ==> root < target.value
  {
    var out := root;
    for i := 0 to |components|
      invariant Harmless(components[..i])
      invariant out == root + Normals(components[..i])
    {
      assert components[..i + 1][..i] == components[..i];
      assert components[..i + 1] == components[..i] + [components[i]];
      match components[i] {
        case Normal(part) => out := out + [part];
        case CurDir =>
        case _ =>
          assert components[i] in components;
          return None;
      }
    }
    assert components[..|components|] == components;
    if out == root {
      assert |Normals(components)| == 0;
      return None;
    }
    target := Some(out);
  }

  /** What the join accepts, as a function. */
  function JoinTarget(root: seq<string>, components: seq<Component>): Option<seq<string>> {
    if Harmless(components) && Normals(components) != [] then Some(root + Normals(components)) else None
  }

  datatype Placed = Skipped | At(target: seq<string>)

  /** One entry of a listing that was joined or skipped. */
  ghost predicate PlacedAs(root: seq<string>, prefix: Option<string>, name: Entry, placed: Placed) {
    var path := StripPrefix(name.components, prefix);
    if path == [] then placed == Skipped
    else JoinTarget(root, path).Some? && placed == At(JoinTarget(root, path).value)
  }

  ghost predicate Placeable(root: seq<string>, prefix: Option<string>, name: Entry) {
    exists placed :: PlacedAs(root, prefix, name, placed)
  }

  /** Every entry placed, or the first one that would escape (or names nothing)
      reported. */
  ghost predicate Unpacked(root: seq<string>, names: seq<Entry>, prefix: Option<string>,
                           r: Result<seq<Placed>, Entry>)
  {
    match r
    case Ok(placed) =>
      |placed| == |names| && forall i :: 0 <= i < |names| ==> PlacedAs(root, prefix, names[i], placed[i])
    case Err(name) =>
      exists k :: 0 <= k < |names| && names[k] == name && !Placeable(root, prefix, names[k])
                  && forall j :: 0 <= j < k ==> Placeable(root, prefix, names[j])
  }

  /** The whole unpacking, under the listing's common prefix. */
  method Unpack(root: seq<string>, names: seq<Entry>) returns (r: Result<seq<Placed>, Entry>)
    ensures exists prefix :: IsCommonPrefix(names, prefix) && Unpacked(root, names, prefix, r)
  {
    hide Normals;
    hide Harmless;
    hide IsCommonPrefix;
    var strip := CommonPrefix(names);
    var placed: seq<Placed> := [];
    for i := 0 to |names|
      invariant |placed| == i
      invariant forall k :: 0 <= k < i ==> PlacedAs(root, strip, names[k], placed[k])
    {
      var path := StripPrefix(names[i].components, strip);
      if path == [] {
        placed := placed + [Skipped];
      } else {
        var target := SafeJoin(root, path);
        if target.None? {
          r := Err(names[i]);
          assert !Placeable(root, strip, names[i]);
          assert Unpacked(root, names, strip, r);
          return;
        }
        placed := placed + [At(target.value)];
      }
    }
    r := Ok(placed);
    assert Unpacked(root, names, strip, r);
  }

  /** A listing has one common prefix, so the one it was unpacked under is it. */
  lemma CommonPrefixIsUnique(names: seq<Entry>, p: Option<string>, q: Option<string>)
    requires IsCommonPrefix(names, p) && IsCommonPrefix(names, q)
    ensures p == q
  {
    if p.Some? && q.Some? {
      assert names[0] in names;
    }
  }

  lemma {:induction false} NormalsHead(components: seq<Component>)
    requires components != [] && components[0].Normal?
    ensures Normals(components) == [components[0].part] + Normals(components[1..])
  {
    var n := |components|;
    if n == 1 {
      assert components[..0] == [] && components[1..] == [];
    } else {
      var init, tail := components[..n - 1], components[1..];
      assert tail[..|tail| - 1] == init[1..];
      NormalsLast(components);
      NormalsLast(tail);
      hide Normals;
      NormalsHead(init);
      assert tail[|tail| - 1] == components[n - 1];
    }
  }

  lemma NormalsLast(components: seq<Component>)
    requires components != []
    ensures var last := components[|components| - 1];
            Normals(components)
              == Normals(components[..|components| - 1]) + (if last.Normal? then [last.part] else [])
  {
  }

  /** Stripping takes the prefix off every entry's named parts and nothing else. */
  lemma StripTakesOnlyThePrefix(names: seq<Entry>, prefix: Option<string>, name: Entry)
    requires IsCommonPrefix(names, prefix) && name in names
    ensures Normals(name.components)
         == (if prefix.Some? then [prefix.value] else []) + Normals(StripPrefix(name.components, prefix))
  {
    if prefix.Some? {
      NormalsHead(name.components);
    }
  }

  /** Entries that differ once `.` components are dropped land on different
      targets, and every target lies under the install directory. */
  lemma DifferentEntriesDifferentTargets(root: seq<string>, names: seq<Entry>, prefix: Option<string>,
                                         a: Entry, b: Entry, x: seq<string>, y: seq<string>)
    requires IsCommonPrefix(names, prefix) && a in names && b in names
    requires PlacedAs(root, prefix, a, At(x)) && PlacedAs(root, prefix, b, At(y))
    ensures x == y <==> Normals(a.components) == Normals(b.components)
    ensures root < x && root < y
  {
    StripTakesOnlyThePrefix(names, prefix, a);
    StripTakesOnlyThePrefix(names, prefix, b);
    var p: seq<string> := if prefix.Some? then [prefix.value] else [];
    var u, v := Normals(StripPrefix(a.components, prefix)), Normals(StripPrefix(b.components, prefix));
    assert x == root + u && y == root + v;
    assert (root + u)[|root|..] == u && (root + v)[|root|..] == v;
    assert (p + u)[|p|..] == u && (p + v)[|p|..] == v;
  }

  /** Only the wrapping directory itself (or an entry with no components) is
      skipped, so nothing that names a file is dropped. */
  lemma OnlyTheWrapperIsSkipped(root: seq<string>, names: seq<Entry>, prefix: Option<string>, a: Entry)
    requires IsCommonPrefix(names, prefix) && a in names
    requires PlacedAs(root, prefix, a, Skipped)
    ensures Normals(a.components) == if prefix.Some? then [prefix.value] else []
  {
    StripTakesOnlyThePrefix(names, prefix, a);
    assert Normals([]) == [];
  }
}
