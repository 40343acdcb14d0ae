/** Adding images to a kustomization (declarative/kustomize/mutate.go, AddImages). */
module Images {
  import opened Collections

  datatype Image = Image(name: string, override: int)

  /** What kustomize goes by: the first entry with the name. */
  function Lookup(images: seq<Image>, name: string): Option<Image> {
    if images == [] then None
    else if images[0].name == name then Some(images[0])
    else Lookup(images[1..], name)
  }

  function LastOf(images: seq<Image>, name: string): (r: Option<Image>)
    ensures r.Some? ==> r.value.name == name
  {
    if images == [] then None
    else if images[|images| - 1].name == name then Some(images[|images| - 1])
    else LastOf(images[..|images| - 1], name)
  }

  function NamesOf(images: seq<Image>): seq<string> {
    seq(|images|, i requires 0 <= i < |images| => images[i].name)
  }

  lemma {:induction false} LastOfNamed(images: seq<Image>, name: string)
    ensures LastOf(images, name).Some? <==> name in NamesOf(images)
  {
    if images != [] {
      var init, last := images[..|images| - 1], images[|images| - 1];
      LastOfNamed(init, name);
      assert NamesOf(images) == NamesOf(init) + [last.name];
    }
  }

  /** The last entry of every name, the names in the order of their first appearance. */
  ghost function Unique(images: seq<Image>): seq<Image> {
    Picked(images, AddMissing([], NamesOf(images)))
  }

  ghost function Picked(images: seq<Image>, names: seq<string>): (r: seq<Image>)
    ensures |r| == |names|
  {
    seq(|names|, i requires 0 <= i < |names| =>
      var p := LastOf(images, names[i]); if p.Some? then p.value else Image(names[i], 0))
  }

  /** The entries whose name is not among the given ones. */
  function Untouched(images: seq<Image>, names: seq<string>): seq<Image> {
    if images == [] then [] else
      Untouched(images[..|images| - 1], names) +
      if images[|images| - 1].name in names then [] else [images[|images| - 1]]
  }

  ghost function Added(existing: seq<Image>, images: seq<Image>): seq<Image> {
    Untouched(existing, NamesOf(images)) + Unique(images)
  }

  // ---------- the loops ----------

  /** The last entry of each name, in a map, with the names in the order they came. */
  method Deduplicate(images: seq<Image>) returns (unique: seq<Image>)
    ensures unique == Unique(images)
  {
    var imageMap: map<string, Image>, sequence: seq<string> := map[], [];
    for i := 0 to |images|
      invariant sequence == AddMissing([], NamesOf(images[..i]))
      invariant forall n :: n in imageMap <==> n in sequence
      invariant forall n :: n in imageMap ==> LastOf(images[..i], n) == Some(imageMap[n])
    {
      var image := images[i];
      assert images[..i + 1][..i] == images[..i];
      assert NamesOf(images[..i + 1])[..i] == NamesOf(images[..i]);
      if image.name !in imageMap {
        sequence := sequence + [image.name];
      }
      imageMap := imageMap[image.name := image];
    }
    assert images[..|images|] == images;
    unique := [];
    for i := 0 to |sequence|
      invariant unique == Picked(images, sequence[..i])
    {
      assert sequence[i] in imageMap;
      assert sequence[..i + 1] == sequence[..i] + [sequence[i]];
      unique := unique + [imageMap[sequence[i]]];
    }
    assert sequence[..|sequence|] == sequence;
  }

  method HasName(images: seq<Image>, name: string) returns (found: bool)
    ensures found <==> name in NamesOf(images)
  {
    found := false;
    for i := 0 to |images|
      invariant !found && name !in NamesOf(images)[..i]
    {
      if images[i].name == name {
        found := true;
        assert NamesOf(images)[i] == name;
        break;
      }
    }
  }

  class Kustomization {
    var images: seq<Image>

    constructor (i: seq<Image>)
      ensures images == i
    {
      images := i;
    }

    method AddImages(more: seq<Image>)
      modifies this
      ensures images == Added(old(images), more)
      ensures forall i: nat :: LastNamed(more, i) ==> Lookup(images, more[i].name) == Some(more[i])
      ensures forall i: nat :: FirstNamed(old(images), i) && old(images)[i].name !in NamesOf(more) ==>
                Lookup(images, old(images)[i].name) == Some(old(images)[i])
    {
      var unique := Deduplicate(more);
      UniqueNames(more);
      var newImages := [];
      for i := 0 to |images|
        invariant images == old(images)
        invariant newImages == Untouched(images[..i], NamesOf(more))
      {
        assert images[..i + 1][..i] == images[..i];
        var found := HasName(unique, images[i].name);
        if !found {
          newImages := newImages + [images[i]];
        }
      }
      assert images[..|images|] == images;
      images := newImages + unique;
      forall i: nat
        ensures LastNamed(more, i) ==> Lookup(images, more[i].name) == Some(more[i])
        ensures FirstNamed(old(images), i) && old(images)[i].name !in NamesOf(more) ==>
                  Lookup(images, old(images)[i].name) == Some(old(images)[i])
      {
        AddedEntry(old(images), more, i);
      }
    }
  }

  // ---------- what the result looks like ----------

  lemma UniqueNames(images: seq<Image>)
    ensures NamesOf(Unique(images)) == AddMissing([], NamesOf(images))
    ensures NoDup(NamesOf(Unique(images)))
    ensures forall n :: n in NamesOf(Unique(images)) <==> n in NamesOf(images)
  {
    var names := AddMissing([], NamesOf(images));
    AddMissingSpec([], NamesOf(images));
    forall i | 0 <= i < |names| ensures Unique(images)[i].name == names[i] {
      LastOfNamed(images, names[i]);
    }
    assert NamesOf(Unique(images)) == names;
  }

  lemma {:induction false} LookupAppend(a: seq<Image>, b: seq<Image>, n: string)
    ensures Lookup(a + b, n) == if Lookup(a, n).Some? then Lookup(a, n) else Lookup(b, n)
  {
    if a == [] {
      assert a + b == b;
    } else {
      assert (a + b)[1..] == a[1..] + b;
      LookupAppend(a[1..], b, n);
    }
  }

  lemma {:induction false} LookupAt(a: seq<Image>, i: nat)
    requires i < |a| && NoDup(NamesOf(a))
    ensures Lookup(a, a[i].name) == Some(a[i])
    decreases i
  {
    if i > 0 {
      assert NamesOf(a)[0] != NamesOf(a)[i];
      assert NamesOf(a[1..]) == NamesOf(a)[1..];
      LookupAt(a[1..], i - 1);
    }
  }

  lemma {:induction false} LookupNone(a: seq<Image>, n: string)
    requires n !in NamesOf(a)
    ensures Lookup(a, n) == None
  {
    if a != [] {
      assert NamesOf(a)[0] == a[0].name;
      assert NamesOf(a[1..]) == NamesOf(a)[1..];
      LookupNone(a[1..], n);
    }
  }

  lemma LookupUnique(images: seq<Image>, n: string)
    ensures Lookup(Unique(images), n) == LastOf(images, n)
  {
    UniqueNames(images);
    LastOfNamed(images, n);
    var u := Unique(images);
    if n in NamesOf(images) {
      var i :| 0 <= i < |NamesOf(u)| && NamesOf(u)[i] == n;
      LookupAt(u, i);
    } else {
      LookupNone(u, n);
    }
  }

  lemma {:induction false} LookupUntouched(images: seq<Image>, names: seq<string>, n: string)
    ensures Lookup(Untouched(images, names), n) == if n in names then None else Lookup(images, n)
  {
    if images != [] {
      var init, last := images[..|images| - 1], images[|images| - 1];
      LookupUntouched(init, names, n);
      assert images == init + [last];
      LookupAppend(init, [last], n);
      if last.name in names {
        assert Untouched(images, names) == Untouched(init, names);
      } else {
        LookupAppend(Untouched(init, names), [last], n);
      }
    }
  }

  /** Adding images overrides what was looked up by the last entry of each name that is added, and
      leaves the lookup of every other name alone. */
  lemma AddedLookup(existing: seq<Image>, images: seq<Image>, n: string)
    ensures Lookup(Added(existing, images), n) ==
            if LastOf(images, n).Some? then LastOf(images, n) else Lookup(existing, n)
  {
    LookupAppend(Untouched(existing, NamesOf(images)), Unique(images), n);
    LookupUntouched(existing, NamesOf(images), n);
    LookupUnique(images, n);
    LastOfNamed(images, n);
  }

  /** Entry i of the list is the last one with its name. */
  predicate LastNamed(images: seq<Image>, i: nat) {
    i < |images| && forall j :: i < j < |images| ==> images[j].name != images[i].name
  }

  /** Entry i of the list is the first one with its name. */
  predicate FirstNamed(images: seq<Image>, i: nat) {
    i < |images| && forall j :: 0 <= j < i ==> images[j].name != images[i].name
  }

  lemma {:induction false} LastIsEntry(images: seq<Image>, i: nat)
    requires LastNamed(images, i)
    ensures LastOf(images, images[i].name) == Some(images[i])
    decreases images
  {
    var n := |images| - 1;
    if i < n {
      LastIsEntry(images[..n], i);
    }
  }

  lemma {:induction false} FirstIsEntry(images: seq<Image>, i: nat)
    requires FirstNamed(images, i)
    ensures Lookup(images, images[i].name) == Some(images[i])
    decreases images
  {
    if i > 0 {
      assert images[0].name != images[i].name;
      FirstIsEntry(images[1..], i - 1);
    }
  }

  /** Every image that is added, and not added again later under its name, is what is looked up, as it was
      given; where no image of a name is added, the first existing one still is. */
  lemma AddedEntry(existing: seq<Image>, images: seq<Image>, i: nat)
    ensures LastNamed(images, i) ==> Lookup(Added(existing, images), images[i].name) == Some(images[i])
    ensures FirstNamed(existing, i) && existing[i].name !in NamesOf(images) ==>
              Lookup(Added(existing, images), existing[i].name) == Some(existing[i])
  {
    if LastNamed(images, i) {
      AddedLookup(existing, images, images[i].name);
      LastIsEntry(images, i);
    }
    if FirstNamed(existing, i) && existing[i].name !in NamesOf(images) {
      AddedLookup(existing, images, existing[i].name);
      LastOfNamed(images, existing[i].name);
      FirstIsEntry(existing, i);
    }
  }

  lemma {:induction false} LastOfAppend(a: seq<Image>, b: seq<Image>, n: string)
    ensures LastOf(a + b, n) == if LastOf(b, n).Some? then LastOf(b, n) else LastOf(a, n)
    decreases b
  {
    if b == [] {
      assert a + b == a;
    } else {
      assert (a + b)[..|a + b| - 1] == a + b[..|b| - 1];
      LastOfAppend(a, b[..|b| - 1], n);
    }
  }

  /** Adding a and then b is looked up like adding a followed by b. */
  lemma AddedTwice(existing: seq<Image>, a: seq<Image>, b: seq<Image>, n: string)
    ensures Lookup(Added(Added(existing, a), b), n) == Lookup(Added(existing, a + b), n)
  {
    AddedLookup(Added(existing, a), b, n);
    AddedLookup(existing, a, n);
    AddedLookup(existing, a + b, n);
    LastOfAppend(a, b, n);
  }

  lemma {:induction false} UntouchedAppend(a: seq<Image>, b: seq<Image>, names: seq<string>)
    ensures Untouched(a + b, names) == Untouched(a, names) + Untouched(b, names)
    decreases b
  {
    if b == [] {
      assert a + b == a;
    } else {
      assert (a + b)[..|a + b| - 1] == a + b[..|b| - 1];
      UntouchedAppend(a, b[..|b| - 1], names);
    }
  }

  lemma {:induction false} UntouchedNone(images: seq<Image>, names: seq<string>)
    requires forall i :: 0 <= i < |images| ==> images[i].name in names
    ensures Untouched(images, names) == []
  {
    if images != [] {
      UntouchedNone(images[..|images| - 1], names);
    }
  }

  lemma {:induction false} UntouchedAgain(images: seq<Image>, names: seq<string>)
    ensures Untouched(Untouched(images, names), names) == Untouched(images, names)
  {
    if images != [] {
      var init, last := images[..|images| - 1], images[|images| - 1];
      UntouchedAgain(init, names);
      if last.name !in names {
        UntouchedAppend(Untouched(init, names), [last], names);
        assert Untouched([last], names) == [last];
      } else {
        assert Untouched(images, names) == Untouched(init, names);
      }
    }
  }

  /** The entries that are not overridden stay, in the order they had, and adding the same images again
      changes nothing. */
  lemma AddedAgain(existing: seq<Image>, images: seq<Image>)
    ensures Untouched(Added(existing, images), NamesOf(images)) == Untouched(existing, NamesOf(images))
    ensures Added(Added(existing, images), images) == Added(existing, images)
  {
    var names, u := NamesOf(images), Unique(images);
    UniqueNames(images);
    UntouchedAppend(Untouched(existing, names), u, names);
    UntouchedAgain(existing, names);
    forall i | 0 <= i < |u| ensures u[i].name in names {
      assert NamesOf(u)[i] in NamesOf(u);
    }
    UntouchedNone(u, names);
  }

  // ---------- duplicates ----------

  /** Every name that is repeated is among the given ones. */
  ghost predicate RepeatedOnlyIn(images: seq<Image>, names: seq<string>) {
    forall i, j :: 0 <= i < j < |images| && images[i].name == images[j].name ==> images[i].name in names
  }

  lemma {:induction false} UntouchedMembers(images: seq<Image>, names: seq<string>, n: string)
    ensures n in NamesOf(Untouched(images, names)) <==> n in NamesOf(images) && n !in names
  {
    if images != [] {
      var init, last := images[..|images| - 1], images[|images| - 1];
      UntouchedMembers(init, names, n);
      NamesSnoc(init, last);
      assert images == init + [last];
      if last.name !in names {
        NamesSnoc(Untouched(init, names), last);
      } else {
        assert Untouched(images, names) == Untouched(init, names);
      }
    }
  }

  lemma NamesSnoc(init: seq<Image>, last: Image)
    ensures NamesOf(init + [last]) == NamesOf(init) + [last.name]
  {
  }

  lemma NoDupSnoc<T>(s: seq<T>, x: T)
    ensures NoDup(s + [x]) <==> NoDup(s) && x !in s
  {
    var t := s + [x];
    if NoDup(t) {
      forall i, j | 0 <= i < j < |s| ensures s[i] != s[j] {
        assert t[i] != t[j];
      }
      forall i | 0 <= i < |s| ensures s[i] != x {
        assert t[i] != t[|s|];
      }
    }
  }

  lemma RepeatedSnoc(init: seq<Image>, last: Image, names: seq<string>)
    ensures RepeatedOnlyIn(init + [last], names) <==>
            RepeatedOnlyIn(init, names) && (last.name in NamesOf(init) ==> last.name in names)
  {
    var all := init + [last];
    if RepeatedOnlyIn(all, names) {
      forall i, j | 0 <= i < j < |init| && init[i].name == init[j].name ensures init[i].name in names {
        assert all[i] == init[i] && all[j] == init[j];
      }
      if last.name in NamesOf(init) {
        var i :| 0 <= i < |init| && NamesOf(init)[i] == last.name;
        assert all[i].name == all[|init|].name;
      }
    } else {
      var i, j :| 0 <= i < j < |all| && all[i].name == all[j].name && all[i].name !in names;
      if j == |init| {
        assert NamesOf(init)[i] == last.name;
      }
    }
  }

  lemma {:induction false} UntouchedNoDup(images: seq<Image>, names: seq<string>)
    ensures NoDup(NamesOf(Untouched(images, names))) <==> RepeatedOnlyIn(images, names)
  {
    if images != [] {
      var init, last := images[..|images| - 1], images[|images| - 1];
      UntouchedNoDup(init, names);
      assert images == init + [last];
      RepeatedSnoc(init, last, names);
      if last.name in names {
        assert Untouched(images, names) == Untouched(init, names);
      } else {
        NamesSnoc(Untouched(init, names), last);
        NoDupSnoc(NamesOf(Untouched(init, names)), last.name);
        UntouchedMembers(init, names, last.name);
      }
    }
  }

  /** No name is left twice exactly when every name that the existing images repeat is overridden. */
  lemma DuplicatesGoneIff(existing: seq<Image>, images: seq<Image>)
    ensures NoDup(NamesOf(Added(existing, images))) <==> RepeatedOnlyIn(existing, NamesOf(images))
  {
    var names := NamesOf(images);
    var kept, u := NamesOf(Untouched(existing, names)), NamesOf(Unique(images));
    assert NamesOf(Added(existing, images)) == kept + u;
    UntouchedNoDup(existing, names);
    UniqueNames(images);
    forall n ensures n in kept ==> n !in u {
      UntouchedMembers(existing, names, n);
    }
    NoDupConcat(kept, u);
  }

  lemma NoDupConcat<T>(a: seq<T>, b: seq<T>)
    requires NoDup(b) && forall x :: x in a ==> x !in b
    ensures NoDup(a + b) <==> NoDup(a)
  {
    if NoDup(a + b) {
      forall i, j | 0 <= i < j < |a| ensures a[i] != a[j] {
        assert (a + b)[i] != (a + b)[j];
      }
    }
    if NoDup(a) {
      forall i, j | 0 <= i < |a| <= j < |a + b| ensures (a + b)[i] != (a + b)[j] {
        assert a[i] in a && b[j - |a|] in b;
      }
    }
  }

  /** An image that is listed twice and not overridden is still listed twice. */
  lemma DuplicateStays(a: Image)
    ensures Added([a, a], []) == [a, a] && !NoDup(NamesOf([a, a]))
  {
    assert [a, a][..1] == [a] && [a][..0] == [];
    assert Untouched([a], NamesOf([])) == [a];
    assert Untouched([a, a], NamesOf([])) == [a, a];
    assert NamesOf([a, a])[0] == NamesOf([a, a])[1];
  }
}
