/**
 The `ancestor` filter's walk down the image graph (moby/daemon/list.go). The walk marks an image
 only after all its children, so an interrupted walk leaves a smaller but consistent set.
 */
module ImageAncestry {
  import opened Wrappers

  type ImageID = string

  /** The answers of the image service; `None` is a failed lookup. */
  type Children = ImageID -> Option<seq<ImageID>>

  predicate IsChild(children: Children, a: ImageID, b: ImageID) {
    children(a).Some? && b in children(a).value
  }

  /** A path of n child steps leads from a to b. */
  ghost predicate PathOf(children: Children, a: ImageID, b: ImageID, n: nat)
    decreases n
  {
    if n == 0 then a == b else exists c :: IsChild(children, a, c) && PathOf(children, c, b, n - 1)
  }

  ghost predicate Reachable(children: Children, a: ImageID, b: ImageID) {
    exists n: nat :: PathOf(children, a, b, n)
  }

  /** A path of at least one step. */
  ghost predicate LeadsTo(children: Children, a: ImageID, b: ImageID) {
    exists n: nat :: n > 0 && PathOf(children, a, b, n)
  }

  ghost predicate Acyclic(children: Children) {
    forall a: ImageID :: !LeadsTo(children, a, a)
  }

  /** The images known to the service; the graph is finite. */
  ghost predicate Universe(children: Children, nodes: set<ImageID>) {
    forall a, b :: a in nodes && IsChild(children, a, b) ==> b in nodes
  }

  /** Every marked image has been looked up and has all its children marked. */
  ghost predicate Closed(children: Children, images: set<ImageID>) {
    forall a :: a in images ==> children(a).Some? && forall b :: b in children(a).value ==> b in images
  }

  /** Every lookup below an image succeeds. */
  ghost predicate LooksUp(children: Children, a: ImageID) {
    forall b :: Reachable(children, a, b) ==> children(b).Some?
  }

  /** Everything below an image is marked. */
  ghost predicate Holds(children: Children, images: set<ImageID>, a: ImageID) {
    forall x :: Reachable(children, a, x) ==> x in images
  }

  /** The marks added lie below an image. */
  ghost predicate AddsOnlyBelow(children: Children, before: set<ImageID>, after: set<ImageID>, a: ImageID) {
    before <= after && forall x :: x in after ==> x in before || Reachable(children, a, x)
  }

  /** The first n of a list of images have been walked. */
  ghost predicate Walked(children: Children, images: set<ImageID>, kids: seq<ImageID>, n: nat)
    requires n <= |kids|
  {
    forall j :: 0 <= j < n ==> LooksUp(children, kids[j]) && Holds(children, images, kids[j])
  }

  lemma WalkedGrows(children: Children, before: set<ImageID>, after: set<ImageID>, kids: seq<ImageID>, n: nat)
    requires n < |kids| && Walked(children, before, kids, n) && before <= after
    requires LooksUp(children, kids[n]) && Holds(children, after, kids[n])
    ensures Walked(children, after, kids, n + 1)
  {
  }

  lemma {:induction false} PathsCompose(children: Children, a: ImageID, b: ImageID, c: ImageID, m: nat, n: nat)
    requires PathOf(children, a, b, m) && PathOf(children, b, c, n)
    ensures PathOf(children, a, c, m + n)
    decreases m
  {
    if m == 0 {
    } else {
      var d :| IsChild(children, a, d) && PathOf(children, d, b, m - 1);
      PathsCompose(children, d, b, c, m - 1, n);
    }
  }

  /** What is reachable: the image itself and whatever its children reach. */
  lemma ReachableUnfolds(children: Children, a: ImageID, b: ImageID)
    ensures Reachable(children, a, b) <==> a == b || exists c :: IsChild(children, a, c) && Reachable(children, c, b)
  {
    if a == b {
      assert PathOf(children, a, b, 0);
    }
    if c :| IsChild(children, a, c) && Reachable(children, c, b) {
      var n: nat :| PathOf(children, c, b, n);
      assert PathOf(children, a, b, n + 1);
    }
    if Reachable(children, a, b) && a != b {
      var n: nat :| PathOf(children, a, b, n);
      var c :| IsChild(children, a, c) && PathOf(children, c, b, n - 1);
    }
  }

  lemma BelowChild(children: Children, id: ImageID, kid: ImageID)
    requires IsChild(children, id, kid)
    ensures forall before, after ::
              AddsOnlyBelow(children, before, after, kid) ==> AddsOnlyBelow(children, before, after, id)
    ensures LooksUp(children, id) ==> LooksUp(children, kid)
  {
    forall x | Reachable(children, kid, x) ensures Reachable(children, id, x) {
      ReachableUnfolds(children, id, x);
    }
  }

  lemma BelowAllChildren(children: Children, id: ImageID, kids: seq<ImageID>, images: set<ImageID>)
    requires children(id) == Some(kids)
    requires Walked(children, images, kids, |kids|)
    ensures forall k :: k in kids ==> k in images
    ensures LooksUp(children, id) && Holds(children, images + {id}, id)
    ensures AddsOnlyBelow(children, images, images + {id}, id)
  {
    assert PathOf(children, id, id, 0);
    forall k | k in kids ensures k in images {
      assert PathOf(children, k, k, 0);
    }
    forall x | Reachable(children, id, x) ensures (x == id || x in images) && children(x).Some? {
      ReachableUnfolds(children, id, x);
    }
  }

  /** A closed set holds, and can look up, everything below its members. */
  lemma {:induction false} ClosedHoldsPaths(children: Children, images: set<ImageID>, a: ImageID, b: ImageID, n: nat)
    requires Closed(children, images) && a in images && PathOf(children, a, b, n)
    ensures b in images && children(b).Some?
    decreases n
  {
    if n == 0 {
    } else {
      var c :| IsChild(children, a, c) && PathOf(children, c, b, n - 1);
      ClosedHoldsPaths(children, images, c, b, n - 1);
    }
  }

  lemma ClosedHoldsReachable(children: Children, images: set<ImageID>, a: ImageID)
    requires Closed(children, images) && a in images
    ensures Holds(children, images, a) && LooksUp(children, a)
  {
    forall b | Reachable(children, a, b) ensures b in images && children(b).Some? {
      var n: nat :| PathOf(children, a, b, n);
      ClosedHoldsPaths(children, images, a, b, n);
    }
  }

  class ImageFilter {
    var images: set<ImageID>

    constructor ()
      ensures images == {}
    {
      images := {};
    }

    /**
     The recursive walk. `stack` holds the images whose calls are under way; on an acyclic graph the
     next image is never among them, which bounds the depth by the number of images.
     */
    method Populate(id: ImageID, children: Children, ghost nodes: set<ImageID>, ghost stack: set<ImageID>)
      returns (ok: bool)
      requires Acyclic(children) && Universe(children, nodes) && id in nodes
      requires stack <= nodes && forall s :: s in stack ==> LeadsTo(children, s, id)
      requires Closed(children, images)
      modifies this
      ensures Closed(children, images) && AddsOnlyBelow(children, old(images), images, id)
      ensures ok <==> LooksUp(children, id)
      ensures ok ==> Holds(children, images, id)
      decreases |nodes - stack|
    {
      if id in images {
        ClosedHoldsReachable(children, images, id);
        return true;
      }
      assert id !in stack;
      assert nodes - (stack + {id}) < nodes - stack;
      SmallerSet(nodes - (stack + {id}), nodes - stack);
      assert PathOf(children, id, id, 0) && Reachable(children, id, id);
      if children(id).None? {
        return false;
      }
      var kids := children(id).value;
      var i := 0;
      while i < |kids|
        invariant 0 <= i <= |kids|
        invariant Closed(children, images) && AddsOnlyBelow(children, old(images), images, id)
        invariant Walked(children, images, kids, i)
      {
        var kid := kids[i];
        assert IsChild(children, id, kid);
        forall s | s in stack + {id} ensures LeadsTo(children, s, kid) {
          StepOn(children, s, id, kid, stack);
        }
        ghost var was := images;
        ok := Populate(kid, children, nodes, stack + {id});
        BelowChild(children, id, kid);
        if !ok {
          return false;
        }
        WalkedGrows(children, was, images, kids, i);
        i := i + 1;
      }
      BelowAllChildren(children, id, kids, images);
      images := images + {id};
      return true;
    }

    /** All values of the filter: unresolved ones are skipped, images already marked are not walked again. */
    method FoldAncestors(ancestors: seq<Option<ImageID>>, children: Children, ghost nodes: set<ImageID>)
      returns (ok: bool)
      requires Acyclic(children) && Universe(children, nodes)
      requires forall i :: 0 <= i < |ancestors| && ancestors[i].Some? ==> ancestors[i].value in nodes
      requires images == {}
      modifies this
      ensures Closed(children, images)
      ensures ok <==> AllLookUp(children, ancestors)
      ensures ok ==> forall x :: x in images <==> DescendsFrom(children, ancestors, x)
      ensures forall x :: x in images ==> DescendsFrom(children, ancestors, x)
    {
      var i := 0;
      while i < |ancestors|
        invariant 0 <= i <= |ancestors|
        invariant Closed(children, images)
        invariant forall x :: x in images ==> DescendsFrom(children, ancestors, x)
        invariant forall j :: 0 <= j < i && ancestors[j].Some? ==>
                    LooksUp(children, ancestors[j].value) && Holds(children, images, ancestors[j].value)
      {
        if ancestors[i].Some? {
          if ancestors[i].value in images {
            ClosedHoldsReachable(children, images, ancestors[i].value);
          } else {
            var good := Populate(ancestors[i].value, children, nodes, {});
            if !good {
              return false;
            }
          }
        }
        i := i + 1;
      }
      return true;
    }
  }

  /** No lookup below any of the ancestors fails. */
  ghost predicate AllLookUp(children: Children, ancestors: seq<Option<ImageID>>) {
    forall i :: 0 <= i < |ancestors| && ancestors[i].Some? ==> LooksUp(children, ancestors[i].value)
  }

  /** The image is one of the ancestors or below one. */
  ghost predicate DescendsFrom(children: Children, ancestors: seq<Option<ImageID>>, x: ImageID) {
    exists i :: 0 <= i < |ancestors| && ancestors[i].Some? && Reachable(children, ancestors[i].value, x)
  }

  lemma SmallerSet<T>(a: set<T>, b: set<T>)
    requires a < b
    ensures |a| < |b|
  {
    var x :| x in b && x !in a;
    assert a <= b - {x};
    SubsetSize(a, b - {x});
  }

  lemma SubsetSize<T>(a: set<T>, b: set<T>)
    requires a <= b
    ensures |a| <= |b|
  {
    if a == {} {
    } else {
      var x :| x in a;
      SubsetSize(a - {x}, b - {x});
    }
  }

  lemma StepOn(children: Children, s: ImageID, id: ImageID, kid: ImageID, stack: set<ImageID>)
    requires s in stack + {id} && IsChild(children, id, kid)
    requires forall s :: s in stack ==> LeadsTo(children, s, id)
    ensures LeadsTo(children, s, kid)
  {
    assert PathOf(children, kid, kid, 0);
    assert PathOf(children, id, kid, 1);
    if s != id {
      var n: nat :| n > 0 && PathOf(children, s, id, n);
      PathsCompose(children, s, id, kid, n, 1);
      assert PathOf(children, s, kid, n + 1);
    }
  }
}
