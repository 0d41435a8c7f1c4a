/** Listing by ancestor image (moby/daemon/list.go): the image walk and the listing together. */
module AncestorListing {
  import opened Wrappers
  import opened ContainerList
  import ImageAncestry

  lemma {:induction false} AfterBeforeIsPart(before: Option<string>, list: seq<Snapshot>)
    ensures forall c :: c in AfterBefore(before, list) ==> c in list
  {
    if before.Some? && list != [] {
      AfterBeforeIsPart(before, list[1..]);
    }
  }

  lemma {:induction false} UntilSinceIsPart(since: Option<string>, list: seq<Snapshot>)
    ensures forall c :: c in UntilSince(since, list) ==> c in list
  {
    if list != [] && since != Some(list[0].id) {
      UntilSinceIsPart(since, list[1..]);
    }
  }

  lemma AnswerMatches(q: Query, before: Option<string>, list: seq<Snapshot>, k: nat)
    requires k < |Answer(q, before, list)|
    ensures Answer(q, before, list)[k] in list && Matches(q, Answer(q, before, list)[k])
  {
    var window := UntilSince(q.since, AfterBefore(before, list));
    MatchingMembers(q, window, Matching(q, window)[k]);
    AfterBeforeIsPart(before, list);
    UntilSinceIsPart(q.since, AfterBefore(before, list));
  }

  /**
   `docker ps --filter ancestor=...`: when the walk succeeds, the answer is that of the query whose image
   set is exactly the descendants of the named images, so every container shown runs one of them. It fails
   if a lookup below one of the images does, and otherwise exactly if the size of a container shown is not found.
   */
  method ContainersByAncestor(list: seq<Snapshot>, query: Query, before: Option<string>,
                              ancestors: seq<Option<string>>, children: ImageAncestry.Children,
                              ghost nodes: set<string>, service: ImageService)
    returns (r: Result<seq<Summary>, ()>, ghost images: set<string>)
    requires ImageAncestry.Acyclic(children) && ImageAncestry.Universe(children, nodes)
    requires forall i :: 0 <= i < |ancestors| && ancestors[i].Some? ==> ancestors[i].value in nodes
    ensures !ImageAncestry.AllLookUp(children, ancestors) ==> r.Err?
    ensures ImageAncestry.AllLookUp(children, ancestors) ==>
              && (forall x :: x in images <==> ImageAncestry.DescendsFrom(children, ancestors, x))
              && var expected := Answer(query.(ancestorFilter := true, images := images), before, list);
              && (r.Err? <==> SomeJobFails(query, service, expected))
              && (r.Ok? ==>
                    && |r.value| == |expected|
                    && forall k :: 0 <= k < |expected| ==>
                         && IsSummaryOf(query, service, r.value[k], expected[k]) && expected[k] in list
                         && ImageAncestry.DescendsFrom(children, ancestors, expected[k].imageID))
  {
    var filter := new ImageAncestry.ImageFilter();
    var ok := filter.FoldAncestors(ancestors, children, nodes);
    images := filter.images;
    if !ok {
      return Err(()), images;
    }
    var q := query.(ancestorFilter := true, images := filter.images);
    var ctx := new ListContext(q, before);
    r := Containers(list, ctx, service);
    if r.Ok? {
      ghost var expected := Answer(q, before, list);
      forall k | 0 <= k < |expected|
        ensures expected[k] in list && ImageAncestry.DescendsFrom(children, ancestors, expected[k].imageID)
      {
        AnswerMatches(q, before, list, k);
      }
    }
  }
}
