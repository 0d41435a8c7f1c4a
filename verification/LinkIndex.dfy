/**
 The index of legacy links between containers (moby/daemon/links.go) and what renaming a
 container does to it (moby/daemon/rename.go).
 */
module LinkIndex {
  /** A container's identity. */
  datatype Container = Container(id: nat)

  /** A reverse entry: the child knows that this parent uses this alias for it. */
  datatype Entry = Entry(child: Container, parent: Container, alias: string)

  /** Both indexes as relations: forward (parent, alias) to child, and the set of reverse entries. */
  datatype Links = Links(forward: imap<(Container, string), Container>, reverse: iset<Entry>)

  ghost function Linked(l: Links, parent: Container, child: Container, alias: string): Links {
    Links(l.forward[(parent, alias) := child], l.reverse + iset{Entry(child, parent, alias)})
  }

  /** Removes one forward entry, and all reverse entries of the pair. */
  ghost function Unlinked(l: Links, alias: string, child: Container, parent: Container): Links {
    Links(l.forward - {(parent, alias)}, iset e | e in l.reverse && !(e.child == child && e.parent == parent))
  }

  ghost predicate PointsAt(l: Links, parent: Container, alias: string, child: Container) {
    (parent, alias) in l.forward && l.forward[(parent, alias)] == child
  }

  ghost predicate IsParentOf(l: Links, parent: Container, child: Container) {
    exists k :: k in l.forward && k.0 == parent && l.forward[k] == child
  }

  /** Clears the container's own forward table, its children's entries about it, and its own reverse table. */
  ghost function Deleted(l: Links, x: Container): Links {
    Links(imap k | k in l.forward && k.0 != x :: l.forward[k],
          iset e | e in l.reverse && e.child != x && !(e.parent == x && IsParentOf(l, x, e.child)))
  }

  // ---- the code ----

  type Forward = map<Container, map<string, Container>>

  type Reverse = map<Container, map<Container, set<string>>>

  ghost function ForwardOf(idx: Forward): imap<(Container, string), Container> {
    imap k: (Container, string) | k.0 in idx && k.1 in idx[k.0] :: idx[k.0][k.1]
  }

  ghost function ReverseOf(childIdx: Reverse): iset<Entry> {
    iset e: Entry | HasEntry(childIdx, e.child, e.parent, e.alias)
  }

  predicate HasEntry(childIdx: Reverse, c: Container, p: Container, a: string) {
    c in childIdx && p in childIdx[c] && a in childIdx[c][p]
  }

  /** A nested table read like Go's nil map: a missing row is empty. */
  function Row<K, V>(t: map<Container, map<K, V>>, x: Container): map<K, V> {
    if x in t then t[x] else map[]
  }

  lemma ForwardPut(idx: Forward, p: Container, a: string, c: Container)
    ensures ForwardOf(idx[p := Row(idx, p)[a := c]]) == ForwardOf(idx)[(p, a) := c]
  {
  }

  lemma ForwardRemove(idx: Forward, p: Container, a: string)
    requires p in idx
    ensures ForwardOf(idx[p := idx[p] - {a}]) == ForwardOf(idx) - {(p, a)}
  {
  }

  lemma ReversePut(childIdx: Reverse, c: Container, p: Container, a: string)
    ensures var row := Row(childIdx, c);
            ReverseOf(childIdx[c := row[p := (if p in row then row[p] else {}) + {a}]]) ==
            ReverseOf(childIdx) + iset{Entry(c, p, a)}
  {
  }

  lemma ReverseRemove(childIdx: Reverse, c: Container, p: Container)
    requires c in childIdx
    ensures ReverseOf(childIdx[c := childIdx[c] - {p}]) ==
            iset e | e in ReverseOf(childIdx) && !(e.child == c && e.parent == p)
  {
  }

  class Index {
    var idx: Forward
    var childIdx: Reverse

    ghost function View(): Links
      reads this
    {
      Links(ForwardOf(idx), ReverseOf(childIdx))
    }

    constructor ()
      ensures View() == Links(imap[], iset{})
    {
      idx, childIdx := map[], map[];
    }

    method Link(parent: Container, child: Container, alias: string)
      modifies this
      ensures View() == Linked(old(View()), parent, child, alias)
    {
      ForwardPut(idx, parent, alias, child);
      ReversePut(childIdx, child, parent, alias);
      idx := idx[parent := Row(idx, parent)[alias := child]];
      var row := Row(childIdx, child);
      var aliases := if parent in row then row[parent] else {};
      childIdx := childIdx[child := row[parent := aliases + {alias}]];
    }

    method Unlink(alias: string, child: Container, parent: Container)
      modifies this
      ensures View() == Unlinked(old(View()), alias, child, parent)
    {
      if parent in idx {
        ForwardRemove(idx, parent, alias);
        idx := idx[parent := idx[parent] - {alias}];
      }
      if child in childIdx {
        ReverseRemove(childIdx, child, parent);
        childIdx := childIdx[child := childIdx[child] - {parent}];
      }
    }

    method Children(parent: Container) returns (m: map<string, Container>)
      ensures forall a, c :: a in m && m[a] == c <==> PointsAt(View(), parent, a, c)
    {
      m := if parent in idx then idx[parent] else map[];
    }

    /** Where several parents use one alias, one of them is returned. */
    method Parents(child: Container) returns (m: map<string, Container>)
      ensures forall a :: a in m ==> Entry(child, m[a], a) in View().reverse
      ensures forall e :: e in View().reverse && e.child == child ==> e.alias in m
    {
      m := map[];
      if child in childIdx {
        var known := childIdx[child];
        var todo := known.Keys;
        while todo != {}
          invariant todo <= known.Keys
          invariant forall a :: a in m ==> m[a] in known && a in known[m[a]]
          invariant forall p, a :: p in known && p !in todo && a in known[p] ==> a in m
          decreases |todo|
        {
          var p :| p in todo;
          var aliases := known[p];
          while aliases != {}
            invariant aliases <= known[p]
            invariant forall a :: a in m ==> m[a] in known && a in known[m[a]]
            invariant forall q, a :: q in known && q !in todo && a in known[q] ==> a in m
            invariant forall a :: a in known[p] && a !in aliases ==> a in m
            decreases |aliases|
          {
            var a :| a in aliases;
            m := m[a := p];
            aliases := aliases - {a};
          }
          todo := todo - {p};
        }
      }
    }

    /** Removes a container and returns the aliases it had given to others. */
    method Delete(x: Container) returns (aliases: seq<string>)
      modifies this
      ensures View() == Deleted(old(View()), x)
      ensures forall a :: a in aliases <==> (x, a) in old(View()).forward
      ensures forall i, j :: 0 <= i < j < |aliases| ==> aliases[i] != aliases[j]
    {
      aliases := [];
      var own := Row(idx, x);
      var todo := own.Keys;
      while todo != {}
        invariant todo <= own.Keys && idx == old(idx)
        invariant forall a :: a in aliases <==> a in own && a !in todo
        invariant forall i, j :: 0 <= i < j < |aliases| ==> aliases[i] != aliases[j]
        invariant ReverseOf(childIdx) == Without(ReverseOf(old(childIdx)), x, own, todo)
        decreases |todo|
      {
        var alias :| alias in todo;
        aliases := aliases + [alias];
        var child := own[alias];
        WithoutStep(ReverseOf(old(childIdx)), x, own, todo, alias);
        if child in childIdx {
          ReverseRemove(childIdx, child, x);
          childIdx := childIdx[child := childIdx[child] - {x}];
        }
        todo := todo - {alias};
      }
      DropRow(idx, childIdx, x);
      DeletedIsWithout(old(View()), x, own);
      idx := idx - {x};
      childIdx := childIdx - {x};
    }
  }

  /** One of the children already seen. */
  predicate Seen(own: map<string, Container>, todo: set<string>, c: Container) {
    exists b :: b in own && b !in todo && own[b] == c
  }

  ghost function Without(reverse: iset<Entry>, x: Container, own: map<string, Container>, todo: set<string>)
    : iset<Entry>
  {
    iset e | e in reverse && !(e.parent == x && Seen(own, todo, e.child))
  }

  lemma WithoutStep(reverse: iset<Entry>, x: Container, own: map<string, Container>, todo: set<string>, alias: string)
    requires alias in todo && alias in own
    ensures Without(reverse, x, own, todo - {alias}) ==
            iset e | e in Without(reverse, x, own, todo) && !(e.child == own[alias] && e.parent == x)
  {
  }

  lemma DropRow(idx: Forward, childIdx: Reverse, x: Container)
    ensures ForwardOf(idx - {x}) == imap k | k in ForwardOf(idx) && k.0 != x :: ForwardOf(idx)[k]
    ensures ReverseOf(childIdx - {x}) == iset e | e in ReverseOf(childIdx) && e.child != x
  {
  }

  lemma DeletedIsWithout(l: Links, x: Container, own: map<string, Container>)
    requires forall a :: a in own <==> (x, a) in l.forward
    requires forall a :: a in own ==> l.forward[(x, a)] == own[a]
    ensures Deleted(l, x).reverse == iset e | e in Without(l.reverse, x, own, {}) && e.child != x
  {
  }

  // ---- reverse entries are backed by forward ones ----

  ghost predicate Backed(l: Links) {
    forall e :: e in l.reverse ==> PointsAt(l, e.parent, e.alias, e.child)
  }

  /** No other child has a reverse entry for this parent's alias. */
  ghost predicate NoOtherChild(l: Links, parent: Container, alias: string, child: Container) {
    forall e :: e in l.reverse && e.parent == parent && e.alias == alias ==> e.child == child
  }

  /** Linking keeps the indexes backed exactly when it does not re-point a recorded alias. */
  lemma LinkKeepsBacked(l: Links, parent: Container, child: Container, alias: string)
    requires Backed(l)
    ensures Backed(Linked(l, parent, child, alias)) <==> NoOtherChild(l, parent, alias, child)
  {
  }

  /** Unlinking keeps the indexes backed exactly when it names the child recorded for the alias. */
  lemma UnlinkKeepsBacked(l: Links, alias: string, child: Container, parent: Container)
    requires Backed(l)
    ensures Backed(Unlinked(l, alias, child, parent)) <==> NoOtherChild(l, parent, alias, child)
  {
  }

  /** Deleting always keeps them backed, and leaves the container nowhere in the reverse index. */
  lemma DeleteKeepsBacked(l: Links, x: Container)
    requires Backed(l)
    ensures Backed(Deleted(l, x))
    ensures forall e :: e in Deleted(l, x).reverse ==> e.child != x && e.parent != x
    ensures forall k :: k in Deleted(l, x).forward ==> k.0 != x
  {
  }

  // ---- runs of index operations ----

  datatype Op =
    | OpLink(parent: Container, child: Container, alias: string)
    | OpUnlink(alias: string, child: Container, parent: Container)
    | OpDelete(x: Container)

  ghost function Changed(l: Links, op: Op): Links {
    match op
    case OpLink(p, c, a) => Linked(l, p, c, a)
    case OpUnlink(a, c, p) => Unlinked(l, a, c, p)
    case OpDelete(x) => Deleted(l, x)
  }

  ghost function ChangedAll(l: Links, ops: seq<Op>): Links {
    if ops == [] then l else Changed(ChangedAll(l, ops[..|ops| - 1]), ops[|ops| - 1])
  }

  /** The operation does not touch an alias that the reverse index records for another child. */
  ghost predicate Respects(l: Links, op: Op) {
    match op
    case OpLink(p, c, a) => NoOtherChild(l, p, a, c)
    case OpUnlink(a, c, p) => NoOtherChild(l, p, a, c)
    case OpDelete(_) => true
  }

  ghost predicate AllRespect(l: Links, ops: seq<Op>) {
    ops == [] ||
    var init := ops[..|ops| - 1];
    AllRespect(l, init) && Respects(ChangedAll(l, init), ops[|ops| - 1])
  }

  /** The indexes are backed before the run and after each of its operations. */
  ghost predicate AlwaysBacked(l: Links, ops: seq<Op>) {
    Backed(ChangedAll(l, ops)) && (ops == [] || AlwaysBacked(l, ops[..|ops| - 1]))
  }

  lemma OpKeepsBacked(l: Links, op: Op)
    requires Backed(l)
    ensures Backed(Changed(l, op)) <==> Respects(l, op)
  {
    match op
    case OpLink(p, c, a) => LinkKeepsBacked(l, p, c, a);
    case OpUnlink(a, c, p) => UnlinkKeepsBacked(l, a, c, p);
    case OpDelete(x) => DeleteKeepsBacked(l, x);
  }

  lemma ChangedStep(l: Links, ops: seq<Op>, op: Op)
    ensures ChangedAll(l, ops + [op]) == Changed(ChangedAll(l, ops), op)
  {
    assert (ops + [op])[..|ops|] == ops;
  }

  /** In every run of operations: the indexes stay backed if and only if each operation respects what is recorded. */
  lemma {:induction false} BackedThroughout(l: Links, ops: seq<Op>)
    requires Backed(l)
    ensures AlwaysBacked(l, ops) <==> AllRespect(l, ops)
  {
    if ops == [] {
      assert ChangedAll(l, ops) == l;
    } else {
      var init := ops[..|ops| - 1];
      BackedThroughout(l, init);
      if Backed(ChangedAll(l, init)) {
        OpKeepsBacked(ChangedAll(l, init), ops[|ops| - 1]);
      }
    }
  }

  // ---- the reverse index as the exact inverse ----

  datatype History = History(links: Links, gone: set<Container>)

  ghost function Do(h: History, op: Op): History {
    History(Changed(h.links, op), if op.OpDelete? then h.gone + {op.x} else h.gone)
  }

  /** One alias per pair, aliases unique to their parent and child, and no link to or from the deleted. */
  ghost predicate Disciplined(h: History, op: Op) {
    match op
    case OpLink(p, c, a) =>
      && p !in h.gone && c !in h.gone
      && (forall b :: PointsAt(h.links, p, b, c) ==> b == a)
      && (forall k :: k in h.links.forward && k.1 == a ==>
            k.0 == p && (h.links.forward[k] == c || h.links.forward[k] in h.gone))
    case OpUnlink(a, c, p) => PointsAt(h.links, p, a, c)
    case OpDelete(_) => true
  }

  /** For children that still exist, both indexes say the same. */
  ghost predicate Exact(h: History) {
    forall c, p, a :: c !in h.gone ==> (Entry(c, p, a) in h.links.reverse <==> PointsAt(h.links, p, a, c))
  }

  ghost predicate OneAliasPerPair(h: History) {
    forall p, c, a, b :: c !in h.gone && PointsAt(h.links, p, a, c) && PointsAt(h.links, p, b, c) ==> a == b
  }

  ghost predicate AliasesUnique(h: History) {
    forall j, k :: j in h.links.forward && k in h.links.forward && j.1 == k.1 ==> j == k
  }

  ghost predicate Tidy(h: History) {
    && Exact(h) && OneAliasPerPair(h) && AliasesUnique(h)
    && forall e :: e in h.links.reverse ==> e.child !in h.gone
  }

  lemma LinkKeepsTidy(h: History, p: Container, c: Container, a: string)
    requires Tidy(h) && Disciplined(h, OpLink(p, c, a))
    ensures Tidy(Do(h, OpLink(p, c, a)))
  {
  }

  lemma UnlinkKeepsTidy(h: History, a: string, c: Container, p: Container)
    requires Tidy(h) && Disciplined(h, OpUnlink(a, c, p))
    ensures Tidy(Do(h, OpUnlink(a, c, p)))
  {
  }

  lemma DeleteKeepsTidy(h: History, x: Container)
    requires Tidy(h)
    ensures Tidy(Do(h, OpDelete(x)))
  {
  }

  ghost predicate DisciplinedRun(h: History, ops: seq<Op>)
    decreases |ops|
  {
    ops == [] || (Disciplined(h, ops[0]) && DisciplinedRun(Do(h, ops[0]), ops[1..]))
  }

  ghost function DoAll(h: History, ops: seq<Op>): History
    decreases |ops|
  {
    if ops == [] then h else DoAll(Do(h, ops[0]), ops[1..])
  }

  /** In every disciplined run, the reverse index is the exact inverse of the forward one. */
  lemma {:induction false} DisciplinedRunsStayTidy(h: History, ops: seq<Op>)
    requires Tidy(h) && DisciplinedRun(h, ops)
    ensures Tidy(DoAll(h, ops))
    decreases |ops|
  {
    if ops == [] {
    } else {
      match ops[0] {
        case OpLink(p, c, a) => LinkKeepsTidy(h, p, c, a);
        case OpUnlink(a, c, p) => UnlinkKeepsTidy(h, a, c, p);
        case OpDelete(x) => DeleteKeepsTidy(h, x);
      }
      DisciplinedRunsStayTidy(Do(h, ops[0]), ops[1..]);
    }
  }

  /** What `Parents` then returns: for an existing child, exactly its aliases with the parents that use them. */
  lemma ParentsInvertChildren(h: History, child: Container, m: map<string, Container>)
    requires Tidy(h) && child !in h.gone
    requires forall a :: a in m ==> Entry(child, m[a], a) in h.links.reverse
    requires forall e :: e in h.links.reverse && e.child == child ==> e.alias in m
    ensures forall p, a :: (a in m && m[a] == p) <==> PointsAt(h.links, p, a, child)
  {
  }

  // ---- renaming ----

  /** The links after a rename: the container's aliases are respelled, and its children forget it. */
  ghost predicate IsRenamed(l: Links, x: Container, links: map<string, Container>,
                            oldName: string, newName: string, m: Links)
  {
    && (forall k :: k in links ==> PointsAt(m, x, newName + k, links[k]))
    && (forall k :: k in links ==> (x, oldName + k) !in m.forward)
    && (forall j :: j in m.forward && !(exists k :: k in links && j == (x, newName + k)) ==>
          j in l.forward && m.forward[j] == l.forward[j])
    && (forall j :: j in l.forward && j.0 != x ==> j in m.forward)
    && (forall e :: e in m.reverse <==> e in l.reverse && !(e.parent == x && e.child in links.Values))
  }

  /** Some suffixes have been linked under the new name. */
  ghost predicate Relinked(l: Links, x: Container, links: map<string, Container>,
                           newName: string, todo: set<string>, m: Links)
  {
    && (forall k :: k in links && k !in todo ==> PointsAt(m, x, newName + k, links[k]))
    && (forall j :: j in l.forward ==> j in m.forward)
    && (forall j :: j in m.forward && !(exists k :: k in links && j == (x, newName + k)) ==>
          j in l.forward && m.forward[j] == l.forward[j])
    && l.reverse <= m.reverse
    && (forall e :: e in m.reverse && e !in l.reverse ==> e.parent == x && e.child in links.Values)
  }

  lemma RelinkStep(l: Links, x: Container, links: map<string, Container>,
                   newName: string, todo: set<string>, m: Links, k: string)
    requires Relinked(l, x, links, newName, todo, m) && k in todo && k in links
    ensures Relinked(l, x, links, newName, todo - {k}, Linked(m, x, links[k], newName + k))
  {
    var n := Linked(m, x, links[k], newName + k);
    forall j | j in links && j !in todo - {k} ensures PointsAt(n, x, newName + j, links[j]) {
      assert (newName + j)[|newName|..] == j && (newName + k)[|newName|..] == k;
    }
  }

  /** Some suffixes have been unlinked under the old name. */
  ghost function Unlinking(m: Links, x: Container, links: map<string, Container>, oldName: string, todo: set<string>)
    : Links
  {
    Links(imap j | j in m.forward && !(exists k :: k in links && k !in todo && j == (x, oldName + k)) :: m.forward[j],
          iset e | e in m.reverse && !(e.parent == x && Seen(links, todo, e.child)))
  }

  lemma UnlinkingStep(m: Links, x: Container, links: map<string, Container>,
                      oldName: string, todo: set<string>, k: string)
    requires k in todo && k in links
    ensures Unlinked(Unlinking(m, x, links, oldName, todo), oldName + k, links[k], x) ==
            Unlinking(m, x, links, oldName, todo - {k})
  {
  }

  lemma RenamedAtLast(l: Links, x: Container, links: map<string, Container>, oldName: string, newName: string, m: Links)
    requires Relinked(l, x, links, newName, {}, m)
    requires forall j, k :: j in links && k in links ==> newName + j != oldName + k
    ensures IsRenamed(l, x, links, oldName, newName, Unlinking(m, x, links, oldName, {}))
  {
  }

  method RelinkAll(index: Index, x: Container, newName: string, links: map<string, Container>)
    modifies index
    ensures Relinked(old(index.View()), x, links, newName, {}, index.View())
  {
    ghost var before, cur := index.View(), index.View();
    var todo := links.Keys;
    while todo != {}
      invariant todo <= links.Keys && cur == index.View()
      invariant Relinked(before, x, links, newName, todo, cur)
      decreases |todo|
    {
      var k :| k in todo;
      RelinkStep(before, x, links, newName, todo, cur, k);
      index.Link(x, links[k], newName + k);
      cur := Linked(cur, x, links[k], newName + k);
      todo := todo - {k};
    }
  }

  method UnlinkAll(index: Index, x: Container, oldName: string, links: map<string, Container>)
    modifies index
    ensures index.View() == Unlinking(old(index.View()), x, links, oldName, {})
  {
    ghost var before, cur := index.View(), index.View();
    var todo := links.Keys;
    assert Unlinking(before, x, links, oldName, todo) == before;
    while todo != {}
      invariant todo <= links.Keys && cur == index.View()
      invariant cur == Unlinking(before, x, links, oldName, todo)
      decreases |todo|
    {
      var k :| k in todo;
      UnlinkingStep(before, x, links, oldName, todo, k);
      index.Unlink(oldName + k, links[k], x);
      cur := Unlinked(cur, oldName + k, links[k], x);
      todo := todo - {k};
    }
  }

  /** The part of ContainerRename that moves the links over to the new name. */
  method Rename(index: Index, x: Container, oldName: string, newName: string, links: map<string, Container>)
    requires forall j, k :: j in links && k in links ==> newName + j != oldName + k
    modifies index
    ensures IsRenamed(old(index.View()), x, links, oldName, newName, index.View())
  {
    ghost var before := index.View();
    RelinkAll(index, x, newName, links);
    RenamedAtLast(before, x, links, oldName, newName, index.View());
    UnlinkAll(index, x, oldName, links);
  }

  /** Renaming a container keeps the indexes exact only if none of the containers it links to still exists. */
  lemma RenameLosesReverseEntries(h: History, x: Container, links: map<string, Container>,
                                  oldName: string, newName: string, m: Links)
    requires Exact(h)
    requires forall k :: k in links ==> PointsAt(h.links, x, oldName + k, links[k])
    requires forall a, c :: PointsAt(h.links, x, a, c) ==> exists k :: k in links && a == oldName + k
    requires IsRenamed(h.links, x, links, oldName, newName, m)
    ensures Exact(History(m, h.gone)) <==> links.Values <= h.gone
  {
  }

  /** The smallest case: renaming a container with one link makes the child forget its parent. */
  method RenameForgetsParent(x: Container, c: Container)
    returns (children: map<string, Container>, parents: map<string, Container>)
    ensures children == map["/y/db" := c] && parents == map[]
  {
    var index := new Index();
    index.Link(x, c, "/x/db");
    RenameOneLink(index, x, c);
    children := index.Children(x);
    assert PointsAt(index.View(), x, "/y/db", c);
    forall a | a in children ensures a == "/y/db" && children[a] == c {
      assert PointsAt(index.View(), x, a, children[a]);
    }
    parents := index.Parents(c);
    assert parents.Keys == {};
  }

  method RenameOneLink(index: Index, x: Container, c: Container)
    requires index.View() == Linked(Links(imap[], iset{}), x, c, "/x/db")
    modifies index
    ensures forall a, d :: PointsAt(index.View(), x, a, d) <==> a == "/y/db" && d == c
    ensures index.View().reverse == iset{}
  {
    assert "/y" + "/db" != "/x" + "/db" by { assert ("/y" + "/db")[1] != ("/x" + "/db")[1]; }
    Rename(index, x, "/x", "/y", map["/db" := c]);
    OneLinkRenamed(x, c, index.View());
  }

  lemma OneLinkRenamed(x: Container, c: Container, m: Links)
    requires IsRenamed(Linked(Links(imap[], iset{}), x, c, "/x/db"), x, map["/db" := c], "/x", "/y", m)
    ensures forall a, d :: PointsAt(m, x, a, d) <==> a == "/y/db" && d == c
    ensures m.reverse == iset{}
  {
    var links := map["/db" := c];
    assert "/x" + "/db" == "/x/db" && "/y" + "/db" == "/y/db";
    assert "/db" in links && c in links.Values;
    assert (x, "/x" + "/db") !in m.forward && PointsAt(m, x, "/y" + "/db", c);
    forall e ensures e !in m.reverse {
    }
  }
}
