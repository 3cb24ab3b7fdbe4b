/**
 * The node-map edits of `vectra-engine/src/lib.rs`: deleting a node with everything
 * below it (delete_node) and cloning a subtree under fresh ids (instantiate_template).
 *
 * A project is a map from id to node; a node may list the ids of its children. Both
 * operations walk the child lists with an explicit stack. That walk only ends when no
 * cycle is reachable from where it starts, so both require a ranking: a number per
 * reachable node that strictly decreases from a node to each of its children.
 * `Visits` is a reference traversal defined by recursion on that ranking, and
 * `Subtree` the set of ids it lists; `SubtreeClosed` and `SubtreeLeast` show that
 * this set is exactly the least set that holds the root and is closed under children.
 */
module Tree {
  import opened Wrappers

  /** A node: its id, its optional ordered list of child ids and the rest of its properties, passed through untouched. */
  datatype Node = Node(id: string, children: Option<seq<string>>, other: map<string, string>)

  type Project = map<string, Node>

  /** The child ids of `id` in `g`; an id that is not a node, or a node with no list, has none. */
  function Kids(g: Project, id: string): seq<string> {
    if id in g && g[id].children.Some? then g[id].children.value else []
  }

  // ---------------------------------------------------------------------------
  // Rankings and the reference traversal
  // ---------------------------------------------------------------------------

  /** Every child (that is a node) of a ranked node is ranked, strictly lower. */
  ghost predicate Ranked(g: Project, rank: map<string, nat>) {
    forall id, c :: id in rank && id in g && c in Kids(g, id) && c in g ==> c in rank && rank[c] < rank[id]
  }

  /** Every id of `ids` that is a node of `g` is ranked. */
  ghost predicate Covered(g: Project, rank: map<string, nat>, ids: seq<string>) {
    forall x :: x in ids && x in g ==> x in rank
  }

  /** No cycle can be reached from `root`: some ranking covers it. */
  ghost predicate AcyclicFrom(g: Project, root: string) {
    exists rank :: Ranked(g, rank) && Covered(g, rank, [root])
  }

  ghost function Level(g: Project, rank: map<string, nat>, id: string): nat {
    if id in g && id in rank then rank[id] + 1 else 0
  }

  /** The highest level among `ids`, 0 for none. */
  ghost function MaxLevel(g: Project, rank: map<string, nat>, ids: seq<string>): (m: nat)
    ensures forall x :: x in ids ==> Level(g, rank, x) <= m
  {
    if ids == [] then 0
    else
      var rest := MaxLevel(g, rank, ids[1..]);
      assert forall x :: x in ids ==> x == ids[0] || x in ids[1..];
      if Level(g, rank, ids[0]) > rest then Level(g, rank, ids[0]) else rest
  }

  lemma {:induction false} MaxLevelAtMost(g: Project, rank: map<string, nat>, ids: seq<string>, bound: nat)
    requires forall x :: x in ids ==> Level(g, rank, x) <= bound
    ensures MaxLevel(g, rank, ids) <= bound
  {
    if ids != [] {
      MaxLevelAtMost(g, rank, ids[1..], bound);
    }
  }

  /** The children of a covered node are covered and sit strictly below it. */
  lemma KidsBelow(g: Project, rank: map<string, nat>, id: string)
    requires Ranked(g, rank) && Covered(g, rank, [id])
    ensures Covered(g, rank, Kids(g, id))
    ensures id in g ==> MaxLevel(g, rank, Kids(g, id)) < Level(g, rank, id)
    ensures id !in g ==> Kids(g, id) == []
  {
    if id in g {
      MaxLevelAtMost(g, rank, Kids(g, id), rank[id]);
    }
  }

  /**
   * The reference traversal of `ids`: each id, followed by the traversal of its
   * children, followed by the traversal of the remaining ids. Ids that are not nodes
   * are listed but have no children.
   */
  ghost function Visits(g: Project, rank: map<string, nat>, ids: seq<string>): seq<string>
    requires Ranked(g, rank) && Covered(g, rank, ids)
    decreases MaxLevel(g, rank, ids), |ids|
  {
    if ids == [] then []
    else
      KidsBelow(g, rank, ids[0]);
      [ids[0]] + Visits(g, rank, Kids(g, ids[0])) + Visits(g, rank, ids[1..])
  }

  /** The traversal of a concatenation is the concatenation of the traversals. */
  lemma {:induction false} VisitsAppend(g: Project, rank: map<string, nat>, a: seq<string>, b: seq<string>)
    requires Ranked(g, rank) && Covered(g, rank, a) && Covered(g, rank, b)
    ensures Covered(g, rank, a + b)
    ensures Visits(g, rank, a + b) == Visits(g, rank, a) + Visits(g, rank, b)
    decreases |a|
  {
    if a == [] {
      assert a + b == b;
    } else {
      assert (a + b)[0] == a[0];
      assert (a + b)[1..] == a[1..] + b;
      VisitsAppend(g, rank, a[1..], b);
    }
  }

  /** The traversal lists the given ids, and with every listed node its children. */
  lemma {:induction false} VisitsClosed(g: Project, rank: map<string, nat>, ids: seq<string>)
    requires Ranked(g, rank) && Covered(g, rank, ids)
    ensures forall y :: y in ids ==> y in Visits(g, rank, ids)
    ensures forall x, c :: x in Visits(g, rank, ids) && c in Kids(g, x) ==> c in Visits(g, rank, ids)
    decreases MaxLevel(g, rank, ids), |ids|
  {
    if ids != [] {
      KidsBelow(g, rank, ids[0]);
      var kids := Kids(g, ids[0]);
      VisitsClosed(g, rank, kids);
      VisitsClosed(g, rank, ids[1..]);
      assert forall y :: y in ids ==> y == ids[0] || y in ids[1..];
    }
  }

  /** Any set that holds the given ids and is closed under children holds the whole traversal. */
  lemma {:induction false} VisitsLeast(g: Project, rank: map<string, nat>, ids: seq<string>, s: set<string>)
    requires Ranked(g, rank) && Covered(g, rank, ids)
    requires forall y :: y in ids ==> y in s
    requires forall x, c :: x in s && c in Kids(g, x) ==> c in s
    ensures forall x :: x in Visits(g, rank, ids) ==> x in s
    decreases MaxLevel(g, rank, ids), |ids|
  {
    if ids != [] {
      KidsBelow(g, rank, ids[0]);
      VisitsLeast(g, rank, Kids(g, ids[0]), s);
      VisitsLeast(g, rank, ids[1..], s);
    }
  }

  /** Every listed node is ranked no higher than the highest-ranked given id. */
  lemma {:induction false} VisitsRankedBelow(g: Project, rank: map<string, nat>, ids: seq<string>, bound: nat)
    requires Ranked(g, rank) && Covered(g, rank, ids)
    requires forall y :: y in ids && y in g ==> rank[y] <= bound
    ensures forall x :: x in Visits(g, rank, ids) && x in g ==> x in rank && rank[x] <= bound
    decreases MaxLevel(g, rank, ids), |ids|
  {
    if ids != [] {
      KidsBelow(g, rank, ids[0]);
      if ids[0] in g {
        VisitsRankedBelow(g, rank, Kids(g, ids[0]), bound);
      } else {
        assert Visits(g, rank, Kids(g, ids[0])) == [];
      }
      VisitsRankedBelow(g, rank, ids[1..], bound);
    }
  }

  /** A node that lists `n` as a child is not reached from `n`. */
  lemma ParentOutside(g: Project, rank: map<string, nat>, n: string, p: string)
    requires Ranked(g, rank) && Covered(g, rank, [n])
    requires p in g && n in Kids(g, p)
    ensures p !in Visits(g, rank, [n])
  {
    if n in g {
      VisitsRankedBelow(g, rank, [n], rank[n]);
    } else {
      KidsBelow(g, rank, n);
      assert Visits(g, rank, [n]) == [n] + Visits(g, rank, []) + Visits(g, rank, []);
    }
  }

  /** Two projects with the same keys and the same child lists along the traversal give the same traversal. */
  lemma {:induction false} VisitsAgree(g1: Project, g2: Project, rank: map<string, nat>, ids: seq<string>)
    requires g1.Keys == g2.Keys
    requires Ranked(g1, rank) && Ranked(g2, rank) && Covered(g1, rank, ids)
    requires forall x :: x in Visits(g1, rank, ids) ==> Kids(g1, x) == Kids(g2, x)
    ensures Covered(g2, rank, ids)
    ensures Visits(g1, rank, ids) == Visits(g2, rank, ids)
    decreases MaxLevel(g1, rank, ids), |ids|
  {
    if ids != [] {
      KidsBelow(g1, rank, ids[0]);
      KidsBelow(g2, rank, ids[0]);
      VisitsAgree(g1, g2, rank, Kids(g1, ids[0]));
      VisitsAgree(g1, g2, rank, ids[1..]);
    }
  }

  /** A project whose child lists only lose entries keeps every ranking. */
  lemma FewerKidsRanked(g1: Project, g2: Project, rank: map<string, nat>)
    requires g1.Keys == g2.Keys && Ranked(g1, rank)
    requires forall x, c :: c in Kids(g2, x) ==> c in Kids(g1, x)
    ensures Ranked(g2, rank)
  {
  }

  ghost function SomeRank(g: Project, root: string): (rank: map<string, nat>)
    requires AcyclicFrom(g, root)
    ensures Ranked(g, rank) && Covered(g, rank, [root])
  {
    var rank :| Ranked(g, rank) && Covered(g, rank, [root]); rank
  }

  /** The ids reachable from `root` through child lists, `root` itself included. */
  ghost function Subtree(g: Project, root: string): set<string>
    requires AcyclicFrom(g, root)
  {
    set x | x in Visits(g, SomeRank(g, root), [root])
  }

  /** The subtree holds its root and, with every node in it, all that node's children. */
  lemma SubtreeClosed(g: Project, root: string)
    requires AcyclicFrom(g, root)
    ensures root in Subtree(g, root)
    ensures forall x, c :: x in Subtree(g, root) && c in Kids(g, x) ==> c in Subtree(g, root)
  {
    VisitsClosed(g, SomeRank(g, root), [root]);
  }

  /** Any set that holds `root` and is closed under children contains the subtree. */
  lemma SubtreeLeast(g: Project, root: string, s: set<string>)
    requires AcyclicFrom(g, root)
    requires root in s
    requires forall x, c :: x in s && c in Kids(g, x) ==> c in s
    ensures Subtree(g, root) <= s
  {
    VisitsLeast(g, SomeRank(g, root), [root], s);
  }

  // ---------------------------------------------------------------------------
  // Removing an id from a child list
  // ---------------------------------------------------------------------------

  /** `s` without any occurrence of `x`, the other entries in their order. */
  function RemoveAll(s: seq<string>, x: string): (r: seq<string>)
    ensures |r| <= |s|
    ensures forall y :: y in r <==> y in s && y != x
  {
    if s == [] then []
    else (if s[0] == x then [] else [s[0]]) + RemoveAll(s[1..], x)
  }

  /** Every occurrence of `x` goes and every other entry stays, as often as it was there. */
  lemma {:induction false} RemoveAllCounts(s: seq<string>, x: string)
    ensures multiset(RemoveAll(s, x)) == multiset(s)[x := 0]
  {
    if s != [] {
      var rest := multiset(s[1..]);
      RemoveAllCounts(s[1..], x);
      assert s == [s[0]] + s[1..];
      assert multiset(s) == multiset{s[0]} + rest;
      if s[0] == x {
        assert RemoveAll(s, x) == RemoveAll(s[1..], x);
        ZeroAfterAdding(rest, x);
      } else {
        assert RemoveAll(s, x) == [s[0]] + RemoveAll(s[1..], x);
        ZeroPastAdding(rest, s[0], x);
      }
    }
  }

  /** Zeroing the count of `x` forgets an added `x`. */
  lemma ZeroAfterAdding(m: multiset<string>, x: string)
    ensures (multiset{x} + m)[x := 0] == m[x := 0]
  {
  }

  /** Zeroing the count of `x` keeps an added `y` other than `x`. */
  lemma ZeroPastAdding(m: multiset<string>, y: string, x: string)
    requires y != x
    ensures (multiset{y} + m)[x := 0] == multiset{y} + m[x := 0]
  {
  }

  /** Removal works piecewise, so the kept entries keep their order. */
  lemma {:induction false} RemoveAllAppend(a: seq<string>, b: seq<string>, x: string)
    ensures RemoveAll(a + b, x) == RemoveAll(a, x) + RemoveAll(b, x)
  {
    if a == [] {
      assert a + b == b;
    } else {
      assert (a + b)[1..] == a[1..] + b;
      RemoveAllAppend(a[1..], b, x);
    }
  }

  /** A list without `x` is left as it is. */
  lemma {:induction false} RemoveAllAbsent(s: seq<string>, x: string)
    requires x !in s
    ensures RemoveAll(s, x) == s
  {
    if s != [] {
      RemoveAllAbsent(s[1..], x);
    }
  }

  /** `n` with `x` dropped from its child list, all else unchanged. */
  function Unlinked(n: Node, x: string): (r: Node)
    ensures r.id == n.id && r.other == n.other && r.children.Some? == n.children.Some?
    ensures r.children.Some? ==> forall y :: y in r.children.value <==> y in n.children.value && y != x
  {
    match n.children
    case None => n
    case Some(cs) => n.(children := Some(RemoveAll(cs, x)))
  }

  // ---------------------------------------------------------------------------
  // The source's loops
  // ---------------------------------------------------------------------------

  /**
   * The parent search: keys are tried in an order left open here (a hash map's
   * iteration order) and the first whose child list holds `nodeId` is returned.
   */
  method FindParent(project: Project, nodeId: string) returns (parent: Option<string>)
    ensures parent.Some? ==> parent.value in project && nodeId in Kids(project, parent.value)
    ensures parent.None? ==> forall id :: id in project ==> nodeId !in Kids(project, id)
  {
    var unseen := project.Keys;
    while unseen != {}
      invariant unseen <= project.Keys
      invariant forall id :: id in project && id !in unseen ==> nodeId !in Kids(project, id)
      decreases |unseen|
    {
      var id :| id in unseen;
      var node := project[id];
      if node.children.Some? && nodeId in node.children.value {
        return Some(id);
      }
      unseen := unseen - {id};
    }
    return None;
  }

  /** Popping `curr` off the stack and pushing its children: `curr` leaves the traversal and nothing else changes. */
  lemma VisitsPop(g: Project, rank: map<string, nat>, rest: seq<string>, curr: string)
    requires Ranked(g, rank) && Covered(g, rank, rest + [curr])
    ensures Covered(g, rank, rest + Kids(g, curr))
    ensures multiset(Visits(g, rank, rest + [curr])) == multiset{curr} + multiset(Visits(g, rank, rest + Kids(g, curr)))
    ensures |Visits(g, rank, rest + [curr])| == 1 + |Visits(g, rank, rest + Kids(g, curr))|
  {
    assert Covered(g, rank, rest) && Covered(g, rank, [curr]);
    KidsBelow(g, rank, curr);
    var kids := Kids(g, curr);
    VisitsAppend(g, rank, rest, [curr]);
    VisitsAppend(g, rank, rest, kids);
    VisitsSingle(g, rank, curr);
    var vr, vk := Visits(g, rank, rest), Visits(g, rank, kids);
    assert Visits(g, rank, rest + [curr]) == vr + ([curr] + vk);
    assert Visits(g, rank, rest + kids) == vr + vk;
  }

  /** The traversal of a single id: the id, then the traversal of its children. */
  lemma VisitsSingle(g: Project, rank: map<string, nat>, id: string)
    requires Ranked(g, rank) && Covered(g, rank, [id])
    ensures Covered(g, rank, Kids(g, id))
    ensures Visits(g, rank, [id]) == [id] + Visits(g, rank, Kids(g, id))
  {
    KidsBelow(g, rank, id);
    assert [id][1..] == [];
    assert Visits(g, rank, [id]) == [id] + Visits(g, rank, Kids(g, id)) + Visits(g, rank, []);
  }

  lemma MoveOne(done: multiset<string>, todo: multiset<string>, todo': multiset<string>, all: multiset<string>, x: string)
    requires done + todo == all && todo == multiset{x} + todo'
    ensures (done + multiset{x}) + todo' == all
  {
  }

  lemma SplitLast(s: seq<string>)
    requires s != []
    ensures s == s[..|s| - 1] + [s[|s| - 1]]
  {
  }

  /**
   * The stack traversal: pop an id, record it, push its children. The ids recorded
   * are those of the reference traversal, each as often, with the root first.
   */
  method CollectSubtree(g: Project, root: string, ghost rank: map<string, nat>) returns (visited: seq<string>)
    requires Ranked(g, rank) && Covered(g, rank, [root])
    ensures multiset(visited) == multiset(Visits(g, rank, [root]))
    ensures |visited| > 0 && visited[0] == root
  {
    var stack := [root];
    visited := [];
    while stack != []
      invariant Covered(g, rank, stack)
      invariant multiset(visited) + multiset(Visits(g, rank, stack)) == multiset(Visits(g, rank, [root]))
      invariant visited == [] ==> |stack| == 1 && stack[0] == root
      invariant visited != [] ==> visited[0] == root
      decreases |Visits(g, rank, stack)|
    {
      var curr := stack[|stack| - 1];
      var rest := stack[..|stack| - 1];
      SplitLast(stack);
      VisitsPop(g, rank, rest, curr);
      MoveOne(multiset(visited), multiset(Visits(g, rank, stack)), multiset(Visits(g, rank, rest + Kids(g, curr))),
              multiset(Visits(g, rank, [root])), curr);
      visited := visited + [curr];
      var pushed: seq<string> := [];
      if curr in g {
        var node := g[curr];
        if node.children.Some? {
          pushed := node.children.value;
        }
      }
      assert pushed == Kids(g, curr);
      stack := rest + pushed;
    }
  }

  /** `project` with `x` dropped from the child list of `pid`. */
  function Unlink(project: Project, pid: string, x: string): (r: Project)
    requires pid in project
    ensures r.Keys == project.Keys
    ensures forall id :: id in r && id != pid ==> r[id] == project[id]
    ensures forall c :: c in Kids(r, pid) <==> c in Kids(project, pid) && c != x
  {
    project[pid := Unlinked(project[pid], x)]
  }

  /**
   * Unlinking `nodeId` from a parent keeps the ranking and does not change what is
   * reached from `nodeId`, because the parent is not reached from it.
   */
  lemma UnlinkKeepsVisits(project: Project, rank: map<string, nat>, nodeId: string, pid: string)
    requires Ranked(project, rank) && Covered(project, rank, [nodeId])
    requires pid in project && nodeId in Kids(project, pid)
    ensures Ranked(Unlink(project, pid, nodeId), rank)
    ensures Covered(Unlink(project, pid, nodeId), rank, [nodeId])
    ensures Visits(Unlink(project, pid, nodeId), rank, [nodeId]) == Visits(project, rank, [nodeId])
  {
    var g := Unlink(project, pid, nodeId);
    forall x, c | c in Kids(g, x) ensures c in Kids(project, x) {
      if x == pid {
        RemoveAllCounts(Kids(project, x), nodeId);
        assert c in multiset(Kids(g, x));
      }
    }
    FewerKidsRanked(project, g, rank);
    ParentOutside(project, rank, nodeId, pid);
    VisitsAgree(project, g, rank, [nodeId]);
  }

  /** The source's final loop: every id of `ids` removed from `g`, the other nodes kept as they are. */
  method RemoveIds(g: Project, ids: seq<string>) returns (result: Project)
    ensures forall x :: x in result <==> x in g && x !in ids
    ensures forall x :: x in result ==> result[x] == g[x]
  {
    result := g;
    var k := 0;
    while k < |ids|
      invariant 0 <= k <= |ids|
      invariant forall x :: x in result <==> x in g && x !in ids[..k]
      invariant forall x :: x in result ==> result[x] == g[x]
    {
      PrefixStep(ids, k);
      result := result - {ids[k]};
      k := k + 1;
    }
    PrefixAll(ids);
  }

  lemma PrefixStep(s: seq<string>, k: nat)
    requires k < |s|
    ensures s[..k + 1] == s[..k] + [s[k]]
  {
  }

  lemma PrefixAll(s: seq<string>)
    ensures s[..|s|] == s
  {
  }

  /** The ids the traversal lists are exactly those of the subtree. */
  lemma SubtreeListed(g: Project, root: string, visited: seq<string>)
    requires AcyclicFrom(g, root)
    requires multiset(visited) == multiset(Visits(g, SomeRank(g, root), [root]))
    ensures forall x :: x in visited <==> x in Subtree(g, root)
  {
    var v := Visits(g, SomeRank(g, root), [root]);
    assert forall x :: x in visited <==> x in multiset(visited);
    assert forall x :: x in v <==> x in multiset(v);
  }

  /**
   * delete_node: unlink `nodeId` from the parent found (if any), then remove every id
   * reachable from `nodeId`. The parent found is returned as a ghost result.
   */
  method DeleteNode(project: Project, nodeId: string) returns (result: Project, ghost parent: Option<string>)
    requires AcyclicFrom(project, nodeId)
    ensures result.Keys == project.Keys - Subtree(project, nodeId)
    ensures parent.Some? <==> exists p :: p in project && nodeId in Kids(project, p)
    ensures parent.Some? ==> && parent.value in result && nodeId in Kids(project, parent.value)
                             && result[parent.value] == Unlinked(project[parent.value], nodeId)
    ensures forall id :: id in result && Some(id) != parent ==> result[id] == project[id]
  {
    ghost var rank := SomeRank(project, nodeId);
    var found := FindParent(project, nodeId);
    parent := found;
    var g := project;
    if found.Some? {
      var pid := found.value;
      g := Unlink(project, pid, nodeId);
      UnlinkKeepsVisits(project, rank, nodeId, pid);
      ParentOutside(project, rank, nodeId, pid);
    }
    var toDelete := CollectSubtree(g, nodeId, rank);
    SubtreeListed(project, nodeId, toDelete);
    result := RemoveIds(g, toDelete);
    assert result.Keys == project.Keys - Subtree(project, nodeId);
    assert forall id :: id in result && Some(id) != parent ==> result[id] == project[id];
  }

  // ---------------------------------------------------------------------------
  // Cloning a template
  // ---------------------------------------------------------------------------

  datatype TemplateResult = TemplateResult(newNodes: Project, rootId: string)

  /** `cs` mapped through `idMap`, dropping ids it has no entry for (filter_map). */
  function FilterMap(cs: seq<string>, idMap: map<string, string>): (r: seq<string>)
    ensures |r| <= |cs|
    ensures forall y :: y in r <==> exists c :: c in cs && c in idMap && idMap[c] == y
  {
    if cs == [] then []
    else (if cs[0] in idMap then [idMap[cs[0]]] else []) + FilterMap(cs[1..], idMap)
  }

  /** Every id of `cs` renamed, in order. */
  function Renamed(cs: seq<string>, rename: string -> string): (r: seq<string>)
    ensures |r| == |cs|
  {
    seq(|cs|, i requires 0 <= i < |cs| => rename(cs[i]))
  }

  /** When `idMap` renames every id of the list, the filter drops nothing and renames each entry in place. */
  lemma {:induction false} FilterMapKeepsAll(cs: seq<string>, idMap: map<string, string>, rename: string -> string)
    requires forall c :: c in cs ==> c in idMap && idMap[c] == rename(c)
    ensures FilterMap(cs, idMap) == Renamed(cs, rename)
  {
    if cs != [] {
      FilterMapKeepsAll(cs[1..], idMap, rename);
      assert Renamed(cs, rename) == [rename(cs[0])] + Renamed(cs[1..], rename);
    }
  }

  /** The copy of template node `n` under the new id `newId`, its children renamed. */
  function Instance(n: Node, newId: string, rename: string -> string): Node {
    match n.children
    case None => n.(id := newId)
    case Some(cs) => n.(id := newId, children := Some(Renamed(cs, rename)))
  }

  /** The id-assignment loop: every collected id gets the new id `rename` gives it. */
  method AssignIds(descendants: seq<string>, rename: string -> string) returns (idMap: map<string, string>)
    ensures forall x :: x in idMap <==> x in descendants
    ensures forall x :: x in idMap ==> idMap[x] == rename(x)
  {
    idMap := map[];
    var k := 0;
    while k < |descendants|
      invariant 0 <= k <= |descendants|
      invariant forall x :: x in idMap <==> x in descendants[..k]
      invariant forall x :: x in idMap ==> idMap[x] == rename(x)
    {
      PrefixStep(descendants, k);
      idMap := idMap[descendants[k] := rename(descendants[k])];
      k := k + 1;
    }
    PrefixAll(descendants);
  }

  /**
   * The copy loop: every collected id that is a template node is copied under its new
   * id, its child list passed through `idMap`. When `idMap` renames every collected id
   * and every child of a collected node, each copy is `Instance` of its original.
   */
  method CopyNodes(template: Project, descendants: seq<string>, idMap: map<string, string>, ghost rename: string -> string)
    returns (newNodes: Project)
    requires forall a, b :: rename(a) == rename(b) ==> a == b
    requires forall x :: x in idMap ==> idMap[x] == rename(x)
    requires forall x :: x in descendants ==> x in idMap
    requires forall x, c :: x in descendants && c in Kids(template, x) ==> c in idMap
    ensures forall y :: y in newNodes <==> exists x :: x in descendants && x in template && y == rename(x)
    ensures forall x :: x in descendants && x in template ==>
              rename(x) in newNodes && newNodes[rename(x)] == Instance(template[x], rename(x), rename)
  {
    newNodes := map[];
    var k := 0;
    while k < |descendants|
      invariant 0 <= k <= |descendants|
      invariant forall y :: y in newNodes <==> exists x :: x in descendants[..k] && x in template && y == rename(x)
      invariant forall x :: x in descendants[..k] && x in template ==>
                  rename(x) in newNodes && newNodes[rename(x)] == Instance(template[x], rename(x), rename)
    {
      var oldId := descendants[k];
      PrefixStep(descendants, k);
      if oldId in template {
        var newNode := template[oldId];
        if oldId in idMap {
          newNode := newNode.(id := idMap[oldId]);
        }
        if newNode.children.Some? {
          assert newNode.children.value == Kids(template, oldId);
          FilterMapKeepsAll(newNode.children.value, idMap, rename);
          newNode := newNode.(children := Some(FilterMap(newNode.children.value, idMap)));
        }
        assert newNode == Instance(template[oldId], rename(oldId), rename);
        newNodes := newNodes[newNode.id := newNode];
      }
      k := k + 1;
    }
    PrefixAll(descendants);
  }

  /**
   * instantiate_template: collect the ids reachable from `rootId`, give each the new
   * id `rename` assigns it, and copy every one that is a template node under its new
   * id with its child list renamed. The fresh-id generator is the parameter `rename`.
   */
  method InstantiateTemplate(template: Project, rootId: string, rename: string -> string) returns (r: TemplateResult)
    requires AcyclicFrom(template, rootId)
    requires forall a, b :: rename(a) == rename(b) ==> a == b
    ensures r.rootId == rename(rootId)
    ensures forall y :: y in r.newNodes <==> exists x :: x in Subtree(template, rootId) && x in template && y == rename(x)
    ensures forall x :: x in Subtree(template, rootId) && x in template ==>
              rename(x) in r.newNodes && r.newNodes[rename(x)] == Instance(template[x], rename(x), rename)
  {
    ghost var rank := SomeRank(template, rootId);
    var descendants := CollectSubtree(template, rootId, rank);
    SubtreeListed(template, rootId, descendants);
    SubtreeClosed(template, rootId);
    var idMap := AssignIds(descendants, rename);
    var newNodes := CopyNodes(template, descendants, idMap, rename);
    var newRoot := if rootId in idMap then idMap[rootId] else rootId;
    r := TemplateResult(newNodes, newRoot);
  }
}
