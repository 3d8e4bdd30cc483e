/** Node choices made one after the other: which nodes they use up, and how many they can be. */
module NodeChoices {
  import opened Models

  function UsedWith(used: set<NodeId>, choice: Option<NodeId>): set<NodeId> {
    if choice.Some? then used + {choice.value} else used
  }

  /** The nodes in use after the first `k` choices. */
  function UsedAfter(used: set<NodeId>, cs: seq<Option<NodeId>>, k: nat): set<NodeId>
    requires k <= |cs|
  {
    if k == 0 then used else UsedWith(UsedAfter(used, cs, k - 1), cs[k - 1])
  }

  lemma {:induction false} UsedAfterTail(used: set<NodeId>, cs: seq<Option<NodeId>>, k: nat)
    requires 0 < k <= |cs|
    ensures UsedAfter(used, cs, k) == UsedAfter(UsedWith(used, cs[0]), cs[1..], k - 1)
  {
    if k > 1 {
      UsedAfterTail(used, cs, k - 1);
    }
  }

  /** One of the first `k` choices is `id`. */
  ghost predicate Chosen(cs: seq<Option<NodeId>>, k: nat, id: NodeId)
    requires k <= |cs|
  {
    exists l :: 0 <= l < k && cs[l] == Some(id)
  }

  lemma {:induction false} UsedAfterMember(used: set<NodeId>, cs: seq<Option<NodeId>>, k: nat, id: NodeId)
    requires k <= |cs|
    ensures id in UsedAfter(used, cs, k) <==> id in used || Chosen(cs, k, id)
  {
    if k > 0 {
      UsedAfterMember(used, cs, k - 1, id);
      assert Chosen(cs, k, id) <==> Chosen(cs, k - 1, id) || cs[k - 1] == Some(id);
    }
  }

  lemma {:induction false} ChosenTail(cs: seq<Option<NodeId>>, k: nat, id: NodeId)
    requires 0 < k <= |cs|
    ensures Chosen(cs, k, id) <==> cs[0] == Some(id) || Chosen(cs[1..], k - 1, id)
  {
  }

  function NodeIds(nodes: seq<Node>): set<NodeId> {
    if |nodes| == 0 then {} else {nodes[0].id} + NodeIds(nodes[1..])
  }

  lemma {:induction false} NodeIdsMember(nodes: seq<Node>, m: NodeId)
    ensures m in NodeIds(nodes) <==> exists n :: n in nodes && n.id == m
  {
    if |nodes| > 0 {
      NodeIdsMember(nodes[1..], m);
      assert forall n :: n in nodes <==> n == nodes[0] || n in nodes[1..];
    }
  }

  lemma {:induction false} NodeIdsSize(nodes: seq<Node>)
    ensures |NodeIds(nodes)| <= |nodes|
    ensures UniqueNodes(nodes) ==> |NodeIds(nodes)| == |nodes|
  {
    if |nodes| > 0 {
      NodeIdsSize(nodes[1..]);
      NodeIdsMember(nodes[1..], nodes[0].id);
    }
  }

  function PlacedCount(cs: seq<Option<NodeId>>): nat {
    if |cs| == 0 then 0 else (if cs[0].Some? then 1 else 0) + PlacedCount(cs[1..])
  }

  function PlacedIds(cs: seq<Option<NodeId>>): set<NodeId> {
    if |cs| == 0 then {} else (if cs[0].Some? then {cs[0].value} else {}) + PlacedIds(cs[1..])
  }

  lemma {:induction false} PlacedIdsFacts(cs: seq<Option<NodeId>>)
    ensures |PlacedIds(cs)| <= PlacedCount(cs) <= |cs|
    ensures forall id :: id in PlacedIds(cs) <==> Chosen(cs, |cs|, id)
  {
    if |cs| > 0 {
      PlacedIdsFacts(cs[1..]);
      forall id ensures id in PlacedIds(cs) <==> Chosen(cs, |cs|, id) {
        ChosenTail(cs, |cs|, id);
      }
    }
  }

  /** No two choices name the same node. */
  ghost predicate AllDifferent(cs: seq<Option<NodeId>>) {
    forall i, j :: 0 <= i < j < |cs| && cs[i].Some? ==> cs[i] != cs[j]
  }

  lemma {:induction false} DifferentCount(cs: seq<Option<NodeId>>)
    requires AllDifferent(cs)
    ensures PlacedCount(cs) == |PlacedIds(cs)|
  {
    if |cs| > 0 {
      DifferentCount(cs[1..]);
      PlacedIdsFacts(cs[1..]);
    }
  }

  lemma {:induction false} PlacedCountSplit(cs: seq<Option<NodeId>>, k: nat)
    requires k <= |cs|
    ensures PlacedCount(cs) == PlacedCount(cs[..k]) + PlacedCount(cs[k..])
  {
    if k > 0 {
      PlacedCountSplit(cs[1..], k - 1);
      assert cs[..k][1..] == cs[1..][..k - 1] && cs[1..][k - 1..] == cs[k..];
    } else {
      assert cs[..0] == [] && cs[0..] == cs;
    }
  }

  lemma {:induction false} SubsetSize<T>(a: set<T>, b: set<T>)
    requires a <= b
    ensures |a| <= |b|
  {
    assert b == a + (b - a);
  }

  /** Different choices among the given nodes are at most as many as the nodes. */
  lemma {:induction false} PlacedAtMostNodes(cs: seq<Option<NodeId>>, nodes: seq<Node>)
    requires AllDifferent(cs)
    requires forall i :: 0 <= i < |cs| && cs[i].Some? ==> cs[i].value in NodeIds(nodes)
    ensures PlacedCount(cs) <= |nodes|
  {
    DifferentCount(cs);
    PlacedIdsFacts(cs);
    SubsetSize(PlacedIds(cs), NodeIds(nodes));
    NodeIdsSize(nodes);
  }

  /** If every node is chosen, there are at least as many choices as nodes. */
  lemma {:induction false} AllNodesChosen(cs: seq<Option<NodeId>>, nodes: seq<Node>)
    requires UniqueNodes(nodes) && forall n :: n in nodes ==> Chosen(cs, |cs|, n.id)
    ensures |nodes| <= PlacedCount(cs) <= |cs|
  {
    PlacedIdsFacts(cs);
    forall m | m in NodeIds(nodes) ensures m in PlacedIds(cs) {
      NodeIdsMember(nodes, m);
    }
    SubsetSize(NodeIds(nodes), PlacedIds(cs));
    NodeIdsSize(nodes);
  }
}
