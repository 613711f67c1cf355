/** ACL drift inside a replication group: which groups disagree, and which users account for it. */
module AclDrift {
  import opened Prelude
  import opened Sorting
  import opened Strings
  import opened AclDigest

  datatype DriftNode = DriftNode(connectionId: string, groupKey: string, userDigests: map<string, Digest>,
                                 digest: Digest)

  datatype Drift = Drift(groupKey: string, usernames: seq<string>, digests: seq<Digest>)

  function Group(nodes: seq<DriftNode>, key: string): seq<DriftNode> {
    if nodes == [] then []
    else
      var init, last := Group(nodes[..|nodes| - 1], key), nodes[|nodes| - 1];
      if last.groupKey == key then init + [last] else init
  }

  function DigestOf(n: DriftNode, u: string): Option<Digest> {
    if u in n.userDigests then Some(n.userDigests[u]) else None
  }

  ghost predicate Disagree(group: seq<DriftNode>) {
    exists i, j :: 0 <= i < j < |group| && group[i].digest != group[j].digest
  }

  /** Two nodes of the group have different digests for the user, or only one of them has the user. */
  ghost predicate UserDiffers(group: seq<DriftNode>, u: string) {
    exists i, j :: 0 <= i < j < |group| && DigestOf(group[i], u) != DigestOf(group[j], u)
  }

  ghost predicate NamesExactly(names: seq<string>, group: seq<DriftNode>) {
    && (forall i, j :: 0 <= i < j < |names| ==> Precedes(names[i], names[j]))
    && (forall u :: u in names <==> UserDiffers(group, u))
  }

  /** Whether the set of these values has at most one element. */
  method AllSame<T(==)>(values: seq<T>) returns (same: bool)
    ensures same <==> forall i, j :: 0 <= i < j < |values| ==> values[i] == values[j]
  {
    same := true;
    var i := 1;
    while i < |values|
      invariant 1 <= i && (same <==> forall j :: 0 <= j < i && j < |values| ==> values[j] == values[0])
    {
      if values[i] != values[0] {
        same := false;
      }
      i := i + 1;
    }
  }

  method DifferingUsers(group: seq<DriftNode>) returns (names: seq<string>)
    ensures NamesExactly(names, group)
  {
    var all: set<string>, i := {}, 0;
    while i < |group|
      invariant 0 <= i <= |group|
      invariant forall j :: 0 <= j < i ==> group[j].userDigests.Keys <= all
    {
      all := all + group[i].userDigests.Keys;
      i := i + 1;
    }
    var differing: seq<string>, left := [], all;
    while left != {}
      invariant left <= all
      invariant Distinct(differing)
      invariant forall u :: u in differing <==> u in all && u !in left && UserDiffers(group, u)
      decreases |left|
    {
      var u :| u in left;
      var perNode := seq(|group|, i requires 0 <= i < |group| => DigestOf(group[i], u));
      var same := AllSame(perNode);
      if !same {
        differing := differing + [u];
      }
      assert UserDiffers(group, u) <==> !same by {
        assert forall i :: 0 <= i < |group| ==> perNode[i] == DigestOf(group[i], u);
      }
      left := left - {u};
    }
    names := Sort(differing, AtMost);
    SortedNames(differing, names);
  }

  lemma SortedNames(names: seq<string>, sorted: seq<string>)
    requires Distinct(names)
    requires sorted == Sort(names, AtMost)
    ensures forall i, j :: 0 <= i < j < |sorted| ==> Precedes(sorted[i], sorted[j])
    ensures forall u :: u in sorted <==> u in names
  {
    AtMostIsOrder();
    assert Total(AtMost) && Transitive(AtMost);
    SortSorts(names, AtMost);
    SortPermutes(names, AtMost);
    SameMembers(names, sorted);
    PermutedDistinct(names, sorted);
    forall i, j | 0 <= i < j < |sorted| ensures Precedes(sorted[i], sorted[j]) {
      assert AtMost(sorted[i], sorted[j]);
    }
  }

  /** The non-empty group keys in order of first appearance. */
  function GroupKeys(nodes: seq<DriftNode>): seq<string> {
    if nodes == [] then []
    else
      var init, key := GroupKeys(nodes[..|nodes| - 1]), nodes[|nodes| - 1].groupKey;
      if key == "" || key in init then init else init + [key]
  }

  /** Each non-empty group key of the nodes is listed once, and nothing else. */
  lemma {:induction false} KeysListedOnce(nodes: seq<DriftNode>)
    ensures Distinct(GroupKeys(nodes))
    ensures forall k :: k in GroupKeys(nodes) <==> k != "" && exists x :: 0 <= x < |nodes| && nodes[x].groupKey == k
  {
    if nodes != [] {
      KeysListedOnce(nodes[..|nodes| - 1]);
    }
  }

  /** The groups of the nodes read so far, with their keys in order of first appearance. */
  ghost predicate Grouped(order: seq<string>, groups: map<string, seq<DriftNode>>, done: seq<DriftNode>) {
    && order == GroupKeys(done)
    && (forall k :: k in order <==> k in groups)
    && (forall k :: k in groups ==> k != "" && groups[k] == Group(done, k))
    && (forall x :: 0 <= x < |done| && done[x].groupKey != "" ==> done[x].groupKey in groups)
  }

  lemma {:induction false} GroupEmpty(done: seq<DriftNode>, k: string)
    requires forall x :: 0 <= x < |done| ==> done[x].groupKey != k
    ensures Group(done, k) == []
  {
    if done != [] {
      GroupEmpty(done[..|done| - 1], k);
    }
  }

  lemma GroupedNext(order: seq<string>, groups: map<string, seq<DriftNode>>, done: seq<DriftNode>, n: DriftNode)
    requires Grouped(order, groups, done)
    ensures n.groupKey == "" ==> Grouped(order, groups, done + [n])
    ensures n.groupKey in groups ==> Grouped(order, groups[n.groupKey := groups[n.groupKey] + [n]], done + [n])
    ensures n.groupKey != "" && n.groupKey !in groups ==>
      Grouped(order + [n.groupKey], groups[n.groupKey := [n]], done + [n])
  {
    assert (done + [n])[..|done|] == done;
    forall k ensures Group(done + [n], k) == if n.groupKey == k then Group(done, k) + [n] else Group(done, k) {
    }
    if n.groupKey != "" && n.groupKey !in groups {
      GroupEmpty(done, n.groupKey);
    }
  }

  method GroupNodes(nodes: seq<DriftNode>) returns (order: seq<string>, groups: map<string, seq<DriftNode>>)
    ensures Grouped(order, groups, nodes)
  {
    order, groups := [], map[];
    var i := 0;
    while i < |nodes|
      invariant 0 <= i <= |nodes| && Grouped(order, groups, nodes[..i])
    {
      var n := nodes[i];
      assert nodes[..i + 1] == nodes[..i] + [n];
      GroupedNext(order, groups, nodes[..i], n);
      if n.groupKey != "" {
        if n.groupKey in groups {
          groups := groups[n.groupKey := groups[n.groupKey] + [n]];
        } else {
          order := order + [n.groupKey];
          groups := groups[n.groupKey := [n]];
        }
      }
      i := i + 1;
    }
    assert nodes[..i] == nodes;
  }

  /** One drift for each disagreeing group among the keys, in their order, naming exactly its differing users. */
  ghost predicate Reports(drifts: seq<Drift>, keys: seq<string>, nodes: seq<DriftNode>)
    decreases |keys|
  {
    if keys == [] then drifts == []
    else
      var init, k := keys[..|keys| - 1], keys[|keys| - 1];
      if Disagree(Group(nodes, k)) then
        && drifts != [] && drifts[|drifts| - 1].groupKey == k
        && NamesExactly(drifts[|drifts| - 1].usernames, Group(nodes, k))
        && Reports(drifts[..|drifts| - 1], init, nodes)
      else Reports(drifts, init, nodes)
  }

  method CompareGroup(group: seq<DriftNode>, key: string) returns (drift: Option<Drift>)
    ensures drift.Some? <==> Disagree(group)
    ensures drift.Some? ==> drift.value.groupKey == key && NamesExactly(drift.value.usernames, group)
  {
    if |group| < 2 {
      return None;
    }
    var digests := seq(|group|, j requires 0 <= j < |group| => group[j].digest);
    var same := AllSame(digests);
    assert Disagree(group) <==> !same by {
      assert forall j :: 0 <= j < |group| ==> digests[j] == group[j].digest;
    }
    if same {
      return None;
    }
    var names := DifferingUsers(group);
    drift := Some(Drift(key, names, digests));
  }

  /** Every disagreeing group is reported once, with exactly the users that differ; no other group is. */
  method DetectAclDrift(nodes: seq<DriftNode>) returns (drifts: seq<Drift>)
    ensures Reports(drifts, GroupKeys(nodes), nodes)
  {
    var order, groups := GroupNodes(nodes);
    drifts := [];
    var i := 0;
    while i < |order|
      invariant 0 <= i <= |order| && Reports(drifts, order[..i], nodes)
    {
      assert order[..i + 1][..i] == order[..i] && order[i] in order;
      var drift := CompareGroup(groups[order[i]], order[i]);
      if drift.Some? {
        assert (drifts + [drift.value])[..|drifts|] == drifts;
        drifts := drifts + [drift.value];
      }
      i := i + 1;
    }
    assert order[..i] == order;
  }

  /** The node's digests were computed from this ACL LIST reply. */
  ghost predicate ReadFrom(h: Hash, lines: seq<string>, n: DriftNode) {
    n.digest == XorAll(Entries(h, lines)) && n.userDigests == Digests(Entries(h, lines))
  }

  ghost predicate AllReadFrom(h: Hash, lists: seq<seq<string>>, group: seq<DriftNode>) {
    |lists| == |group| && forall i :: 0 <= i < |group| ==> ReadFrom(h, lists[i], group[i])
  }

  /** The part of a node's digest that its record of user digests does not show. */
  function HiddenDigest(h: Hash, lines: seq<string>): Digest { XorAll(Hidden(Entries(h, lines))) }

  lemma SameEverywhere(a: DriftNode, b: DriftNode)
    requires forall v :: DigestOf(a, v) == DigestOf(b, v)
    ensures a.userDigests == b.userDigests
  {
    assert forall v :: v in a.userDigests ==> DigestOf(a, v) == DigestOf(b, v);
    assert forall v :: v in b.userDigests ==> DigestOf(a, v) == DigestOf(b, v);
  }

  /** No user is named exactly when all nodes have the same record of user digests. */
  lemma NobodyNamedIff(group: seq<DriftNode>, names: seq<string>)
    requires NamesExactly(names, group)
    ensures names == [] <==> forall i, j :: 0 <= i < j < |group| ==> group[i].userDigests == group[j].userDigests
  {
    if names == [] {
      forall i, j | 0 <= i < j < |group| ensures group[i].userDigests == group[j].userDigests {
        forall v ensures DigestOf(group[i], v) == DigestOf(group[j], v) {
          assert v !in names;
        }
        SameEverywhere(group[i], group[j]);
      }
    } else {
      assert names[0] in names;
      assert UserDiffers(group, names[0]);
    }
  }

  /**
   A disagreement names nobody exactly when the nodes' records agree everywhere and the lines the records do not show
   (earlier lines of a repeated user, and a user called `__proto__`) combine to different digests somewhere.
   */
  lemma UnnamedDriftIff(h: Hash, group: seq<DriftNode>, lists: seq<seq<string>>, names: seq<string>)
    requires NamesExactly(names, group) && AllReadFrom(h, lists, group)
    ensures Disagree(group) && names == []
       <==> && (forall i, j :: 0 <= i < j < |group| ==> group[i].userDigests == group[j].userDigests)
            && exists i, j :: 0 <= i < j < |group| && HiddenDigest(h, lists[i]) != HiddenDigest(h, lists[j])
  {
    NobodyNamedIff(group, names);
    if names == [] {
      forall i, j | 0 <= i < j < |group|
        ensures group[i].digest == group[j].digest <==> HiddenDigest(h, lists[i]) == HiddenDigest(h, lists[j])
      {
        NodeDigestsAgreeIff(Entries(h, lists[i]), Entries(h, lists[j]));
      }
    }
  }

  /** Every drift between nodes that list each user once, and none called `__proto__`, names at least one user. */
  lemma DriftNamesAUser(h: Hash, group: seq<DriftNode>, lists: seq<seq<string>>, names: seq<string>)
    requires Disagree(group) && NamesExactly(names, group) && AllReadFrom(h, lists, group)
    requires forall i :: 0 <= i < |lists| ==> Recordable(Entries(h, lists[i]))
    ensures names != []
  {
    UnnamedDriftIff(h, group, lists, names);
    forall i | 0 <= i < |lists| ensures HiddenDigest(h, lists[i]) == EMPTY_DIGEST {
      RecordableHidesNothing(Entries(h, lists[i]));
    }
  }
}
