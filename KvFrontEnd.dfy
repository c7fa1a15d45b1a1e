/**
 * The bookkeeping of the key-value front end: the replies it gives clients,
 * the choice of nodes a new key is replicated to, the split of a departed
 * node's keys among the surviving nodes, and the merge of the nodes' answers
 * into the writes that re-replicate keys. The front end's shared metadata
 * (which nodes hold which keys) is a class whose maps the methods reassign;
 * the metadata records refer to each other by node id and key name.
 * Channels, goroutines and locks are left out: a channel of replies is the
 * sequence of replies it delivers, and a spawned replication is returned as
 * an assignment. The random choices of the shuffle are nondeterministic.
 */
module KvFrontEnd {
  import opened Common
  import opened KvNode

  /** What the front end tells a client about a key that cannot be served. */
  const UNAVAILABLE: string := "unavailable"

  /** A node's reply as the front end sees it: no values at all when the node is unavailable. */
  datatype Reply = Reply(values: map<string, KvValue>, unavailable: bool)

  /** `KeyMetadata`: the key's version, its flags and the ids of the nodes holding it. */
  datatype KeyMeta = KeyMeta(version: nat, unavailable: bool, sending: int, nodes: set<string>)

  /** `NodeMetadata`: the node's id and the names of the keys it holds. */
  datatype NodeMeta = NodeMeta(id: string, keys: set<string>, killed: bool)

  // ---------------------------------------------------------------------------
  // Client replies
  // ---------------------------------------------------------------------------

  /**
   * `setResponse`: the value reported to the client for key. A reply that is
   * available but has no entry for the key dereferences a nil entry in Go
   * (a panic), which is None here.
   */
  function SetResponse(key: string, reply: Reply): (r: Option<string>)
  {
    if reply.unavailable then Some(UNAVAILABLE)
    else if key in reply.values then Some(reply.values[key].value)
    else None
  }

  /**
   * A node's reply to a GET of key, passed through `SetResponse`, tells the
   * client the value the node had stored, or "" when the key was absent.
   */
  lemma ClientSeesStoredValue(store: map<string, KvValue>, keys: map<string, KeyArg>, key: string)
    requires key in keys && keys[key].kind == GET
    ensures SetResponse(key, Reply(Responses(store, keys), false))
            == Some(if key in store then store[key].value else "")
  {
    GetSemantics(store, keys, key);
  }

  /** An unavailable reply is reported as such whatever the key, and an available one never is unless that is the stored text. */
  lemma UnavailableReported(key: string, reply: Reply)
    ensures reply.unavailable ==> SetResponse(key, reply) == Some(UNAVAILABLE)
    ensures !reply.unavailable ==> (SetResponse(key, reply).Some? <==> key in reply.values)
  {
  }

  // ---------------------------------------------------------------------------
  // Node lists
  // ---------------------------------------------------------------------------

  /** No id occurs twice. */
  predicate Distinct(ids: seq<string>)
  {
    forall i, j :: 0 <= i < j < |ids| ==> ids[i] != ids[j]
  }

  /**
   * `getNodesAsList`: the nodes of the map in a fresh slice of the same
   * length, in the map's (unspecified) iteration order.
   */
  method GetNodesAsList(m: map<string, NodeMeta>) returns (list: array<string>)
    ensures fresh(list) && list.Length == |m|
    ensures Distinct(list[..])
    ensures forall id :: id in m <==> id in list[..]
  {
    list := new string[|m|];
    var i := 0;
    var left := m.Keys;
    while left != {}
      invariant 0 <= i <= list.Length && |left| == list.Length - i
      invariant left <= m.Keys
      invariant Distinct(list[..i])
      invariant forall id :: id in list[..i] <==> id in m.Keys - left
      modifies list
    {
      var id :| id in left;
      assert id !in list[..i];
      list[i] := id;
      assert list[..i + 1] == list[..i] + [id];
      left := left - {id};
      i := i + 1;
    }
    assert list[..] == list[..i];
  }

  /**
   * `randomizeNodes`: the first `upto` steps of a Fisher-Yates shuffle, each
   * swapping position i with a position chosen among i and those after it.
   * The choice is nondeterministic. Go's `rand.Intn` panics on a range of
   * length 0, so `upto` may not exceed the list's length.
   */
  method RandomizeNodes(list: array<string>, upto: nat)
    requires upto <= list.Length
    modifies list
    ensures multiset(list[..]) == multiset(old(list[..]))
  {
    var i := 0;
    while i < upto
      invariant 0 <= i <= upto
      invariant multiset(list[..]) == multiset(old(list[..]))
    {
      var k :| 0 <= k < list.Length - i;
      list[i], list[i + k] := list[i + k], list[i];
      i := i + 1;
    }
  }

  /** A permutation of a list without repeats has no repeats. */
  lemma PermutationDistinct(a: seq<string>, b: seq<string>)
    requires multiset(a) == multiset(b) && Distinct(a)
    ensures Distinct(b)
  {
    forall i, j | 0 <= i < j < |b| ensures b[i] != b[j] {
      if b[i] == b[j] {
        assert b == b[..i] + [b[i]] + b[i + 1..j] + [b[j]] + b[j + 1..];
        assert multiset(b)[b[i]] >= 2;
        CountAtMostOne(a, b[i]);
      }
    }
  }

  /** In a list without repeats every id occurs at most once. */
  lemma {:induction false} CountAtMostOne(a: seq<string>, x: string)
    requires Distinct(a)
    ensures multiset(a)[x] <= 1
    decreases |a|
  {
    if |a| > 0 {
      var t := a[1..];
      assert a == [a[0]] + t;
      assert Distinct(t) by {
        forall i, j | 0 <= i < j < |t| ensures t[i] != t[j] {
          assert t[i] == a[i + 1] && t[j] == a[j + 1];
        }
      }
      CountAtMostOne(t, x);
      if a[0] == x {
        assert x !in t by {
          forall i | 0 <= i < |t| ensures t[i] != x {
            assert t[i] == a[i + 1];
          }
        }
      }
    }
  }

  /** `prepareNodesForFirstReplication` makes each chosen node hold key, and no other. */
  function LinkKey(nodeMap: map<string, NodeMeta>, chosen: set<string>, key: string): (r: map<string, NodeMeta>)
  {
    map id | id in nodeMap :: if id in chosen then nodeMap[id].(keys := nodeMap[id].keys + {key}) else nodeMap[id]
  }

  /** The nodes linked to key afterwards are the chosen ones plus those that held it already. */
  lemma LinkKeyMeaning(nodeMap: map<string, NodeMeta>, chosen: set<string>, key: string, id: string)
    requires id in nodeMap
    ensures var r := LinkKey(nodeMap, chosen, key);
            && id in r && r[id].id == nodeMap[id].id && r[id].killed == nodeMap[id].killed
            && (key in r[id].keys <==> id in chosen || key in nodeMap[id].keys)
            && (forall k :: k != key ==> (k in r[id].keys <==> k in nodeMap[id].keys))
  {
  }

  // ---------------------------------------------------------------------------
  // Merging the nodes' answers
  // ---------------------------------------------------------------------------

  /**
   * One reply folded into the writes built so far: a key seen for the first
   * time becomes a PUT of its entry, and a later entry replaces the write only
   * with a strictly newer version. An unavailable reply is skipped.
   */
  function MergeReply(keyMap: map<string, KeyArg>, reply: Reply): (r: map<string, KeyArg>)
  {
    if reply.unavailable then keyMap
    else
      map k | k in keyMap.Keys + reply.values.Keys ::
        if k !in keyMap then KeyArg(PUT, reply.values[k].version, "", reply.values[k].value)
        else if k in reply.values && keyMap[k].version < reply.values[k].version
        then keyMap[k].(version := reply.values[k].version, newVal := reply.values[k].value)
        else keyMap[k]
  }

  /** The writes built from the replies rs, in the order they arrived. */
  function MergeAll(rs: seq<Reply>): (r: map<string, KeyArg>)
    decreases |rs|
  {
    if |rs| == 0 then map[] else MergeReply(MergeAll(rs[..|rs| - 1]), rs[|rs| - 1])
  }

  /** The merge stops right after taking j replies: the last one is available and the writes reach keysUpto keys. */
  predicate StopsAfter(replies: seq<Reply>, keysUpto: int, j: nat)
    requires 0 < j <= |replies|
  {
    !replies[j - 1].unavailable && |MergeAll(replies[..j])| >= keysUpto
  }

  /**
   * `mergeReplicatingQuery`: takes up to nodesUpto replies from the channel
   * (the sequence `replies`) and returns the merged writes, stopping early
   * after an available reply that brings the number of keys to keysUpto.
   * `taken` is how many replies it took. A channel that delivers fewer
   * replies blocks the source forever; the model asks for enough of them.
   */
  method MergeReplicatingQuery(nodesUpto: nat, keysUpto: int, replies: seq<Reply>) returns (keyMap: map<string, KeyArg>, taken: nat)
    requires nodesUpto <= |replies|
    ensures taken <= nodesUpto && keyMap == MergeAll(replies[..taken])
    ensures taken < nodesUpto ==> 0 < taken && StopsAfter(replies, keysUpto, taken)
    ensures forall j :: 0 < j < taken ==> !StopsAfter(replies, keysUpto, j)
  {
    keyMap := map[];
    var i := 0;
    assert replies[..0] == [];
    while i < nodesUpto
      invariant i <= nodesUpto && keyMap == MergeAll(replies[..i])
      invariant forall j :: 0 < j <= i ==> !StopsAfter(replies, keysUpto, j)
    {
      var reply := replies[i];
      MergeAllStep(replies, i);
      keyMap := MergeReply(keyMap, reply);
      if !reply.unavailable && |keyMap| >= keysUpto {
        assert StopsAfter(replies, keysUpto, i + 1);
        return keyMap, i + 1;
      }
      NoStopExtends(replies, keysUpto, i);
      i := i + 1;
    }
    return keyMap, i;
  }

  /** The merge that has not stopped after i + 1 replies has not stopped at any count up to i + 1. */
  lemma NoStopExtends(replies: seq<Reply>, keysUpto: int, i: nat)
    requires i < |replies|
    requires forall j :: 0 < j <= i ==> !StopsAfter(replies, keysUpto, j)
    requires !StopsAfter(replies, keysUpto, i + 1)
    ensures forall j :: 0 < j <= i + 1 ==> !StopsAfter(replies, keysUpto, j)
  {
  }

  lemma MergeAllStep(rs: seq<Reply>, i: nat)
    requires i < |rs|
    ensures MergeAll(rs[..i + 1]) == MergeReply(MergeAll(rs[..i]), rs[i])
  {
    assert rs[..i + 1][..i] == rs[..i];
  }

  /** Every merged write is a PUT with an empty test value. */
  lemma {:induction false} MergedArePuts(rs: seq<Reply>)
    ensures forall k :: k in MergeAll(rs) ==> MergeAll(rs)[k].kind == PUT && MergeAll(rs)[k].testVal == ""
    decreases |rs|
  {
    if |rs| > 0 {
      MergedArePuts(rs[..|rs| - 1]);
    }
  }

  /** A key is merged exactly when some available reply has an entry for it. */
  lemma {:induction false} MergedKeys(rs: seq<Reply>, k: string)
    ensures k in MergeAll(rs) <==> exists j :: 0 <= j < |rs| && !rs[j].unavailable && k in rs[j].values
    decreases |rs|
  {
    if |rs| > 0 {
      var front := rs[..|rs| - 1];
      MergedKeys(front, k);
      if exists j :: 0 <= j < |front| && !front[j].unavailable && k in front[j].values {
        var j :| 0 <= j < |front| && !front[j].unavailable && k in front[j].values;
        assert rs[j] == front[j];
      }
      if exists j :: 0 <= j < |rs| && !rs[j].unavailable && k in rs[j].values {
        var j :| 0 <= j < |rs| && !rs[j].unavailable && k in rs[j].values;
        if j < |front| {
          assert front[j] == rs[j];
        }
      }
    }
  }

  /** Reply j is available and carries an entry for k. */
  predicate Offers(rs: seq<Reply>, j: int, k: string)
  {
    0 <= j < |rs| && !rs[j].unavailable && k in rs[j].values
  }

  /** No available reply offers a newer version of k than the merged write. */
  lemma {:induction false} MergeVersionIsMax(rs: seq<Reply>, k: string, j: int)
    requires k in MergeAll(rs) && Offers(rs, j, k)
    ensures rs[j].values[k].version <= MergeAll(rs)[k].version
    decreases |rs|
  {
    var n := |rs| - 1;
    var front := rs[..n];
    if j < n {
      assert Offers(front, j, k) && front[j] == rs[j];
      MergedKeys(front, k);
      MergeVersionIsMax(front, k, j);
    }
  }

  /**
   * The write merged for k carries the entry of the first reply whose
   * version for k is the highest: it is offered by some reply w, and the
   * replies before w offer strictly lower versions.
   */
  lemma {:induction false} MergeKeepsNewest(rs: seq<Reply>, k: string)
    requires k in MergeAll(rs)
    ensures exists w :: Offers(rs, w, k)
              && MergeAll(rs)[k].version == rs[w].values[k].version
              && MergeAll(rs)[k].newVal == rs[w].values[k].value
              && (forall j :: 0 <= j < w && Offers(rs, j, k) ==> rs[j].values[k].version < rs[w].values[k].version)
    decreases |rs|
  {
    var n := |rs| - 1;
    var front := rs[..n];
    var last := rs[n];
    if k in MergeAll(front) {
      MergeKeepsNewest(front, k);
      var w :| Offers(front, w, k)
               && MergeAll(front)[k].version == front[w].values[k].version
               && MergeAll(front)[k].newVal == front[w].values[k].value
               && (forall j :: 0 <= j < w && Offers(front, j, k) ==> front[j].values[k].version < front[w].values[k].version);
      assert front[w] == rs[w];
      if Offers(rs, n, k) && MergeAll(front)[k].version < last.values[k].version {
        forall j | 0 <= j < n && Offers(rs, j, k) ensures rs[j].values[k].version < last.values[k].version {
          assert Offers(front, j, k) && front[j] == rs[j];
          MergeVersionIsMax(front, k, j);
        }
      } else {
        forall j | 0 <= j < w && Offers(rs, j, k) ensures rs[j].values[k].version < rs[w].values[k].version {
          assert Offers(front, j, k) && front[j] == rs[j];
        }
      }
    } else {
      forall j | Offers(rs, j, k) && j < n ensures false {
        assert Offers(front, j, k);
        MergedKeys(front, k);
      }
    }
  }

  // ---------------------------------------------------------------------------
  // The front end's metadata
  // ---------------------------------------------------------------------------

  /** The ids in a list, as a set. */
  function Members(ids: seq<string>): set<string>
  {
    set id | id in ids
  }

  lemma MembersStep(ids: seq<string>, i: nat)
    requires i < |ids|
    ensures Members(ids[..i + 1]) == Members(ids[..i]) + {ids[i]}
  {
    assert ids[..i + 1] == ids[..i] + [ids[i]];
  }

  /** Linking one more chosen node is one more map update. */
  lemma LinkKeyStep(nodeMap: map<string, NodeMeta>, chosen: set<string>, key: string, id: string)
    requires id in nodeMap
    ensures var r := LinkKey(nodeMap, chosen, key);
            LinkKey(nodeMap, chosen + {id}, key) == r[id := r[id].(keys := r[id].keys + {key})]
  {
  }

  /** Which node a spawned replication is for, and the keys it must copy there. */
  datatype Assignment = Assignment(node: string, keys: set<string>)

  /** The keys left to place and the replications spawned so far. */
  datatype Partitioned = Partitioned(left: set<string>, spawned: seq<Assignment>)

  /** Every id of the order has a record. */
  predicate Known(nodeMap: map<string, NodeMeta>, order: seq<string>)
  {
    forall m :: 0 <= m < |order| ==> order[m] in nodeMap
  }

  /** The keys of left that the node does not hold. */
  function Lacking(node: NodeMeta, left: set<string>): set<string>
  {
    set k | k in left && k !in node.keys
  }

  /**
   * The walk of `partitionAndReplicate` over the nodes of the order from
   * position n on: each node gets the keys still left that it does not
   * hold, and the walk ends after the node that empties the set.
   */
  function Partition(nodeMap: map<string, NodeMeta>, order: seq<string>, n: nat, left: set<string>): (r: Partitioned)
    requires Known(nodeMap, order) && n <= |order|
    decreases |order| - n
  {
    if n == |order| then Partitioned(left, [])
    else
      var sub := Lacking(nodeMap[order[n]], left);
      var rest := left - sub;
      var here := if |sub| > 0 then [Assignment(order[n], sub)] else [];
      if |rest| == 0 then Partitioned(rest, here)
      else
        var tail := Partition(nodeMap, order, n + 1, rest);
        Partitioned(tail.left, here + tail.spawned)
  }

  /** Every node of the order from position n on holds k. */
  predicate HeldByAll(nodeMap: map<string, NodeMeta>, order: seq<string>, n: nat, k: string)
    requires Known(nodeMap, order)
  {
    forall m :: n <= m < |order| ==> k in nodeMap[order[m]].keys
  }

  /** A key stays unplaced exactly when every node of the order already holds it. */
  lemma {:induction false} PartitionLeft(nodeMap: map<string, NodeMeta>, order: seq<string>, n: nat, left: set<string>, k: string)
    requires Known(nodeMap, order) && n <= |order|
    ensures Partition(nodeMap, order, n, left).left <= left
    ensures k in Partition(nodeMap, order, n, left).left <==> k in left && HeldByAll(nodeMap, order, n, k)
    decreases |order| - n
  {
    if n < |order| {
      var rest := left - Lacking(nodeMap[order[n]], left);
      if |rest| > 0 {
        PartitionLeft(nodeMap, order, n + 1, rest, k);
      }
    }
  }

  /** The walk from position n, appended to the replications spawned before it. */
  function Appended(done: seq<Assignment>, r: Partitioned): Partitioned
  {
    Partitioned(r.left, done + r.spawned)
  }

  /** One step of the walk: node n takes the keys it lacks and the walk goes on from n + 1. */
  lemma PartitionStep(nodeMap: map<string, NodeMeta>, order: seq<string>, n: nat, left: set<string>, done: seq<Assignment>)
    requires Known(nodeMap, order) && n < |order|
    ensures var sub := Lacking(nodeMap[order[n]], left);
            var here := if |sub| > 0 then [Assignment(order[n], sub)] else [];
            Appended(done, Partition(nodeMap, order, n, left)) == Appended(done + here, Partition(nodeMap, order, n + 1, left - sub))
  {
    var sub := Lacking(nodeMap[order[n]], left);
    var here := if |sub| > 0 then [Assignment(order[n], sub)] else [];
    var rest := left - sub;
    var t := Partition(nodeMap, order, n + 1, rest);
    if |rest| == 0 {
      PartitionEmpty(nodeMap, order, n + 1);
      assert t == Partitioned({}, []);
    } else {
      assert done + (here + t.spawned) == (done + here) + t.spawned;
    }
  }

  /** Once the set is empty the walk changes nothing. */
  lemma PartitionEmpty(nodeMap: map<string, NodeMeta>, order: seq<string>, n: nat)
    requires Known(nodeMap, order) && n <= |order|
    ensures Partition(nodeMap, order, n, {}) == Partitioned({}, [])
  {
    if n < |order| {
      assert Lacking(nodeMap[order[n]], {}) == {};
    }
  }

  /**
   * Each spawned replication goes to a node of the order that lacks every one
   * of its keys, all of them taken from the set and none left in it.
   */
  lemma {:induction false} PartitionSpawned(nodeMap: map<string, NodeMeta>, order: seq<string>, n: nat, left: set<string>)
    requires Known(nodeMap, order) && n <= |order|
    ensures var r := Partition(nodeMap, order, n, left);
            && (forall a :: a in r.spawned ==> a.node in order[n..] && a.keys != {} && a.keys <= left && a.keys !! r.left)
            && (forall a, k :: a in r.spawned && k in a.keys ==> k !in nodeMap[a.node].keys)
    decreases |order| - n
  {
    if n < |order| {
      var sub := Lacking(nodeMap[order[n]], left);
      var rest := left - sub;
      var here := if |sub| > 0 then [Assignment(order[n], sub)] else [];
      if |rest| > 0 {
        PartitionSpawned(nodeMap, order, n + 1, rest);
        PartitionLeft(nodeMap, order, n + 1, rest, "");
        var t := Partition(nodeMap, order, n + 1, rest);
        assert Partition(nodeMap, order, n, left).spawned == here + t.spawned;
        assert order[n..] == [order[n]] + order[n + 1..];
      }
    }
  }

  /** No two spawned replications share a node or a key. */
  lemma {:induction false} PartitionSpawnedApart(nodeMap: map<string, NodeMeta>, order: seq<string>, n: nat, left: set<string>)
    requires Known(nodeMap, order) && Distinct(order) && n <= |order|
    ensures var r := Partition(nodeMap, order, n, left);
            && (forall i, j :: 0 <= i < j < |r.spawned| ==> r.spawned[i].node != r.spawned[j].node)
            && (forall i, j :: 0 <= i < j < |r.spawned| ==> r.spawned[i].keys !! r.spawned[j].keys)
    decreases |order| - n
  {
    if n < |order| {
      var sub := Lacking(nodeMap[order[n]], left);
      var rest := left - sub;
      var here := if |sub| > 0 then [Assignment(order[n], sub)] else [];
      if |rest| > 0 {
        PartitionSpawnedApart(nodeMap, order, n + 1, rest);
        PartitionSpawned(nodeMap, order, n + 1, rest);
        var t := Partition(nodeMap, order, n + 1, rest);
        assert Partition(nodeMap, order, n, left).spawned == here + t.spawned;
        assert order[n] !in order[n + 1..] by {
          forall m | n + 1 <= m < |order| ensures order[m] != order[n] {
          }
        }
      }
    }
  }

  /** A key taken from the set went to some spawned replication. */
  lemma {:induction false} PartitionCovers(nodeMap: map<string, NodeMeta>, order: seq<string>, n: nat, left: set<string>, k: string)
    requires Known(nodeMap, order) && n <= |order|
    requires k in left && k !in Partition(nodeMap, order, n, left).left
    ensures exists a :: a in Partition(nodeMap, order, n, left).spawned && k in a.keys
    decreases |order| - n
  {
    var sub := Lacking(nodeMap[order[n]], left);
    if k in sub {
      assert Assignment(order[n], sub) in Partition(nodeMap, order, n, left).spawned;
    } else {
      PartitionCovers(nodeMap, order, n + 1, left - sub, k);
    }
  }


  /** The front end's shared metadata: every key's record and every node's record. */
  class FrontEnd {
    var keyMap: map<string, KeyMeta>
    var nodeMap: map<string, NodeMeta>

    /** A node's record is filed under its own id. */
    predicate Valid()
      reads this
    {
      forall id :: id in nodeMap ==> nodeMap[id].id == id
    }

    constructor ()
      ensures Valid() && keyMap == map[] && nodeMap == map[]
    {
      keyMap := map[];
      nodeMap := map[];
    }

    /**
     * The node list of `prepareNodesForFirstReplication`: all nodes,
     * shuffled in their first min(#nodes, replicationFactor) places, cut to
     * that many.
     */
    method ChooseNodes(replicationFactor: nat) returns (chosen: seq<string>)
      ensures |chosen| == (if |nodeMap| < replicationFactor then |nodeMap| else replicationFactor)
      ensures Distinct(chosen) && forall id :: id in chosen ==> id in nodeMap
    {
      var list := GetNodesAsList(nodeMap);
      ghost var before := list[..];
      var upto := list.Length;
      if upto > replicationFactor {
        upto := replicationFactor;
      }
      RandomizeNodes(list, upto);
      PermutationDistinct(before, list[..]);
      chosen := list[..upto];
      forall id | id in chosen ensures id in nodeMap {
        assert id in multiset(list[..]);
        assert id in multiset(before);
      }
      assert Distinct(chosen) by {
        forall i, j | 0 <= i < j < |chosen| ensures chosen[i] != chosen[j] {
          assert chosen[i] == list[..][i] && chosen[j] == list[..][j];
        }
      }
    }

    /**
     * `prepareNodesForFirstReplication`: records key at version 0 held by
     * exactly the chosen nodes, and adds key to each of their key sets.
     */
    method PrepareNodesForFirstReplication(key: string, replicationFactor: nat) returns (chosen: seq<string>, meta: KeyMeta)
      requires Valid()
      modifies this
      ensures Valid()
      ensures |chosen| == (if |old(nodeMap)| < replicationFactor then |old(nodeMap)| else replicationFactor)
      ensures Distinct(chosen) && forall id :: id in chosen ==> id in old(nodeMap)
      ensures meta == KeyMeta(0, false, 0, Members(chosen))
      ensures keyMap == old(keyMap)[key := meta]
      ensures nodeMap == LinkKey(old(nodeMap), Members(chosen), key)
    {
      chosen := ChooseNodes(replicationFactor);
      meta := KeyMeta(0, false, 0, {});
      keyMap := keyMap[key := meta];
      ghost var start := nodeMap;
      var i := 0;
      assert chosen[..0] == [];
      while i < |chosen|
        invariant i <= |chosen|
        invariant meta == KeyMeta(0, false, 0, Members(chosen[..i]))
        invariant keyMap == old(keyMap)[key := KeyMeta(0, false, 0, {})]
        invariant nodeMap == LinkKey(start, Members(chosen[..i]), key)
      {
        var id := chosen[i];
        LinkKeyStep(start, Members(chosen[..i]), key, id);
        MembersStep(chosen, i);
        nodeMap := nodeMap[id := nodeMap[id].(keys := nodeMap[id].keys + {key})];
        meta := meta.(nodes := meta.nodes + {id});
        i := i + 1;
      }
      keyMap := keyMap[key := meta];
      assert chosen[..i] == chosen;
      forall id | id in nodeMap ensures nodeMap[id].id == id {
        LinkKeyMeaning(start, Members(chosen), key, id);
      }
    }


    /**
     * The loop of `partitionAndReplicate` over the shuffled node list: each
     * node gets the keys still left that it does not hold, which are deleted
     * from the caller's set; the loop stops once the set is empty.
     */
    method Walk(nodes: seq<string>, keys: set<string>) returns (left: set<string>, spawned: seq<Assignment>)
      requires Known(nodeMap, nodes)
      ensures Partition(nodeMap, nodes, 0, keys) == Partitioned(left, spawned)
    {
      left := keys;
      spawned := [];
      var n := 0;
      while n < |nodes|
        invariant n <= |nodes|
        invariant Partition(nodeMap, nodes, 0, keys) == Appended(spawned, Partition(nodeMap, nodes, n, left))
      {
        var node := nodes[n];
        var subkeys := Lacking(nodeMap[node], left);
        ghost var here := if |subkeys| > 0 then [Assignment(node, subkeys)] else [];
        ghost var step := Partition(nodeMap, nodes, n + 1, left - subkeys);
        PartitionStep(nodeMap, nodes, n, left, spawned);
        ghost var done := spawned;
        left := left - subkeys;
        if |subkeys| > 0 {
          spawned := spawned + [Assignment(node, subkeys)];
        } else {
          assert done + here == done;
        }
        assert spawned == done + here;
        n := n + 1;
        if |left| == 0 {
          break;
        }
      }
      if n < |nodes| {
        PartitionEmpty(nodeMap, nodes, n);
      }
    }

    /**
     * `partitionAndReplicate`: shuffles the node list and walks it. Returns
     * the caller's set afterwards and the replications it would spawn; the
     * shuffled order is returned as a ghost.
     */
    method PartitionAndReplicate(keys: set<string>) returns (left: set<string>, spawned: seq<Assignment>, ghost order: seq<string>)
      ensures Known(nodeMap, order) && Distinct(order) && Members(order) == nodeMap.Keys
      ensures Partition(nodeMap, order, 0, keys) == Partitioned(left, spawned)
    {
      var list := GetNodesAsList(nodeMap);
      ghost var all := list[..];
      RandomizeNodes(list, list.Length);
      PermutationDistinct(all, list[..]);
      var nodes := list[..];
      order := nodes;
      assert Members(order) == nodeMap.Keys by {
        forall id ensures id in order <==> id in nodeMap {
          assert id in order <==> id in multiset(order);
          assert id in all <==> id in multiset(all);
        }
      }
      assert Known(nodeMap, order) by {
        forall m | 0 <= m < |order| ensures order[m] in nodeMap {
          assert order[m] in Members(order);
        }
      }
      left, spawned := Walk(nodes, keys);
    }
  }

  /**
   * What `partitionAndReplicate` promises, whatever the shuffle: a key stays
   * in the caller's set exactly when every node already holds it; every
   * other key goes to exactly one spawned replication, to a node lacking it;
   * no node gets two replications.
   */
  lemma PartitionPlacesKeys(nodeMap: map<string, NodeMeta>, order: seq<string>, keys: set<string>)
    requires Known(nodeMap, order) && Distinct(order) && Members(order) == nodeMap.Keys
    ensures var r := Partition(nodeMap, order, 0, keys);
            && (forall k :: k in r.left <==> k in keys && forall id :: id in nodeMap ==> k in nodeMap[id].keys)
            && (forall k :: k in keys && k !in r.left ==> exists a :: a in r.spawned && k in a.keys)
            && (forall a, k :: a in r.spawned && k in a.keys ==> a.node in nodeMap && k in keys && k !in nodeMap[a.node].keys)
            && (forall i, j :: 0 <= i < j < |r.spawned| ==> r.spawned[i].node != r.spawned[j].node && r.spawned[i].keys !! r.spawned[j].keys)
  {
    var r := Partition(nodeMap, order, 0, keys);
    PartitionSpawned(nodeMap, order, 0, keys);
    PartitionSpawnedApart(nodeMap, order, 0, keys);
    assert order[0..] == order;
    forall k ensures k in r.left <==> k in keys && forall id :: id in nodeMap ==> k in nodeMap[id].keys {
      PartitionLeft(nodeMap, order, 0, keys, k);
      if HeldByAll(nodeMap, order, 0, k) {
        forall id | id in nodeMap ensures k in nodeMap[id].keys {
          assert id in Members(order);
          var m :| 0 <= m < |order| && order[m] == id;
        }
      }
      if forall id :: id in nodeMap ==> k in nodeMap[id].keys {
        assert HeldByAll(nodeMap, order, 0, k);
      }
    }
    forall k | k in keys && k !in r.left ensures exists a :: a in r.spawned && k in a.keys {
      PartitionCovers(nodeMap, order, 0, keys, k);
    }
    forall a | a in r.spawned ensures a.node in nodeMap {
      assert a.node in Members(order);
    }
  }
}
