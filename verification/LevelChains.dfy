/** The level of a task is the length of its longest dependency chain, so a task list has only
    one levelling; and every list that can be scheduled has one. */
module LevelChains {
  import opened Containers
  import opened CollectionTypes
  import opened TaskGraph

  /** A dependency chain inside tasks that ends at t. */
  ghost predicate ChainTo(tasks: seq<CollectionTask>, p: seq<CollectionTask>, t: CollectionTask) {
    && p != [] && Last(p) == t
    && (forall u :: u in p ==> u in tasks)
    && (forall i, j :: 0 <= i && j == i + 1 < |p| ==> p[i].taskId in p[j].dependsOn)
  }

  ghost predicate LongestChain(tasks: seq<CollectionTask>, t: CollectionTask, n: nat) {
    && (exists p :: ChainTo(tasks, p, t) && |p| == n)
    && (forall p :: ChainTo(tasks, p, t) ==> |p| <= n)
  }

  lemma LevelMember(tasks: seq<CollectionTask>, levels: seq<seq<CollectionTask>>, t: CollectionTask)
    requires IsLevelling(tasks, levels)
    ensures t in tasks <==> exists k :: 0 <= k < |levels| && t in levels[k]
  {
    PermutationLength(tasks, Flatten(levels));
    FlattenMember(levels, t);
  }

  lemma SameId(tasks: seq<CollectionTask>, t: CollectionTask, u: CollectionTask)
    requires UniqueIds(tasks) && t in tasks && u in tasks && t.taskId == u.taskId
    ensures t == u
  {
  }

  lemma {:induction false} ChainReaches(tasks: seq<CollectionTask>, levels: seq<seq<CollectionTask>>,
                                        k: nat, t: CollectionTask)
    returns (p: seq<CollectionTask>)
    requires IsLevelling(tasks, levels) && k < |levels| && t in levels[k]
    ensures ChainTo(tasks, p, t) && |p| == k + 1
    decreases k
  {
    LevelMember(tasks, levels, t);
    if k == 0 {
      p := [t];
    } else {
      assert DependsOnLevel(levels[k - 1], t);
      var u :| u in levels[k - 1] && u.taskId in t.dependsOn;
      var below := ChainReaches(tasks, levels, k - 1, u);
      p := below + [t];
    }
  }

  lemma {:induction false} ChainBound(tasks: seq<CollectionTask>, levels: seq<seq<CollectionTask>>,
                                      k: nat, t: CollectionTask, p: seq<CollectionTask>)
    requires IsLevelling(tasks, levels) && UniqueIds(tasks) && k < |levels| && t in levels[k]
    requires ChainTo(tasks, p, t)
    ensures |p| <= k + 1
    decreases k
  {
    hide DependsOnLevel, Flatten, UniqueIds;
    if |p| > 1 {
      var below := Front(p);
      var u := Last(below);
      assert u == p[|p| - 2] && u.taskId in p[|p| - 1].dependsOn;
      assert InEarlierLevel(levels, k, u.taskId);
      var j, v :| 0 <= j < k && v in levels[j] && v.taskId == u.taskId;
      LevelMember(tasks, levels, v);
      SameId(tasks, u, v);
      ChainBound(tasks, levels, j, u, below);
    }
  }

  lemma LevelHasLongestChain(tasks: seq<CollectionTask>, levels: seq<seq<CollectionTask>>,
                             k: nat, t: CollectionTask)
    requires IsLevelling(tasks, levels) && UniqueIds(tasks) && k < |levels| && t in levels[k]
    ensures LongestChain(tasks, t, k + 1)
  {
    var p := ChainReaches(tasks, levels, k, t);
    forall q | ChainTo(tasks, q, t) ensures |q| <= k + 1 {
      ChainBound(tasks, levels, k, t, q);
    }
  }

  lemma LongestChainUnique(tasks: seq<CollectionTask>, t: CollectionTask, m: nat, n: nat)
    requires LongestChain(tasks, t, m) && LongestChain(tasks, t, n)
    ensures m == n
  {
    var p :| ChainTo(tasks, p, t) && |p| == m;
    var q :| ChainTo(tasks, q, t) && |q| == n;
  }

  lemma LevelExists(tasks: seq<CollectionTask>, levels: seq<seq<CollectionTask>>, t: CollectionTask)
    returns (k: nat)
    requires IsLevelling(tasks, levels) && t in tasks
    ensures k < |levels| && t in levels[k]
  {
    LevelMember(tasks, levels, t);
    k :| 0 <= k < |levels| && t in levels[k];
  }

  /** The level index of a task is the length of the longest dependency chain below it. */
  lemma LevelIsLongestChain(tasks: seq<CollectionTask>, levels: seq<seq<CollectionTask>>,
                            k: nat, t: CollectionTask)
    requires IsLevelling(tasks, levels) && UniqueIds(tasks) && t in tasks && k < |levels|
    ensures t in levels[k] <==> LongestChain(tasks, t, k + 1)
  {
    hide IsLevelling, UniqueIds, LongestChain;
    var l := LevelExists(tasks, levels, t);
    LevelHasLongestChain(tasks, levels, l, t);
    if t in levels[k] {
      LevelHasLongestChain(tasks, levels, k, t);
    } else if LongestChain(tasks, t, k + 1) {
      LongestChainUnique(tasks, t, k + 1, l + 1);
    }
  }

  /** A task list has at most one levelling, up to the order inside each level. */
  lemma LevellingIsUnique(tasks: seq<CollectionTask>, a: seq<seq<CollectionTask>>, b: seq<seq<CollectionTask>>,
                          k: nat, t: CollectionTask)
    requires IsLevelling(tasks, a) && IsLevelling(tasks, b) && UniqueIds(tasks)
    requires k < |a| && t in a[k]
    ensures k < |b| && t in b[k]
  {
    LevelMember(tasks, a, t);
    hide IsLevelling, UniqueIds, LongestChain;
    var l := LevelExists(tasks, b, t);
    LevelHasLongestChain(tasks, a, k, t);
    LevelHasLongestChain(tasks, b, l, t);
    LongestChainUnique(tasks, t, k + 1, l + 1);
  }

  // ----- Every schedulable list has a levelling --------------------------------------------

  lemma {:induction false} ListOf(s: set<string>) returns (xs: seq<string>)
    ensures Distinct(xs) && forall x :: x in xs <==> x in s
  {
    xs := [];
    if s != {} {
      var x :| x in s;
      var rest := ListOf(s - {x});
      xs := rest + [x];
    }
  }

  /** An id that only the ids of queue kept waiting depends on one of them. */
  lemma FreedByQueue(edges: seq<Edge>, done: set<string>, queue: seq<string>, c: string)
    requires Pending(edges, done, c) != 0 && Pending(edges, done + Elements(queue), c) == 0
    ensures HasDependencyIn(edges, queue, c)
  {
    PendingZero(edges, done, c);
    PendingZero(edges, done + Elements(queue), c);
    var e :| e in edges && e.child == c && e.dep !in done;
    assert e.dep in queue && e == Edge(e.dep, c);
  }

  /** The ids that become ready once the queue is placed. */
  lemma NextQueue(
      edges: seq<Edge>, ids: set<string>, levels: seq<seq<string>>, queue: seq<string>, indegree: map<string, int>)
    returns (next: seq<string>, indegree': map<string, int>)
    requires Frontier(edges, ids, levels, queue, indegree) && queue != []
    requires forall e :: e in edges ==> e.child in ids
    ensures Frontier(edges, ids, levels + [queue], next, indegree')
    ensures ids - Elements(Flatten(levels + [queue])) < ids - Elements(Flatten(levels))
  {
    hide Pending, HasDependencyIn, IdLevelling;
    var done := Elements(Flatten(levels));
    var placed := done + Elements(queue);
    indegree' := map c | c in ids :: Pending(edges, placed, c);
    next := ListOf(set c | c in ids && c !in placed && Pending(edges, placed, c) == 0);
    forall c | c in next ensures HasDependencyIn(edges, queue, c) {
      FreedByQueue(edges, done, queue, c);
    }
    CountersStep(edges, ids, done, queue, indegree, next, indegree');
    PlacedElements(levels, queue);
    IdLevellingSnoc(edges, levels, queue);
    assert Last(levels + [queue]) == queue;
  }

  /** Placing queue after queue ends with nothing ready. */
  lemma {:induction false} GrowLevels(
      edges: seq<Edge>, ids: set<string>, levels: seq<seq<string>>, queue: seq<string>, indegree: map<string, int>)
    returns (levels': seq<seq<string>>, indegree': map<string, int>)
    requires Frontier(edges, ids, levels, queue, indegree)
    requires forall e :: e in edges ==> e.child in ids
    ensures Frontier(edges, ids, levels', [], indegree')
    decreases ids - Elements(Flatten(levels))
  {
    if queue == [] {
      levels', indegree' := levels, indegree;
    } else {
      var next, counters := NextQueue(edges, ids, levels, queue, indegree);
      levels', indegree' := GrowLevels(edges, ids, levels + [queue], next, counters);
    }
  }

  /** The levels of ids as levels of tasks. */
  lemma {:induction false} PickLevels(byId: map<string, CollectionTask>, idLevels: seq<seq<string>>)
    returns (levels: seq<seq<CollectionTask>>)
    requires Elements(Flatten(idLevels)) <= byId.Keys
    ensures TasksOf(byId, idLevels, levels)
  {
    levels := [];
    if idLevels != [] {
      var front, last := Front(idLevels), Last(idLevels);
      assert idLevels == front + [last];
      forall x | x in Elements(Flatten(front)) || x in Elements(last) ensures x in byId.Keys {
        assert x in Elements(Flatten(idLevels));
      }
      levels := PickLevels(byId, front);
      TasksOfSnoc(byId, front, levels, last);
      levels := levels + [Pick(byId, last)];
    }
  }

  lemma TasksById(tasks: seq<CollectionTask>) returns (byId: map<string, CollectionTask>)
    ensures byId.Keys == Ids(tasks)
    ensures forall id :: id in byId ==> byId[id] in tasks && byId[id].taskId == id
  {
    byId := map id | id in Ids(tasks) :: var t :| t in tasks && t.taskId == id; t;
  }

  /** Every schedulable list has a levelling. */
  lemma LevellingExists(tasks: seq<CollectionTask>) returns (levels: seq<seq<CollectionTask>>)
    requires Schedulable(tasks)
    ensures IsLevelling(tasks, levels)
  {
    hide Pending, HasDependencyIn, IdLevelling;
    var edges, ids := Edges(tasks), Ids(tasks);
    forall e | e in edges ensures e.child in ids {
      EdgesSound(tasks, e);
    }
    var degrees := map c | c in ids :: Pending(edges, {}, c);
    var queue := ListOf(set c | c in ids && degrees[c] == 0);
    InitialFrontier(edges, ids, queue, degrees);
    var idLevels, indegree := GrowLevels(edges, ids, [], queue, degrees);
    var byId := TasksById(tasks);
    levels := PickLevels(byId, idLevels);
    Complete(tasks, byId, idLevels, levels, indegree);
  }
}
