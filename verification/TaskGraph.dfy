/** Level-wise topological scheduling of collection tasks.

    The scheduler is Kahn's algorithm run level by level over in-degree counters that count
    dependency occurrences, repeats included.  DependencyLevels raises exactly when the list
    repeats an id, names an unknown dependency, or has a dependency cycle. */
module TaskGraph {
  import opened Containers
  import opened CollectionTypes

  // ----- What a schedulable task list is ---------------------------------------------------

  function Ids(tasks: seq<CollectionTask>): set<string> {
    set t | t in tasks :: t.taskId
  }

  ghost predicate UniqueIds(tasks: seq<CollectionTask>) {
    forall i, j :: 0 <= i < j < |tasks| ==> tasks[i].taskId != tasks[j].taskId
  }

  ghost predicate KnownDependencies(tasks: seq<CollectionTask>) {
    forall t, d :: t in tasks && d in t.dependsOn ==> d in Ids(tasks)
  }

  /** Some task with id a lists b among its dependencies. */
  ghost predicate DependsOn(tasks: seq<CollectionTask>, a: string, b: string) {
    exists t :: t in tasks && t.taskId == a && b in t.dependsOn
  }

  /** Each id on the path depends on the next one. */
  ghost predicate DependencyPath(tasks: seq<CollectionTask>, p: seq<string>) {
    forall i, j :: 0 <= i && j == i + 1 < |p| ==> DependsOn(tasks, p[i], p[j])
  }

  ghost predicate IsCycle(tasks: seq<CollectionTask>, p: seq<string>) {
    |p| >= 2 && p[0] == p[|p| - 1] && DependencyPath(tasks, p)
  }

  ghost predicate HasCycle(tasks: seq<CollectionTask>) {
    exists p :: IsCycle(tasks, p)
  }

  ghost predicate Schedulable(tasks: seq<CollectionTask>) {
    UniqueIds(tasks) && KnownDependencies(tasks) && !HasCycle(tasks)
  }

  // ----- What a levelling is ---------------------------------------------------------------

  function Flatten<T>(levels: seq<seq<T>>): seq<T> {
    if levels == [] then [] else Flatten(Front(levels)) + Last(levels)
  }

  /** Some task in one of the first k levels has id d. */
  ghost predicate InEarlierLevel(levels: seq<seq<CollectionTask>>, k: nat, d: string)
    requires k <= |levels|
  {
    exists j, u :: 0 <= j < k && u in levels[j] && u.taskId == d
  }

  ghost predicate DependsOnLevel(level: seq<CollectionTask>, t: CollectionTask) {
    exists u :: u in level && u.taskId in t.dependsOn
  }

  /** levels rearranges tasks so that every dependency lies strictly earlier and every task of
      a later level needs something from the level just before it. */
  ghost predicate IsLevelling(tasks: seq<CollectionTask>, levels: seq<seq<CollectionTask>>) {
    && IsPermutation(tasks, Flatten(levels))
    && (forall k :: 0 <= k < |levels| ==> levels[k] != [])
    && (forall k, t, d :: 0 <= k < |levels| && t in levels[k] && d in t.dependsOn ==>
          InEarlierLevel(levels, k, d))
    && (forall k, t :: 0 < k < |levels| && t in levels[k] ==> DependsOnLevel(levels[k - 1], t))
  }

  // ----- Dependency occurrences ------------------------------------------------------------

  /** A dependency occurrence: child waits for dep. */
  datatype Edge = Edge(dep: string, child: string)

  function TaskEdges(id: string, deps: seq<string>): seq<Edge> {
    if deps == [] then [] else TaskEdges(id, Front(deps)) + [Edge(Last(deps), id)]
  }

  function Edges(tasks: seq<CollectionTask>): seq<Edge> {
    if tasks == [] then []
    else Edges(Front(tasks)) + TaskEdges(Last(tasks).taskId, Last(tasks).dependsOn)
  }

  /** How many occurrences of a dependency of c are not in done. */
  function Pending(edges: seq<Edge>, done: set<string>, c: string): nat {
    if edges == [] then 0
    else
      Pending(Front(edges), done, c)
      + if Last(edges).child == c && Last(edges).dep !in done then 1 else 0
  }

  function Children(edges: seq<Edge>, u: string): seq<string> {
    if edges == [] then []
    else Children(Front(edges), u) + if Last(edges).dep == u then [Last(edges).child] else []
  }

  lemma {:induction false} TaskEdgesSound(id: string, deps: seq<string>, e: Edge)
    ensures e in TaskEdges(id, deps) <==> e.child == id && e.dep in deps
  {
    if deps != [] {
      TaskEdgesSound(id, Front(deps), e);
      assert deps == Front(deps) + [Last(deps)];
    }
  }

  /** The edges are exactly the dependency relation. */
  lemma {:induction false} EdgesSound(tasks: seq<CollectionTask>, e: Edge)
    ensures e in Edges(tasks) <==> DependsOn(tasks, e.child, e.dep)
  {
    if tasks != [] {
      EdgesSound(Front(tasks), e);
      TaskEdgesSound(Last(tasks).taskId, Last(tasks).dependsOn, e);
      assert tasks == Front(tasks) + [Last(tasks)];
    }
  }

  lemma {:induction false} PendingZero(edges: seq<Edge>, done: set<string>, c: string)
    ensures Pending(edges, done, c) == 0 <==> (forall e :: e in edges && e.child == c ==> e.dep in done)
  {
    if edges != [] {
      PendingZero(Front(edges), done, c);
      assert edges == Front(edges) + [Last(edges)];
    }
  }

  /** Finishing u lowers each child's pending count by its occurrences below u. */
  lemma {:induction false} PendingAfter(edges: seq<Edge>, done: set<string>, u: string, c: string)
    requires u !in done
    ensures Pending(edges, done, c)
         == Pending(edges, done + {u}, c) + multiset(Children(edges, u))[c]
  {
    if edges != [] {
      PendingAfter(Front(edges), done, u, c);
    }
  }

  lemma {:induction false} ChildrenSound(edges: seq<Edge>, u: string, c: string)
    ensures c in Children(edges, u) <==> Edge(u, c) in edges
  {
    if edges != [] {
      ChildrenSound(Front(edges), u, c);
      assert edges == Front(edges) + [Last(edges)];
    }
  }

  // ----- The counters ----------------------------------------------------------------------

  /** outgoing is a defaultdict: a missing key reads as the empty list. */
  function Outgoing(outgoing: map<string, seq<string>>, u: string): seq<string> {
    if u in outgoing then outgoing[u] else []
  }

  /** indegree counts the occurrences below each child, outgoing lists them by dependency. */
  ghost predicate EdgesCounted(edges: seq<Edge>, indegree: map<string, int>, outgoing: map<string, seq<string>>) {
    && (forall c :: c in indegree ==> indegree[c] == Pending(edges, {}, c))
    && (forall u :: Outgoing(outgoing, u) == Children(edges, u))
  }

  lemma EdgesCountedStep(edges: seq<Edge>, indegree: map<string, int>, outgoing: map<string, seq<string>>, e: Edge)
    requires EdgesCounted(edges, indegree, outgoing) && e.child in indegree
    ensures EdgesCounted(edges + [e], indegree[e.child := indegree[e.child] + 1],
                    outgoing[e.dep := Outgoing(outgoing, e.dep) + [e.child]])
  {
    var grown := edges + [e];
    assert Front(grown) == edges && Last(grown) == e;
    var outgoing' := outgoing[e.dep := Outgoing(outgoing, e.dep) + [e.child]];
    forall u ensures Outgoing(outgoing', u) == Children(grown, u) {
      assert Children(grown, u) == Children(edges, u) + if e.dep == u then [e.child] else [];
    }
  }

  /** The in-degree dictionary before counting, with its insertion order. */
  method ZeroDegrees(tasks: seq<CollectionTask>) returns (order: seq<string>, indegree: map<string, int>)
    ensures Distinct(order) && (forall c :: c in order <==> c in indegree)
    ensures indegree.Keys == Ids(tasks)
    ensures forall c :: c in indegree ==> indegree[c] == 0
  {
    order, indegree := [], map[];
    for i := 0 to |tasks|
      invariant Distinct(order) && (forall c :: c in order <==> c in indegree)
      invariant indegree.Keys == Ids(tasks[..i])
      invariant forall c :: c in indegree ==> indegree[c] == 0
    {
      assert tasks[..i + 1] == tasks[..i] + [tasks[i]];
      if tasks[i].taskId !in indegree { order := order + [tasks[i].taskId]; }
      indegree := indegree[tasks[i].taskId := 0];
    }
    assert tasks[..|tasks|] == tasks;
  }

  method CountTask(t: CollectionTask, ghost edges: seq<Edge>,
                   indegree: map<string, int>, outgoing: map<string, seq<string>>)
    returns (indegree': map<string, int>, outgoing': map<string, seq<string>>)
    requires t.taskId in indegree && EdgesCounted(edges, indegree, outgoing)
    ensures indegree'.Keys == indegree.Keys
    ensures EdgesCounted(edges + TaskEdges(t.taskId, t.dependsOn), indegree', outgoing')
  {
    indegree', outgoing' := indegree, outgoing;
    ghost var seen := edges;
    assert edges == edges + TaskEdges(t.taskId, t.dependsOn[..0]);
    for j := 0 to |t.dependsOn|
      invariant indegree'.Keys == indegree.Keys
      invariant seen == edges + TaskEdges(t.taskId, t.dependsOn[..j])
      invariant EdgesCounted(seen, indegree', outgoing')
    {
      var dep := t.dependsOn[j];
      EdgesCountedStep(seen, indegree', outgoing', Edge(dep, t.taskId));
      indegree' := indegree'[t.taskId := indegree'[t.taskId] + 1];
      outgoing' := outgoing'[dep := Outgoing(outgoing', dep) + [t.taskId]];
      assert Front(t.dependsOn[..j + 1]) == t.dependsOn[..j];
      seen := seen + [Edge(dep, t.taskId)];
    }
    assert t.dependsOn[..|t.dependsOn|] == t.dependsOn;
  }

  /** The counting loops: in-degrees and outgoing lists, one entry per occurrence. */
  method CountDependencies(tasks: seq<CollectionTask>)
    returns (order: seq<string>, indegree: map<string, int>, outgoing: map<string, seq<string>>)
    ensures Distinct(order) && (forall c :: c in order <==> c in Ids(tasks))
    ensures indegree.Keys == Ids(tasks)
    ensures EdgesCounted(Edges(tasks), indegree, outgoing)
  {
    order, indegree := ZeroDegrees(tasks);
    outgoing := map[];
    for i := 0 to |tasks|
      invariant indegree.Keys == Ids(tasks)
      invariant EdgesCounted(Edges(tasks[..i]), indegree, outgoing)
    {
      indegree, outgoing := CountTask(tasks[i], Edges(tasks[..i]), indegree, outgoing);
      assert Front(tasks[..i + 1]) == tasks[..i];
    }
    assert tasks[..|tasks|] == tasks;
  }

  /** How often each id occurs in one more child. */
  lemma OccursInPrefix(children: seq<string>, i: nat, c: string)
    requires i < |children|
    ensures multiset(children[..i + 1])[c] == multiset(children[..i])[c] + if children[i] == c then 1 else 0
    ensures multiset(children[..i + 1])[c] <= multiset(children)[c]
  {
    assert children[..i + 1] == children[..i] + [children[i]];
    assert children == children[..i + 1] + children[i + 1..];
  }

  /** The counter and the queue count of c after the first i children. */
  ghost predicate Relaxed(children: seq<string>, i: nat, indegree: map<string, int>, queue: seq<string>,
                          indegree': map<string, int>, queue': seq<string>, c: string)
    requires i <= |children|
  {
    var occurs := multiset(children[..i])[c];
    && (c in indegree && c in indegree' ==> indegree'[c] == indegree[c] - occurs)
    && multiset(queue')[c] == multiset(queue)[c]
         + if c in indegree && occurs > 0 && indegree[c] == occurs then 1 else 0
  }

  lemma RelaxedNext(children: seq<string>, i: nat, indegree: map<string, int>, queue: seq<string>,
                    indegree0: map<string, int>, queue0: seq<string>, c: string)
    requires i < |children| && children[i] in indegree && indegree0.Keys == indegree.Keys
    requires c in indegree ==> indegree[c] >= multiset(children)[c]
    requires Relaxed(children, i, indegree, queue, indegree0, queue0, c)
    ensures var child := children[i];
            var left := indegree0[child] - 1;
            Relaxed(children, i + 1, indegree, queue, indegree0[child := left],
                    if left == 0 then queue0 + [child] else queue0, c)
  {
    OccursInPrefix(children, i, c);
  }

  /** The inner loop: decrement every child, queueing each one whose counter reaches zero. */
  method Relax(children: seq<string>, indegree: map<string, int>, queue: seq<string>)
    returns (indegree': map<string, int>, queue': seq<string>)
    requires forall c :: c in children ==> c in indegree
    requires forall c :: c in indegree ==> indegree[c] >= multiset(children)[c]
    ensures indegree'.Keys == indegree.Keys
    ensures forall c :: c in indegree ==> indegree'[c] == indegree[c] - multiset(children)[c]
    ensures forall c :: multiset(queue')[c] == multiset(queue)[c]
              + if c in children && indegree[c] == multiset(children)[c] then 1 else 0
  {
    indegree', queue' := indegree, queue;
    for i := 0 to |children|
      invariant indegree'.Keys == indegree.Keys
      invariant forall c :: Relaxed(children, i, indegree, queue, indegree', queue', c)
    {
      var child := children[i];
      ghost var indegree0, queue0, n := indegree', queue', i + 1;
      indegree' := indegree'[child := indegree'[child] - 1];
      if indegree'[child] == 0 { queue' := queue' + [child]; }
      forall c ensures Relaxed(children, n, indegree, queue, indegree', queue', c) {
        assert Relaxed(children, i, indegree, queue, indegree0, queue0, c);
        RelaxedNext(children, i, indegree, queue, indegree0, queue0, c);
      }
    }
    assert children[..|children|] == children;
    forall c
      ensures c in indegree ==> indegree'[c] == indegree[c] - multiset(children)[c]
      ensures multiset(queue')[c] == multiset(queue)[c]
                + if c in children && indegree[c] == multiset(children)[c] then 1 else 0
    {
      assert Relaxed(children, |children|, indegree, queue, indegree', queue', c);
      assert c in children <==> multiset(children)[c] > 0;
    }
  }

  // ----- One level -------------------------------------------------------------------------

  function Elements(s: seq<string>): set<string> {
    set x | x in s
  }

  /** The queue is exactly the unplaced ids with nothing pending. */
  ghost predicate Counters(edges: seq<Edge>, ids: set<string>, done: set<string>,
                           queue: seq<string>, indegree: map<string, int>)
  {
    && done <= ids && Elements(queue) <= ids - done && Distinct(queue)
    && indegree.Keys == ids
    && (forall c :: c in ids ==> indegree[c] == Pending(edges, done, c))
    && (forall c :: c in ids ==> (Pending(edges, done, c) == 0 <==> c in done || c in queue))
  }

  ghost predicate HasDependencyIn(edges: seq<Edge>, level: seq<string>, c: string) {
    exists d :: d in level && Edge(d, c) in edges
  }

  /** Every dependency lies in a strictly earlier level, and some lies just one level before. */
  ghost predicate IdLevelling(edges: seq<Edge>, levels: seq<seq<string>>) {
    && (forall k :: 0 <= k < |levels| ==> levels[k] != [])
    && (forall k, e :: 0 <= k < |levels| && e in edges && e.child in levels[k] ==>
          e.dep in Flatten(levels[..k]))
    && (forall k, c :: 0 < k < |levels| && c in levels[k] ==> HasDependencyIn(edges, levels[k - 1], c))
  }

  /** The scheduler between two levels: levels holds the ids already placed, queue the ids
      whose dependencies are all placed, and the counters ignore placed dependencies. */
  ghost predicate Frontier(edges: seq<Edge>, ids: set<string>, levels: seq<seq<string>>,
                           queue: seq<string>, indegree: map<string, int>)
  {
    var done := Elements(Flatten(levels));
    && Counters(edges, ids, done, queue, indegree)
    && |Flatten(levels)| == |done|
    && IdLevelling(edges, levels)
    && (levels != [] ==> forall c :: c in queue ==> HasDependencyIn(edges, Last(levels), c))
  }

  lemma PendingMonotone(edges: seq<Edge>, done: set<string>, more: set<string>, c: string)
    requires done <= more && Pending(edges, done, c) == 0
    ensures Pending(edges, more, c) == 0
  {
    PendingZero(edges, done, c);
    PendingZero(edges, more, c);
  }

  /** After relaxing the first i ids of current, c belongs to the next level. */
  ghost predicate Ready(edges: seq<Edge>, ids: set<string>, done: set<string>, current: seq<string>, i: nat, c: string)
    requires i <= |current|
  {
    && c in ids && c !in done && c !in current
    && Pending(edges, done + Elements(current[..i]), c) == 0
  }

  /** The counters and the next queue after relaxing the first i ids of current. */
  ghost predicate Relaxing(edges: seq<Edge>, ids: set<string>, done: set<string>, current: seq<string>,
                           i: nat, indegree: map<string, int>, next: seq<string>)
    requires i <= |current|
  {
    && indegree.Keys == ids
    && (forall c :: c in ids ==> indegree[c] == Pending(edges, done + Elements(current[..i]), c))
    && (forall c :: multiset(next)[c] == if Ready(edges, ids, done, current, i, c) then 1 else 0)
  }

  /** How relaxing current[i] bears on the id c. */
  ghost predicate StepFacts(edges: seq<Edge>, ids: set<string>, done: set<string>, current: seq<string>,
                            i: nat, c: string)
    requires i < |current|
  {
    var before, after := done + Elements(current[..i]), done + Elements(current[..i + 1]);
    var occurrences := multiset(Children(edges, current[i]))[c];
    && (c in Children(edges, current[i]) ==> c in ids)
    && Pending(edges, before, c) == Pending(edges, after, c) + occurrences
    && (Ready(edges, ids, done, current, i + 1, c) <==>
          || Ready(edges, ids, done, current, i, c)
          || (c in Children(edges, current[i]) && Pending(edges, before, c) == occurrences))
    && !(Ready(edges, ids, done, current, i, c) && c in Children(edges, current[i]))
  }

  /** Relaxing current[i]: its children were counted, and exactly those whose count it clears
      become ready. */
  lemma RelaxedStep(edges: seq<Edge>, ids: set<string>, done: set<string>, current: seq<string>, i: nat)
    requires i < |current| && Distinct(current) && Elements(current) !! done
    requires forall e :: e in edges ==> e.child in ids
    requires forall c :: c in ids && (c in done || c in current) ==> Pending(edges, done, c) == 0
    ensures forall c :: StepFacts(edges, ids, done, current, i, c)
  {
    var u := current[i];
    var before, after := done + Elements(current[..i]), done + Elements(current[..i + 1]);
    assert current[..i + 1] == current[..i] + [u];
    assert after == before + {u};
    assert u in Elements(current);
    forall c
      ensures StepFacts(edges, ids, done, current, i, c)
    {
      PendingAfter(edges, before, u, c);
      ChildrenSound(edges, u, c);
      if c in Children(edges, u) && (c in done || c in current) {
        PendingMonotone(edges, done, before, c);
      }
    }
  }

  method RelaxOne(ghost edges: seq<Edge>, ghost ids: set<string>, ghost done: set<string>,
                  current: seq<string>, i: nat, indegree: map<string, int>, next: seq<string>,
                  outgoing: map<string, seq<string>>)
    returns (indegree': map<string, int>, next': seq<string>)
    requires i < |current| && Relaxing(edges, ids, done, current, i, indegree, next)
    requires Outgoing(outgoing, current[i]) == Children(edges, current[i])
    requires forall c :: StepFacts(edges, ids, done, current, i, c)
    ensures Relaxing(edges, ids, done, current, i + 1, indegree', next')
  {
    forall c ensures c in Outgoing(outgoing, current[i]) ==> c in indegree
             ensures c in indegree ==> indegree[c] >= multiset(Outgoing(outgoing, current[i]))[c] {
      assert StepFacts(edges, ids, done, current, i, c);
    }
    indegree', next' := Relax(Outgoing(outgoing, current[i]), indegree, next);
    forall c
      ensures c in ids ==> indegree'[c] == Pending(edges, done + Elements(current[..i + 1]), c)
      ensures multiset(next')[c] == if Ready(edges, ids, done, current, i + 1, c) then 1 else 0
    {
      assert StepFacts(edges, ids, done, current, i, c);
    }
  }

  lemma LevelDone(edges: seq<Edge>, ids: set<string>, done: set<string>, current: seq<string>,
                  indegree: map<string, int>, next: seq<string>)
    requires Relaxing(edges, ids, done, current, |current|, indegree, next)
    requires forall c :: c in ids ==> (Pending(edges, done, c) == 0 <==> c in done || c in current)
    ensures forall c :: c in ids ==> indegree[c] == Pending(edges, done + Elements(current), c)
    ensures Distinct(next)
    ensures forall c :: c in next <==> c in ids && c !in done && c !in current
                                       && Pending(edges, done + Elements(current), c) == 0
    ensures forall c :: c in next ==> HasDependencyIn(edges, current, c)
  {
    assert current[..|current|] == current;
    DistinctFromCounts(next);
    forall c ensures c in next <==> Ready(edges, ids, done, current, |current|, c)
             ensures c in next ==> HasDependencyIn(edges, current, c) {
      assert c in next <==> c in multiset(next);
      if c in next {
        PendingZero(edges, done, c);
        PendingZero(edges, done + Elements(current), c);
        var e :| e in edges && e.child == c && e.dep !in done;
        assert e == Edge(e.dep, c) && e.dep in Elements(current);
      }
    }
  }

  /** The processing of one level: relaxes the children of every id of the current queue. */
  method ProcessLevel(ghost edges: seq<Edge>, ghost ids: set<string>, ghost done: set<string>,
                      current: seq<string>, indegree: map<string, int>, outgoing: map<string, seq<string>>)
    returns (indegree': map<string, int>, next: seq<string>)
    requires Distinct(current) && done <= ids && Elements(current) <= ids - done
    requires indegree.Keys == ids && (forall e :: e in edges ==> e.child in ids)
    requires forall u :: Outgoing(outgoing, u) == Children(edges, u)
    requires forall c :: c in ids ==> indegree[c] == Pending(edges, done, c)
    requires forall c :: c in ids ==> (Pending(edges, done, c) == 0 <==> c in done || c in current)
    ensures indegree'.Keys == ids
    ensures forall c :: c in ids ==> indegree'[c] == Pending(edges, done + Elements(current), c)
    ensures Distinct(next)
    ensures forall c :: c in next <==> c in ids && c !in done && c !in current
                                       && Pending(edges, done + Elements(current), c) == 0
    ensures forall c :: c in next ==> HasDependencyIn(edges, current, c)
  {
    indegree', next := indegree, [];
    assert done + Elements(current[..0]) == done;
    for i := 0 to |current|
      invariant Relaxing(edges, ids, done, current, i, indegree', next)
    {
      RelaxedStep(edges, ids, done, current, i);
      indegree', next := RelaxOne(edges, ids, done, current, i, indegree', next, outgoing);
    }
    LevelDone(edges, ids, done, current, indegree', next);
  }

  lemma FlattenSnoc<T>(levels: seq<seq<T>>, level: seq<T>)
    ensures Flatten(levels + [level]) == Flatten(levels) + level
  {
    assert Front(levels + [level]) == levels;
  }

  lemma {:induction false} FlattenCons<T>(level: seq<T>, levels: seq<seq<T>>)
    ensures Flatten([level] + levels) == level + Flatten(levels)
  {
    if levels == [] {
      assert Front([level] + levels) == [];
    } else {
      var front, last := Front(levels), Last(levels);
      assert levels == front + [last];
      assert [level] + levels == ([level] + front) + [last];
      hide Flatten;
      FlattenCons(level, front);
      FlattenSnoc([level] + front, last);
      FlattenSnoc(front, last);
    }
  }

  lemma {:induction false} FlattenMember<T>(levels: seq<seq<T>>, x: T)
    ensures x in Flatten(levels) <==> exists k :: 0 <= k < |levels| && x in levels[k]
  {
    if levels != [] {
      FlattenMember(Front(levels), x);
      if x in Last(levels) {
        assert x in levels[|levels| - 1];
      } else if x in Flatten(Front(levels)) {
        var k :| 0 <= k < |levels| - 1 && x in Front(levels)[k];
        assert x in levels[k];
      }
    }
  }

  lemma ElementsSize(xs: seq<string>)
    requires Distinct(xs)
    ensures |Elements(xs)| == |xs|
  {
    if xs != [] {
      assert xs == Front(xs) + [Last(xs)];
      ElementsSize(Front(xs));
      assert Elements(xs) == Elements(Front(xs)) + {Last(xs)};
    }
  }

  lemma IdLevellingSnoc(edges: seq<Edge>, levels: seq<seq<string>>, queue: seq<string>)
    requires IdLevelling(edges, levels) && queue != []
    requires forall e :: e in edges && e.child in queue ==> e.dep in Flatten(levels)
    requires levels != [] ==> forall c :: c in queue ==> HasDependencyIn(edges, Last(levels), c)
    ensures IdLevelling(edges, levels + [queue])
  {
    hide Flatten, HasDependencyIn;
    var levels' := levels + [queue];
    forall k, e | 0 <= k < |levels'| && e in edges && e.child in levels'[k]
      ensures e.dep in Flatten(levels'[..k])
    {
      assert levels'[..k] == levels[..k];
      assert levels[..|levels|] == levels;
    }
  }

  lemma CountersStep(edges: seq<Edge>, ids: set<string>, done: set<string>, queue: seq<string>,
                     indegree: map<string, int>, next: seq<string>, indegree': map<string, int>)
    requires Counters(edges, ids, done, queue, indegree)
    requires indegree'.Keys == ids && Distinct(next)
    requires forall c :: c in ids ==> indegree'[c] == Pending(edges, done + Elements(queue), c)
    requires forall c :: c in next <==> c in ids && c !in done && c !in queue
                                        && Pending(edges, done + Elements(queue), c) == 0
    ensures Counters(edges, ids, done + Elements(queue), next, indegree')
    ensures forall e :: e in edges && e.child in queue ==> e.dep in done
  {
    var placed := done + Elements(queue);
    forall c | c in ids ensures Pending(edges, placed, c) == 0 <==> c in placed || c in next {
      if c in done || c in queue {
        PendingMonotone(edges, done, placed, c);
      }
    }
    forall e | e in edges && e.child in queue ensures e.dep in done {
      PendingZero(edges, done, e.child);
      assert e.child in Elements(queue);
    }
  }

  lemma PlacedElements(levels: seq<seq<string>>, queue: seq<string>)
    requires queue != [] && Distinct(queue) && Elements(queue) !! Elements(Flatten(levels))
    requires |Flatten(levels)| == |Elements(Flatten(levels))|
    ensures Elements(Flatten(levels + [queue])) == Elements(Flatten(levels)) + Elements(queue)
    ensures |Flatten(levels + [queue])| == |Elements(Flatten(levels + [queue]))|
    ensures exists c :: c in Elements(queue)
  {
    var done, placed := Elements(Flatten(levels)), Elements(queue);
    FlattenSnoc(levels, queue);
    assert Elements(Flatten(levels + [queue])) == done + placed;
    assert queue[0] in placed;
    ElementsSize(queue);
    assert |done + placed| == |done| + |placed|;
  }

  /** One turn of the main loop: the queue becomes a level and the next queue is computed. */
  method PlaceLevel(ghost edges: seq<Edge>, ghost ids: set<string>, ghost levels: seq<seq<string>>,
                    queue: seq<string>, indegree: map<string, int>, outgoing: map<string, seq<string>>)
    returns (indegree': map<string, int>, next: seq<string>)
    requires Frontier(edges, ids, levels, queue, indegree) && queue != []
    requires forall e :: e in edges ==> e.child in ids
    requires forall u :: Outgoing(outgoing, u) == Children(edges, u)
    ensures Frontier(edges, ids, levels + [queue], next, indegree')
    ensures ids - Elements(Flatten(levels + [queue])) < ids - Elements(Flatten(levels))
  {
    hide Pending, Children, HasDependencyIn, IdLevelling;
    ghost var done := Elements(Flatten(levels));
    indegree', next := ProcessLevel(edges, ids, done, queue, indegree, outgoing);
    CountersStep(edges, ids, done, queue, indegree, next, indegree');
    PlacedElements(levels, queue);
    IdLevellingSnoc(edges, levels, queue);
    assert Last(levels + [queue]) == queue;
  }

  lemma InitialFrontier(edges: seq<Edge>, ids: set<string>, queue: seq<string>, indegree: map<string, int>)
    requires indegree.Keys == ids && Distinct(queue)
    requires forall c :: c in ids ==> indegree[c] == Pending(edges, {}, c)
    requires forall c :: c in queue <==> c in ids && indegree[c] == 0
    ensures Frontier(edges, ids, [], queue, indegree)
  {
    assert Elements(Flatten<string>([])) == {};
  }

  /** levels lists the tasks of idLevels. */
  ghost predicate TasksOf(byId: map<string, CollectionTask>, idLevels: seq<seq<string>>,
                          levels: seq<seq<CollectionTask>>)
  {
    && |levels| == |idLevels|
    && (forall k :: 0 <= k < |levels| ==> |levels[k]| == |idLevels[k]|)
    && (forall k, i :: 0 <= k < |levels| && 0 <= i < |levels[k]| ==>
          idLevels[k][i] in byId && levels[k][i] == byId[idLevels[k][i]])
  }

  function Pick(byId: map<string, CollectionTask>, ids: seq<string>): seq<CollectionTask>
    requires Elements(ids) <= byId.Keys
  {
    seq(|ids|, i requires 0 <= i < |ids| => assert ids[i] in Elements(ids); byId[ids[i]])
  }

  lemma TasksOfSnoc(byId: map<string, CollectionTask>, idLevels: seq<seq<string>>,
                    levels: seq<seq<CollectionTask>>, queue: seq<string>)
    requires TasksOf(byId, idLevels, levels) && Elements(queue) <= byId.Keys
    ensures TasksOf(byId, idLevels + [queue], levels + [Pick(byId, queue)])
  {
    forall i | 0 <= i < |queue| ensures queue[i] in byId {
      assert queue[i] in Elements(queue);
    }
  }

  // ----- Stuck ids close a cycle -----------------------------------------------------------

  ghost predicate StuckOn(tasks: seq<CollectionTask>, stuck: set<string>, c: string) {
    exists d :: d in stuck && DependsOn(tasks, c, d)
  }

  /** Every id of stuck depends on some id of stuck. */
  ghost predicate Stuck(tasks: seq<CollectionTask>, stuck: set<string>) {
    forall c {:trigger StuckOn(tasks, stuck, c)} :: c in stuck ==> StuckOn(tasks, stuck, c)
  }

  lemma {:induction false} StuckWalk(tasks: seq<CollectionTask>, stuck: set<string>, c: string, n: nat)
    returns (p: seq<string>)
    requires Stuck(tasks, stuck) && c in stuck
    ensures |p| == n + 1 && p[0] == c && DependencyPath(tasks, p)
    ensures forall i :: 0 <= i < |p| ==> p[i] in stuck
    decreases n
  {
    if n == 0 {
      p := [c];
    } else {
      assert StuckOn(tasks, stuck, c);
      var d :| d in stuck && DependsOn(tasks, c, d);
      var rest := StuckWalk(tasks, stuck, d, n - 1);
      p := [c] + rest;
    }
  }

  /** Pigeonhole: a sequence longer than the set it draws from repeats an element. */
  lemma {:induction false} Pigeonhole(xs: seq<string>, s: set<string>) returns (i: nat, j: nat)
    requires |xs| > |s| && forall k :: 0 <= k < |xs| ==> xs[k] in s
    ensures i < j < |xs| && xs[i] == xs[j]
  {
    if k :| 0 <= k < |xs| - 1 && xs[k] == Last(xs) {
      i, j := k, |xs| - 1;
    } else {
      i, j := Pigeonhole(Front(xs), s - {Last(xs)});
    }
  }

  lemma StuckHasCycle(tasks: seq<CollectionTask>, stuck: set<string>)
    requires Stuck(tasks, stuck) && stuck != {}
    ensures HasCycle(tasks)
  {
    var c :| c in stuck;
    var p := StuckWalk(tasks, stuck, c, |stuck|);
    var i, j := Pigeonhole(p, stuck);
    assert IsCycle(tasks, p[i..j + 1]);
  }

  // ----- Placed ids descend along dependencies ---------------------------------------------

  function LevelOf(levels: seq<seq<string>>, id: string): nat
    requires id in Flatten(levels)
  {
    if id in Flatten(Front(levels)) then LevelOf(Front(levels), id) else |levels| - 1
  }

  lemma {:induction false} LevelOfBound(levels: seq<seq<string>>, id: string, k: nat)
    requires k <= |levels| && id in Flatten(levels[..k])
    ensures id in Flatten(levels) && LevelOf(levels, id) < k
    decreases |levels|
  {
    if k == |levels| {
      assert levels[..k] == levels;
      if id in Flatten(Front(levels)) {
        assert Front(levels)[..k - 1] == Front(levels);
        LevelOfBound(Front(levels), id, k - 1);
      }
    } else {
      assert Front(levels)[..k] == levels[..k];
      LevelOfBound(Front(levels), id, k);
    }
  }

  lemma {:induction false} LevelOfIsIn(levels: seq<seq<string>>, id: string)
    requires id in Flatten(levels)
    ensures LevelOf(levels, id) < |levels| && id in levels[LevelOf(levels, id)]
  {
    if id in Flatten(Front(levels)) {
      LevelOfIsIn(Front(levels), id);
    }
  }

  /** An id placed in a level has every dependency placed strictly below it, so a member of a
      cycle is never placed. */
  lemma {:induction false} PathDescends(tasks: seq<CollectionTask>, levels: seq<seq<string>>, p: seq<string>)
    requires IdLevelling(Edges(tasks), levels)
    requires |p| >= 2 && DependencyPath(tasks, p) && p[0] in Flatten(levels)
    ensures Last(p) in Flatten(levels) && LevelOf(levels, Last(p)) < LevelOf(levels, p[0])
  {
    LevelOfIsIn(levels, p[0]);
    assert DependsOn(tasks, p[0], p[1]);
    EdgesSound(tasks, Edge(p[1], p[0]));
    LevelOfBound(levels, p[1], LevelOf(levels, p[0]));
    if |p| > 2 {
      var rest := p[1..];
      forall i, j | 0 <= i && j == i + 1 < |rest| ensures DependsOn(tasks, rest[i], rest[j]) {
        assert rest[i] == p[i + 1] && rest[j] == p[j + 1];
      }
      PathDescends(tasks, levels, p[1..]);
    }
  }

  /** The first id of a cycle depends on the second. */
  lemma CycleStep(tasks: seq<CollectionTask>, p: seq<string>)
    requires IsCycle(tasks, p)
    ensures DependsOn(tasks, p[0], p[1])
  {
  }

  lemma PathSuffix(tasks: seq<CollectionTask>, p: seq<string>, i: nat)
    requires DependencyPath(tasks, p) && i <= |p|
    ensures DependencyPath(tasks, p[i..])
  {
    forall j, k | 0 <= j && k == j + 1 < |p[i..]| ensures DependsOn(tasks, p[i..][j], p[i..][k]) {
      assert p[i..][j] == p[i + j] && p[i..][k] == p[i + k];
    }
  }

  /** No member of a cycle is ever placed in a level. */
  lemma CycleMemberNeverPlaced(tasks: seq<CollectionTask>, levels: seq<seq<string>>, p: seq<string>, i: nat)
    requires IdLevelling(Edges(tasks), levels) && IsCycle(tasks, p) && i < |p|
    ensures p[i] !in Flatten(levels)
  {
    if p[i] in Flatten(levels) {
      if i < |p| - 1 {
        PathSuffix(tasks, p, i);
        PathDescends(tasks, levels, p[i..]);
      }
      PathDescends(tasks, levels, p);
    }
  }

  // ----- The visited count decides ---------------------------------------------------------

  lemma UniqueIdsSnoc(tasks: seq<CollectionTask>)
    requires tasks != []
    ensures UniqueIds(tasks) <==> UniqueIds(Front(tasks)) && Last(tasks).taskId !in Ids(Front(tasks))
  {
    if UniqueIds(Front(tasks)) && Last(tasks).taskId !in Ids(Front(tasks)) {
      forall i | 0 <= i < |tasks| - 1 ensures tasks[i].taskId != Last(tasks).taskId {
        assert tasks[i] in Front(tasks);
      }
    }
  }

  lemma {:induction false} IdsSize(tasks: seq<CollectionTask>)
    ensures |Ids(tasks)| <= |tasks|
    ensures |Ids(tasks)| == |tasks| <==> UniqueIds(tasks)
  {
    if tasks != [] {
      IdsSize(Front(tasks));
      UniqueIdsSnoc(tasks);
      assert Ids(tasks) == Ids(Front(tasks)) + {Last(tasks).taskId} by {
        assert tasks == Front(tasks) + [Last(tasks)];
      }
    }
  }

  lemma {:induction false} ElementsAtMost(xs: seq<string>)
    ensures |Elements(xs)| <= |xs|
  {
    if xs != [] {
      assert xs == Front(xs) + [Last(xs)];
      assert Elements(xs) == Elements(Front(xs)) + {Last(xs)};
      ElementsAtMost(Front(xs));
    }
  }

  lemma {:induction false} DistinctFromSize(xs: seq<string>)
    requires |xs| == |Elements(xs)|
    ensures Distinct(xs)
  {
    if xs != [] {
      assert xs == Front(xs) + [Last(xs)];
      assert Elements(xs) == Elements(Front(xs)) + {Last(xs)};
      ElementsAtMost(Front(xs));
      DistinctFromSize(Front(xs));
      assert Last(xs) !in Elements(Front(xs));
      assert forall i :: 0 <= i < |xs| - 1 ==> xs[i] in Elements(Front(xs));
    }
  }

  lemma SubsetOfSameSize(s: set<string>, t: set<string>)
    requires s <= t && |s| >= |t|
    ensures s == t
  {
    forall x | x in t ensures x in s {
      if x !in s {
        SubsetSize(s, t - {x});
      }
    }
  }

  /** All ids placed: the list is schedulable. */
  lemma PlacedIsSchedulable(tasks: seq<CollectionTask>, levels: seq<seq<string>>)
    requires UniqueIds(tasks) && Elements(Flatten(levels)) == Ids(tasks)
    requires IdLevelling(Edges(tasks), levels)
    ensures Schedulable(tasks)
  {
    forall t, d | t in tasks && d in t.dependsOn ensures d in Ids(tasks) {
      assert DependsOn(tasks, t.taskId, d);
      assert t.taskId in Elements(Flatten(levels));
      var p := [t.taskId, d];
      assert DependencyPath(tasks, p);
      PathDescends(tasks, levels, p);
    }
    forall p ensures !IsCycle(tasks, p) {
      if IsCycle(tasks, p) {
        assert DependsOn(tasks, p[0], p[1]);
        assert p[0] in Elements(Flatten(levels));
        PathDescends(tasks, levels, p);
      }
    }
  }

  /** A schedulable list leaves no id behind. */
  lemma SchedulableIsPlaced(tasks: seq<CollectionTask>, levels: seq<seq<string>>, indegree: map<string, int>)
    requires Schedulable(tasks)
    requires Frontier(Edges(tasks), Ids(tasks), levels, [], indegree)
    ensures Elements(Flatten(levels)) == Ids(tasks)
  {
    var done := Elements(Flatten(levels));
    var stuck := Ids(tasks) - done;
    if stuck != {} {
      forall c | c in stuck ensures StuckOn(tasks, stuck, c) {
        PendingZero(Edges(tasks), done, c);
        var e :| e in Edges(tasks) && e.child == c && e.dep !in done;
        EdgesSound(tasks, e);
        var t :| t in tasks && t.taskId == c && e.dep in t.dependsOn;
        assert e.dep in stuck;
      }
      StuckHasCycle(tasks, stuck);
    }
    assert Ids(tasks) == done + stuck;
  }

  lemma {:induction false} FlattenPicked(byId: map<string, CollectionTask>, idLevels: seq<seq<string>>,
                                         levels: seq<seq<CollectionTask>>)
    requires TasksOf(byId, idLevels, levels)
    ensures |Flatten(levels)| == |Flatten(idLevels)|
    ensures forall i :: 0 <= i < |Flatten(levels)| ==>
              Flatten(idLevels)[i] in byId && Flatten(levels)[i] == byId[Flatten(idLevels)[i]]
  {
    if levels != [] {
      FlattenPicked(byId, Front(idLevels), Front(levels));
    }
  }

  /** byId names each task of a list with unique ids, and idLevels holds each id once. */
  ghost predicate Placed(tasks: seq<CollectionTask>, byId: map<string, CollectionTask>,
                         idLevels: seq<seq<string>>, levels: seq<seq<CollectionTask>>)
  {
    && UniqueIds(tasks) && byId.Keys == Ids(tasks)
    && (forall id :: id in byId ==> byId[id] in tasks && byId[id].taskId == id)
    && IdLevelling(Edges(tasks), idLevels) && TasksOf(byId, idLevels, levels)
    && Elements(Flatten(idLevels)) == Ids(tasks) && |Flatten(idLevels)| == |Ids(tasks)|
  }

  lemma PlacedPermutes(tasks: seq<CollectionTask>, byId: map<string, CollectionTask>,
                       idLevels: seq<seq<string>>, levels: seq<seq<CollectionTask>>)
    requires Placed(tasks, byId, idLevels, levels)
    ensures IsPermutation(tasks, Flatten(levels))
  {
    FlattenPicked(byId, idLevels, levels);
    DistinctFromSize(Flatten(idLevels));
    forall t | t in tasks ensures t in Flatten(levels) {
      assert t.taskId in Elements(Flatten(idLevels));
      var i :| 0 <= i < |Flatten(idLevels)| && Flatten(idLevels)[i] == t.taskId;
      assert Flatten(levels)[i] == byId[t.taskId];
    }
    SameElements(tasks, Flatten(levels));
  }

  lemma DependenciesPlaced(tasks: seq<CollectionTask>, byId: map<string, CollectionTask>, idLevels: seq<seq<string>>,
                           levels: seq<seq<CollectionTask>>)
    requires Placed(tasks, byId, idLevels, levels)
    ensures forall k, t, d :: 0 <= k < |levels| && t in levels[k] && d in t.dependsOn ==> InEarlierLevel(levels, k, d)
  {
    forall k, t, d | 0 <= k < |levels| && t in levels[k] && d in t.dependsOn
      ensures InEarlierLevel(levels, k, d)
    {
      var at :| 0 <= at < |levels[k]| && levels[k][at] == t;
      assert idLevels[k][at] in byId;
      assert DependsOn(tasks, t.taskId, d);
      EdgesSound(tasks, Edge(d, t.taskId));
      FlattenMember(idLevels[..k], d);
      var j :| 0 <= j < k && d in idLevels[..k][j];
      var i :| 0 <= i < |idLevels[j]| && idLevels[j][i] == d;
      assert levels[j][i] in levels[j] && levels[j][i].taskId == d;
    }
  }

  lemma LevelsFed(tasks: seq<CollectionTask>, byId: map<string, CollectionTask>, idLevels: seq<seq<string>>,
                  levels: seq<seq<CollectionTask>>)
    requires Placed(tasks, byId, idLevels, levels)
    ensures forall k, t :: 0 < k < |levels| && t in levels[k] ==> DependsOnLevel(levels[k - 1], t)
  {
    forall k, t | 0 < k < |levels| && t in levels[k] ensures DependsOnLevel(levels[k - 1], t) {
      var at :| 0 <= at < |levels[k]| && levels[k][at] == t;
      assert idLevels[k][at] == t.taskId && t.taskId in idLevels[k];
      assert HasDependencyIn(Edges(tasks), idLevels[k - 1], t.taskId);
      var d :| d in idLevels[k - 1] && Edge(d, t.taskId) in Edges(tasks);
      EdgesSound(tasks, Edge(d, t.taskId));
      var t' :| t' in tasks && t'.taskId == t.taskId && d in t'.dependsOn;
      assert t' == t;
      var i :| 0 <= i < |idLevels[k - 1]| && idLevels[k - 1][i] == d;
      assert levels[k - 1][i] in levels[k - 1] && levels[k - 1][i].taskId == d;
    }
  }

  lemma LevelsAreLevelling(tasks: seq<CollectionTask>, byId: map<string, CollectionTask>,
                           idLevels: seq<seq<string>>, levels: seq<seq<CollectionTask>>)
    requires Placed(tasks, byId, idLevels, levels)
    ensures IsLevelling(tasks, levels)
  {
    hide Flatten, Edges, Ids, Elements;
    PlacedPermutes(tasks, byId, idLevels, levels);
    DependenciesPlaced(tasks, byId, idLevels, levels);
    LevelsFed(tasks, byId, idLevels, levels);
  }

  /** The id dictionary: of several tasks with one id, the last wins. */
  method ById(tasks: seq<CollectionTask>) returns (byId: map<string, CollectionTask>)
    ensures byId.Keys == Ids(tasks)
    ensures forall id :: id in byId ==> byId[id] in tasks && byId[id].taskId == id
  {
    byId := map[];
    for i := 0 to |tasks|
      invariant byId.Keys == Ids(tasks[..i])
      invariant forall id :: id in byId ==> byId[id] in tasks && byId[id].taskId == id
    {
      assert tasks[..i + 1] == tasks[..i] + [tasks[i]];
      byId := byId[tasks[i].taskId := tasks[i]];
    }
    assert tasks[..|tasks|] == tasks;
  }

  method ZeroDegree(order: seq<string>, indegree: map<string, int>) returns (queue: seq<string>)
    requires Distinct(order) && (forall c :: c in order <==> c in indegree)
    ensures Distinct(queue)
    ensures forall c :: c in queue <==> c in indegree && indegree[c] == 0
  {
    queue := [];
    for i := 0 to |order|
      invariant Distinct(queue)
      invariant forall c :: c in queue <==> c in order[..i] && indegree[c] == 0
    {
      assert order[..i + 1] == order[..i] + [order[i]];
      assert order[i] in order;
      if indegree[order[i]] == 0 { queue := queue + [order[i]]; }
    }
    assert order[..|order|] == order;
  }

  /** The visited count equals the task count exactly when the list is schedulable. */
  lemma Complete(tasks: seq<CollectionTask>, byId: map<string, CollectionTask>, idLevels: seq<seq<string>>,
                 levels: seq<seq<CollectionTask>>, indegree: map<string, int>)
    requires byId.Keys == Ids(tasks)
    requires forall id :: id in byId ==> byId[id] in tasks && byId[id].taskId == id
    requires Frontier(Edges(tasks), Ids(tasks), idLevels, [], indegree)
    requires TasksOf(byId, idLevels, levels)
    ensures |Flatten(levels)| == |tasks| <==> Schedulable(tasks)
    ensures Schedulable(tasks) ==> IsLevelling(tasks, levels)
  {
    FlattenPicked(byId, idLevels, levels);
    IdsSize(tasks);
    SubsetSize(Elements(Flatten(idLevels)), Ids(tasks));
    if |Flatten(levels)| == |tasks| {
      SubsetOfSameSize(Elements(Flatten(idLevels)), Ids(tasks));
      PlacedIsSchedulable(tasks, idLevels);
    }
    if Schedulable(tasks) {
      SchedulableIsPlaced(tasks, idLevels, indegree);
      LevelsAreLevelling(tasks, byId, idLevels, levels);
    }
  }

  /** Raises when the visited count falls short of the task count. */
  method DependencyLevels(tasks: seq<CollectionTask>) returns (r: Result<seq<seq<CollectionTask>>>)
    ensures r.Ok? <==> Schedulable(tasks)
    ensures r.Ok? ==> IsLevelling(tasks, r.value)
    ensures r.Raised? ==> r.error == "task dependency graph contains a cycle"
  {
    var byId: map<string, CollectionTask> := ById(tasks);
    var order, indegree, outgoing := CountDependencies(tasks);
    ghost var edges, ids := Edges(tasks), Ids(tasks);
    forall e | e in edges ensures e.child in ids {
      EdgesSound(tasks, e);
    }
    var queue := ZeroDegree(order, indegree);
    var levels: seq<seq<CollectionTask>> := [];
    ghost var idLevels: seq<seq<string>> := [];
    InitialFrontier(edges, ids, queue, indegree);
    while queue != []
      invariant Frontier(edges, ids, idLevels, queue, indegree)
      invariant TasksOf(byId, idLevels, levels)
      decreases ids - Elements(Flatten(idLevels))
    {
      ghost var placed := idLevels + [queue];
      TasksOfSnoc(byId, idLevels, levels, queue);
      levels := levels + [Pick(byId, queue)];
      indegree, queue := PlaceLevel(edges, ids, idLevels, queue, indegree, outgoing);
      idLevels := placed;
    }
    var visited := |Flatten(levels)|;
    Complete(tasks, byId, idLevels, levels, indegree);
    if visited != |tasks| {
      return Raised("task dependency graph contains a cycle");
    }
    return Ok(levels);
  }

  /** First every dependency must name a task, then the levels must exist. */
  method ValidateTaskGraph(tasks: seq<CollectionTask>) returns (r: Result<()>)
    ensures r.Ok? <==> Schedulable(tasks)
    ensures !KnownDependencies(tasks) ==>
              exists t, d :: t in tasks && d in t.dependsOn && d !in Ids(tasks)
                && r == Raised("task " + t.taskId + " depends on unknown task " + d)
  {
    var byId := ById(tasks);
    for i := 0 to |tasks|
      invariant forall t, d :: t in tasks[..i] && d in t.dependsOn ==> d in byId
    {
      var task := tasks[i];
      for j := 0 to |task.dependsOn|
        invariant forall d :: d in task.dependsOn[..j] ==> d in byId
      {
        var dep := task.dependsOn[j];
        if dep !in byId {
          assert task in tasks && dep in task.dependsOn;
          return Raised("task " + task.taskId + " depends on unknown task " + dep);
        }
      }
      assert tasks[..i + 1] == tasks[..i] + [task];
    }
    assert tasks[..|tasks|] == tasks;
    var levels := DependencyLevels(tasks);
    match levels {
      case Ok(_) => r := Ok(());
      case Raised(e) => r := Raised(e);
    }
  }
}
