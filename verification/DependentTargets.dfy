/** Which backlink domains and lighthouse URLs end up as dependent tasks of a planned run: as long
    as no metro id reaches into the target keys of another, the dedup keys of different templates
    never meet, and each metro gets exactly its first five targets. */
module DependentTargets {
  import opened Containers
  import opened CollectionTypes
  import opened CollectionPlan
  import opened ExecutionState
  import opened TopResults
  import opened Materialize
  import MapsProfiles
  import TaskIds

  // ----- Key spaces ------------------------------------------------------------------------

  predicate TargetType(t: TaskType) {
    t in {Backlinks, Lighthouse}
  }

  /** k is the template key of (metroId, t), or extends it after a colon: by a domain, which holds no
      colon, for backlinks, and by any URL key for lighthouse. */
  ghost predicate KeyOf(k: string, metroId: string, t: TaskType) {
    var key := TemplateKey(metroId, t);
    || k == key
    || (t == Backlinks && key + ":" <= k && ':' !in k[|key| + 1..])
    || (t == Lighthouse && key + ":" <= k)
  }

  /** The second metro id is the backlinks key of the first; or, with a colon after it, starts with
      the lighthouse key of the first and a colon. */
  predicate Reaches(m: string, m': string) {
    m' == TemplateKey(m, Backlinks) || TemplateKey(m, Lighthouse) + ":" <= m' + ":"
  }

  lemma ColonInside(a: string, b: string, s: string)
    requires a + ":" <= s && b <= s && |a| < |b|
    ensures b[|a|] == ':'
  {
    assert s[|a|] == (a + ":")[|a|];
  }

  /** Two colon-free prefixes that a colon follows in one string are the same. */
  lemma FirstColon(a: string, b: string, s: string)
    requires ':' !in a && ':' !in b
    requires a + ":" <= s && b + ":" <= s
    ensures a == b
  {
    assert a <= a + ":" && b <= b + ":";
    if |a| < |b| {
      ColonInside(a, b, s);
    } else if |b| < |a| {
      ColonInside(b, a, s);
    } else {
      assert a == s[..|a|] == b;
    }
  }

  lemma TypeNamesColonFree(t: TaskType)
    ensures ':' !in TypeName(t)
  {
  }

  lemma TypeNamesDistinct(t: TaskType, u: TaskType)
    ensures ':' !in TypeName(t)
    ensures TypeName(t) == TypeName(u) ==> t == u
  {
    TypeNamesColonFree(t);
    if TypeName(t) == TypeName(u) {
      assert |TypeName(t)| == |TypeName(u)|;
      assert TypeName(t)[0] == TypeName(u)[0] && TypeName(t)[5] == TypeName(u)[5];
    }
  }

  lemma KeyTail(k: string, metroId: string, t: TaskType)
    requires KeyOf(k, metroId, t)
    ensures metroId + ":" <= k
    ensures TypeName(t) + ":" <= (k + ":")[|metroId| + 1..]
  {
    var key := TemplateKey(metroId, t);
    assert key + ":" <= k + ":";
    assert key == (metroId + ":") + TypeName(t);
    assert key[..|metroId| + 1] == metroId + ":";
    assert (key + ":")[|metroId| + 1..] == TypeName(t) + ":";
    assert k[..|metroId| + 1] == key[..|metroId| + 1];
    assert (k + ":")[..|key| + 1] == key + ":";
    assert (k + ":")[|metroId| + 1..][..|TypeName(t)| + 1] == (k + ":")[..|key| + 1][|metroId| + 1..];
  }

  lemma KeyPrefix(k: string, metroId: string, t: TaskType)
    requires KeyOf(k, metroId, t)
    ensures metroId + ":" + TypeName(t) + ":" <= k + ":"
    ensures !TargetType(t) ==> metroId + ":" + TypeName(t) + ":" == k + ":"
    ensures metroId + ":" <= k + ":"
  {
    hide TypeName;
    var key := TemplateKey(metroId, t);
    assert key + ":" <= k + ":";
    assert metroId + ":" <= key;
  }

  /** Of two prefixes of one string the shorter is a prefix of the longer. */
  lemma PrefixesNest(a: string, b: string, s: string)
    requires a <= s && b <= s && |a| <= |b|
    ensures a <= b
  {
  }

  lemma ColonFreeInside(m: string, name: string, i: nat)
    requires ':' !in name
    ensures |m| < i <= |m| + |name| ==> (m + ":" + name + ":")[i] != ':'
  {
    if |m| < i <= |m| + |name| {
      assert (m + ":" + name + ":")[i] == name[i - |m| - 1];
      assert name[i - |m| - 1] in name;
    }
  }

  lemma ColonPrefixes(m: string, name: string, m': string, s: string)
    requires ':' !in name && |m| < |m'|
    requires m + ":" + name + ":" <= s && m' + ":" <= s
    ensures m + ":" + name + ":" <= m' + ":"
  {
    var a, b := m + ":" + name + ":", m' + ":";
    assert s[|m'|] == b[|m'|] == ':';
    ColonFreeInside(m, name, |m'|);
    if |a| <= |b| {
      PrefixesNest(a, b, s);
    }
  }

  lemma ColonFreeTail(prefix: string, k: string, i: nat)
    requires prefix <= k && ':' !in k[|prefix|..]
    ensures |prefix| <= i < |k| ==> k[i] != ':'
  {
    if |prefix| <= i < |k| {
      assert k[|prefix|..][i - |prefix|] == k[i];
    }
  }

  /** A colon-free extension of a prefix leaves no room for a longer id and a type name. */
  lemma NoSecondColon(prefix: string, m': string, name: string, k: string)
    requires prefix <= k && ':' !in k[|prefix|..]
    requires prefix <= m' + ":" && m' + ":" + name + ":" <= k + ":"
    ensures m' + ":" == prefix
  {
    var s := m' + ":" + name + ":";
    assert |m'| + 1 < |s|;
    assert |m'| < |k|;
    assert k[|m'|] == (k + ":")[|m'|] == s[|m'|] == ':';
    ColonFreeTail(prefix, k, |m'|);
  }

  /** A key of a shorter and of a longer metro id: the longer id reaches into the target keys of
      the shorter one. */
  lemma LongerReaches(k: string, m: string, t: TaskType, m': string, t': TaskType)
    requires KeyOf(k, m, t) && KeyOf(k, m', t') && |m| < |m'|
    ensures TargetType(t) && Reaches(m, m')
  {
    TypeNamesDistinct(t, t');
    KeyPrefix(k, m, t);
    KeyPrefix(k, m', t');
    hide TypeName;
    assert |m' + ":" + TypeName(t') + ":"| <= |k + ":"|;
    ColonPrefixes(m, TypeName(t), m', k + ":");
    var key := TemplateKey(m, t);
    assert key + ":" <= m' + ":";
    if t == Backlinks {
      assert k != key;
      NoSecondColon(key + ":", m', TypeName(t'), k);
      assert m' + ":" == key + ":";
      assert m' == (m' + ":")[..|m'|] == key;
    }
  }

  lemma SameLengthSameKey(k: string, m: string, t: TaskType, m': string, t': TaskType)
    requires |m| == |m'| && KeyOf(k, m, t) && KeyOf(k, m', t')
    ensures m == m' && t == t'
  {
    KeyTail(k, m, t);
    KeyTail(k, m', t');
    assert m == k[..|m|] == m';
    TypeNamesDistinct(t, t');
    TypeNamesDistinct(t', t);
    FirstColon(TypeName(t), TypeName(t'), (k + ":")[|m| + 1..]);
  }

  /** Only a target type's keys reach into other metros: where neither metro id reaches the other that
      way, a key belongs to one metro and one task type only. */
  lemma KeySpacesDisjoint(k: string, m: string, t: TaskType, m': string, t': TaskType)
    requires (TargetType(t) ==> !Reaches(m, m')) && (TargetType(t') ==> !Reaches(m', m))
    requires KeyOf(k, m, t) && KeyOf(k, m', t')
    ensures m == m' && t == t'
  {
    hide Reaches;
    if |m| < |m'| {
      LongerReaches(k, m, t, m', t');
    } else if |m'| < |m| {
      LongerReaches(k, m', t', m, t);
    } else {
      SameLengthSameKey(k, m, t, m', t');
    }
  }

  lemma ReachedKey(m: string, m': string)
    requires Reaches(m, m')
    ensures KeyOf(TemplateKey(m', Backlinks), m, if m' == TemplateKey(m, Backlinks) then Backlinks else Lighthouse)
  {
    TypeNamesColonFree(Backlinks);
    hide TypeName;
    var key := TemplateKey(m', Backlinks);
    assert key == (m' + ":") + TypeName(Backlinks);
    assert m' + ":" <= key;
    assert key[|m' + ":"|..] == TypeName(Backlinks);
  }

  lemma OwnKey(metroId: string, t: TaskType)
    ensures KeyOf(TemplateKey(metroId, t), metroId, t)
  {
  }

  /** The keys of two metros can meet exactly when one id reaches into the other's target keys. */
  lemma KeySpacesMeetIff(m: string, m': string)
    requires m != m'
    ensures Reaches(m, m') || Reaches(m', m) <==> exists k, t, t' :: KeyOf(k, m, t) && KeyOf(k, m', t')
  {
    hide KeyOf, TypeName;
    if Reaches(m, m') {
      ReachedKey(m, m');
      OwnKey(m', Backlinks);
    } else if Reaches(m', m) {
      ReachedKey(m', m);
      OwnKey(m, Backlinks);
    } else {
      forall k, t, t' ensures !(KeyOf(k, m, t) && KeyOf(k, m', t')) {
        if KeyOf(k, m, t) && KeyOf(k, m', t') {
          KeySpacesDisjoint(k, m, t, m', t');
        }
      }
    }
  }

  // ----- Targets of emitted tasks ----------------------------------------------------------

  function TargetOf(task: CollectionTask): Value {
    Get(task.payload, if task.taskType == Backlinks then "target" else "url")
  }

  /** The targets of the metro's tasks of one type, in task order. */
  function TargetsOf(tasks: seq<CollectionTask>, metroId: string, t: TaskType): seq<Value> {
    if tasks == [] then []
    else
      TargetsOf(Front(tasks), metroId, t)
      + if Last(tasks).metroId == metroId && Last(tasks).taskType == t then [TargetOf(Last(tasks))] else []
  }

  function Texted(targets: seq<string>): seq<Value> {
    seq(|targets|, i requires 0 <= i < |targets| => Text(targets[i]))
  }

  function WantedBy(t: TaskType): Wanted {
    if t == Backlinks then Domains else Urls
  }

  /** The part of a target that goes into its dedup key. */
  function KeyPart(ops: TextOps, t: TaskType, target: string): string {
    if t == Backlinks then target else ops.urlKey(target)
  }

  ghost predicate DistinctKeyParts(ops: TextOps, t: TaskType, targets: seq<string>) {
    forall i, j :: 0 <= i < j < |targets| ==> KeyPart(ops, t, targets[i]) != KeyPart(ops, t, targets[j])
  }

  lemma {:induction false} InFlat<T, R>(f: T -> seq<R>, xs: seq<T>, r: R) returns (x: T)
    requires r in Flat(f, xs)
    ensures x in xs && r in f(x)
  {
    if r in f(Last(xs)) {
      x := Last(xs);
    } else {
      x := InFlat(f, Front(xs), r);
    }
  }

  lemma CandidateKey(ops: TextOps, t: TaskType, item: Item, c: Keyed<string>)
    requires TargetType(t) && c in Candidate(ops, WantedBy(t), item)
    ensures c.key == KeyPart(ops, t, c.value)
  {
  }

  lemma {:induction false} CandidateKeys(ops: TextOps, t: TaskType, d: Data, ids: seq<string>, c: Keyed<string>)
    requires TargetType(t) && c in Flat(ScanTask(ops, WantedBy(t), d.results.vals), ids)
    ensures c.key == KeyPart(ops, t, c.value)
  {
    hide Flat, Candidate, ResultsOf;
    var w := WantedBy(t);
    var id := InFlat(ScanTask(ops, w, d.results.vals), ids, c);
    var row := InFlat(ScanRow(ops, w), ResultsOf(d.results.vals, id), c);
    var item := InFlat(ScanItem(ops, w), row.items, c);
    CandidateKey(ops, t, item, c);
  }

  lemma TopOrganicKeyParts(ops: TextOps, t: TaskType, metroId: string, plan: Plan, d: Data, limit: nat)
    requires TargetType(t)
    ensures DistinctKeyParts(ops, t, TopOrganic(ops, WantedBy(t), metroId, plan, d, limit))
  {
    hide OrganicTaskIds, ScanTask;
    var ids := OrganicTaskIds(metroId, plan.baseTasks, d.categories.vals);
    var all := Flat(ScanTask(ops, WantedBy(t), d.results.vals), ids);
    var first := FirstByKey(all);
    FirstByKeyDistinct(all);
    forall i | 0 <= i < |first| ensures first[i].key == KeyPart(ops, t, first[i].value) {
      assert first[i] in multiset(first);
      CandidateKeys(ops, t, d, ids, first[i]);
    }
  }

  function TargetKeys(ops: TextOps, template: CollectionTask, targets: seq<string>): set<string>
    requires HasKey(template.dedupKey)
  {
    set i | 0 <= i < |targets| :: template.dedupKey.value + ":" + KeyPart(ops, template.taskType, targets[i])
  }

  lemma NoTargetKeys(ops: TextOps, template: CollectionTask)
    requires HasKey(template.dedupKey)
    ensures TargetKeys(ops, template, []) == {}
  {
  }

  lemma FrontDistinct(ops: TextOps, t: TaskType, targets: seq<string>)
    requires DistinctKeyParts(ops, t, targets) && targets != []
    ensures DistinctKeyParts(ops, t, Front(targets))
  {
  }

  lemma SameKeyPart(ops: TextOps, template: CollectionTask, targets: seq<string>, part: string)
    requires HasKey(template.dedupKey)
    requires template.dedupKey.value + ":" + part in TargetKeys(ops, template, targets)
    ensures exists i :: 0 <= i < |targets| && KeyPart(ops, template.taskType, targets[i]) == part
  {
    var prefix := template.dedupKey.value + ":";
    var i :| 0 <= i < |targets| && prefix + part == prefix + KeyPart(ops, template.taskType, targets[i]);
    assert part == (prefix + part)[|prefix|..] == KeyPart(ops, template.taskType, targets[i]);
  }

  lemma FreshKey(ops: TextOps, template: CollectionTask, targets: seq<string>)
    requires HasKey(template.dedupKey) && targets != []
    requires DistinctKeyParts(ops, template.taskType, targets)
    ensures template.dedupKey.value + ":" + KeyPart(ops, template.taskType, Last(targets))
            !in TargetKeys(ops, template, Front(targets))
  {
    var part := KeyPart(ops, template.taskType, Last(targets));
    if template.dedupKey.value + ":" + part in TargetKeys(ops, template, Front(targets)) {
      SameKeyPart(ops, template, Front(targets), part);
    }
  }

  lemma EmitsFreshTarget(ops: TextOps, acc: Progress, template: CollectionTask, target: string)
    requires TargetType(template.taskType) && HasKey(template.dedupKey)
    requires template.dedupKey.value + ":" + KeyPart(ops, template.taskType, target) !in acc.seen
    ensures var p := Emit(acc, template, TargetEmission(ops, template, target));
            && TargetsOf(p.tasks, template.metroId, template.taskType)
               == TargetsOf(acc.tasks, template.metroId, template.taskType) + [Text(target)]
            && p.seen == acc.seen + {template.dedupKey.value + ":" + KeyPart(ops, template.taskType, target)}
  {
    hide TaskIds.DependentTaskId;
    var task := ConcreteTask(template, |acc.tasks| + 1, TargetEmission(ops, template, target));
    assert TargetOf(task) == Text(target);
    assert Front(acc.tasks + [task]) == acc.tasks;
  }

  lemma TargetKeysSnoc(ops: TextOps, template: CollectionTask, targets: seq<string>)
    requires HasKey(template.dedupKey) && targets != []
    ensures TargetKeys(ops, template, targets) == TargetKeys(ops, template, Front(targets))
              + {template.dedupKey.value + ":" + KeyPart(ops, template.taskType, Last(targets))}
  {
    var prefix := template.dedupKey.value + ":";
    forall k | k in TargetKeys(ops, template, targets)
      ensures k in TargetKeys(ops, template, Front(targets)) + {prefix + KeyPart(ops, template.taskType, Last(targets))}
    {
      var i :| 0 <= i < |targets| && k == prefix + KeyPart(ops, template.taskType, targets[i]);
      assert i < |targets| - 1 ==> Front(targets)[i] == targets[i];
    }
    forall k | k in TargetKeys(ops, template, Front(targets)) ensures k in TargetKeys(ops, template, targets) {
      var i :| 0 <= i < |targets| - 1 && k == prefix + KeyPart(ops, template.taskType, Front(targets)[i]);
      assert Front(targets)[i] == targets[i];
    }
    assert targets[|targets| - 1] == Last(targets);
  }

  /** Fresh keys: every target is emitted, in order. */
  lemma {:induction false} EmitsEveryTarget(ops: TextOps, acc: Progress, template: CollectionTask, targets: seq<string>)
    requires TargetType(template.taskType) && HasKey(template.dedupKey)
    requires DistinctKeyParts(ops, template.taskType, targets)
    requires forall i :: 0 <= i < |targets| ==>
               template.dedupKey.value + ":" + KeyPart(ops, template.taskType, targets[i]) !in acc.seen
    ensures var p := EmitAll(acc, template, TargetEmissions(ops, template, targets));
            && TargetsOf(p.tasks, template.metroId, template.taskType)
               == TargetsOf(acc.tasks, template.metroId, template.taskType) + Texted(targets)
            && p.seen == acc.seen + TargetKeys(ops, template, targets)
  {
    hide TargetEmission, ConcreteTask, TargetKeys, DistinctKeyParts, KeyPart, Emit, TargetsOf;
    if targets == [] {
      assert TargetKeys(ops, template, []) == {} by { NoTargetKeys(ops, template); }
    } else {
      var front, last := Front(targets), Last(targets);
      FrontDistinct(ops, template.taskType, targets);
      assert forall i :: 0 <= i < |front| ==> front[i] == targets[i];
      EmitsEveryTarget(ops, acc, template, front);
      var es := TargetEmissions(ops, template, targets);
      assert Front(es) == TargetEmissions(ops, template, front);
      assert Last(es) == TargetEmission(ops, template, last);
      assert last == targets[|targets| - 1];
      FreshKey(ops, template, targets);
      EmitsFreshTarget(ops, EmitAll(acc, template, Front(es)), template, last);
      assert Texted(targets) == Texted(front) + [Text(last)];
      TargetKeysSnoc(ops, template, targets);
    }
  }

  // ----- A planned run ---------------------------------------------------------------------

  /** A template as the planner writes it: keyed by its metro and type. */
  ghost predicate PlannedTemplate(t: CollectionTask) {
    t.dedupKey == Some(TemplateKey(t.metroId, t.taskType))
  }

  ghost predicate SameSlot(t: CollectionTask, metroId: string, u: TaskType) {
    t.metroId == metroId && t.taskType == u
  }

  /** The template's keys may reach the metro. */
  ghost predicate MayReach(t: CollectionTask, metroId: string) {
    TargetType(t.taskType) && Reaches(t.metroId, metroId)
  }

  /** Planned templates, at most one for each metro and type, whose keys do not reach each other's metros. */
  ghost predicate PlannedTemplates(ts: seq<CollectionTask>) {
    && (forall i :: 0 <= i < |ts| ==> PlannedTemplate(ts[i]))
    && (forall i, j :: 0 <= i < |ts| && 0 <= j < |ts| ==> !MayReach(ts[i], ts[j].metroId))
    && (forall i, j :: 0 <= i < j < |ts| ==> !SameSlot(ts[i], ts[j].metroId, ts[j].taskType))
  }

  /** Every marked key belongs to the slot of some processed template. */
  ghost predicate KeysFrom(seen: set<string>, ts: seq<CollectionTask>) {
    forall k :: k in seen ==> exists i :: 0 <= i < |ts| && KeyOf(k, ts[i].metroId, ts[i].taskType)
  }

  lemma {:induction false} EmitAllKeysFrom(acc: Progress, template: CollectionTask, es: seq<Emission>, k: string)
    requires PlannedTemplate(template)
    requires forall i :: 0 <= i < |es| && HasKey(es[i].key) ==>
        KeyOf(es[i].key.value, template.metroId, template.taskType)
    requires k in EmitAll(acc, template, es).seen
    ensures k in acc.seen || KeyOf(k, template.metroId, template.taskType)
  {
    hide KeyOf, ConcreteTask;
    if es != [] && k in EmitAll(acc, template, Front(es)).seen {
      EmitAllKeysFrom(acc, template, Front(es), k);
    }
  }

  lemma DomainIsNormalised(ops: TextOps, item: Item, c: Keyed<string>)
    requires ops.DomainsHoldNoColon() && c in Candidate(ops, Domains, item)
    ensures ':' !in c.value
  {
  }

  /** The domains found for a metro are normalised, so they hold no colon. */
  lemma DomainsColonFree(ops: TextOps, metroId: string, plan: Plan, d: Data, limit: nat, domain: string)
    requires ops.DomainsHoldNoColon() && domain in TopOrganic(ops, Domains, metroId, plan, d, limit)
    ensures ':' !in domain
  {
    hide Flat, Candidate, ResultsOf, TopByKey, OrganicTaskIds, Keys;
    TopOrganicMeaning(ops, Domains, metroId, plan, d, limit);
    var ids := OrganicTaskIds(metroId, plan.baseTasks, d.categories.vals);
    var f := ScanTask(ops, Domains, d.results.vals);
    var c: Keyed<string> :| c in Flat(f, ids) && c.value == domain;
    var id := InFlat(f, ids, c);
    var row := InFlat(ScanRow(ops, Domains), ResultsOf(d.results.vals, id), c);
    var item := InFlat(ScanItem(ops, Domains), row.items, c);
    DomainIsNormalised(ops, item, c);
  }

  lemma ExtendedKey(metroId: string, t: TaskType, part: string)
    requires t == Lighthouse || (t == Backlinks && ':' !in part)
    ensures KeyOf(TemplateKey(metroId, t) + ":" + part, metroId, t)
  {
    hide TypeName;
    var key := TemplateKey(metroId, t) + ":";
    assert (key + part)[|key|..] == part;
  }

  /** The key of any target found for a template is one of the template's keys. */
  lemma TargetKeyOf(ops: TextOps, plan: Plan, d: Data, t: CollectionTask, target: string)
    requires ops.DomainsHoldNoColon() && TargetType(t.taskType)
    requires target in TopOrganic(ops, WantedBy(t.taskType), t.metroId, plan, d, TARGET_LIMIT)
    ensures KeyOf(TemplateKey(t.metroId, t.taskType) + ":" + KeyPart(ops, t.taskType, target), t.metroId, t.taskType)
  {
    hide TopOrganic, KeyOf, TemplateKey;
    if t.taskType == Backlinks {
      DomainsColonFree(ops, t.metroId, plan, d, TARGET_LIMIT, target);
    }
    ExtendedKey(t.metroId, t.taskType, KeyPart(ops, t.taskType, target));
  }

  lemma KeyNonEmpty(metroId: string, t: TaskType)
    ensures TemplateKey(metroId, t) != ""
  {
  }

  lemma EmissionKeys(ops: TextOps, plan: Plan, d: Data, code: int, t: CollectionTask, i: nat)
    requires ops.DomainsHoldNoColon() && PlannedTemplate(t) && i < |Emissions(ops, plan, d, code, t)|
    ensures Emissions(ops, plan, d, code, t)[i].key.Some?
    ensures KeyOf(Emissions(ops, plan, d, code, t)[i].key.value, t.metroId, t.taskType)
  {
    hide TopOrganic, ProfilePayload, ListingsPayload, MapsProfiles.BestMapsProfile, MapsProfiles.FirstMapsKeyword;
    hide TypeName, KeyOf, TextOps.DomainsHoldNoColon;
    OwnKey(t.metroId, t.taskType);
    var e := Emissions(ops, plan, d, code, t)[i];
    var key := TemplateKey(t.metroId, t.taskType);
    if TargetType(t.taskType) {
      var target := TopOrganic(ops, WantedBy(t.taskType), t.metroId, plan, d, TARGET_LIMIT)[i];
      assert e == TargetEmission(ops, t, target);
      assert e.key == Some(key + ":" + KeyPart(ops, t.taskType, target)) by {
        KeyNonEmpty(t.metroId, t.taskType);
      }
      TargetKeyOf(ops, plan, d, t, target);
    }
  }

  lemma ProcessKeysFrom(
      ops: TextOps, plan: Plan, d: Data, code: int, acc: Progress, ts: seq<CollectionTask>, t: CollectionTask)
    requires ops.DomainsHoldNoColon() && PlannedTemplate(t) && KeysFrom(acc.seen, ts)
    ensures KeysFrom(Process(acc, t, Emissions(ops, plan, d, code, t)).seen, ts + [t])
  {
    hide KeyOf, TemplateKey, Emissions, EmitAll;
    var es := Emissions(ops, plan, d, code, t);
    var p := Process(acc, t, es);
    forall k | k in p.seen
      ensures exists i :: 0 <= i < |ts + [t]| && KeyOf(k, (ts + [t])[i].metroId, (ts + [t])[i].taskType)
    {
      forall i | 0 <= i < |es| ensures HasKey(es[i].key) ==> KeyOf(es[i].key.value, t.metroId, t.taskType) {
        EmissionKeys(ops, plan, d, code, t, i);
      }
      if k in acc.seen {
        var i :| 0 <= i < |ts| && KeyOf(k, ts[i].metroId, ts[i].taskType);
        assert (ts + [t])[i] == ts[i];
      } else {
        if k in EmitAll(acc, t, es).seen {
          EmitAllKeysFrom(acc, t, es, k);
        } else {
          OwnKey(t.metroId, t.taskType);
        }
        assert (ts + [t])[|ts|] == t;
      }
    }
  }

  /** A key of t's slot is not marked while no template of that slot was processed. */
  lemma SlotIsFresh(seen: set<string>, ts: seq<CollectionTask>, t: CollectionTask, k: string)
    requires PlannedTemplates(ts + [t]) && KeysFrom(seen, ts) && KeyOf(k, t.metroId, t.taskType)
    ensures k !in seen
  {
    hide KeyOf;
    assert (ts + [t])[|ts|] == t;
    if k in seen {
      var i :| 0 <= i < |ts| && KeyOf(k, ts[i].metroId, ts[i].taskType);
      assert (ts + [t])[i] == ts[i];
      KeySpacesDisjoint(k, t.metroId, t.taskType, ts[i].metroId, ts[i].taskType);
    }
  }

  lemma {:induction false} TargetsOfOthers(
      acc: Progress, template: CollectionTask, es: seq<Emission>, metroId: string, t: TaskType)
    requires !SameSlot(template, metroId, t)
    ensures TargetsOf(EmitAll(acc, template, es).tasks, metroId, t) == TargetsOf(acc.tasks, metroId, t)
  {
    hide TaskIds.DependentTaskId;
    if es != [] {
      TargetsOfOthers(acc, template, Front(es), metroId, t);
      var before := EmitAll(acc, template, Front(es));
      var task := ConcreteTask(template, |before.tasks| + 1, Last(es));
      assert Front(before.tasks + [task]) == before.tasks;
    }
  }

  /** The metro has a template of type t among ts. */
  ghost predicate Asks(ts: seq<CollectionTask>, metroId: string, t: TaskType) {
    exists i :: 0 <= i < |ts| && SameSlot(ts[i], metroId, t)
  }

  lemma LastTemplateTargets(ops: TextOps, plan: Plan, d: Data, code: int, acc: Progress, front: seq<CollectionTask>,
                            last: CollectionTask, metroId: string, t: TaskType)
    requires ops.DomainsHoldNoColon()
    requires PlannedTemplates(front + [last]) && KeysFrom(acc.seen, front) && TargetType(t)
    ensures TargetsOf(Process(acc, last, Emissions(ops, plan, d, code, last)).tasks, metroId, t)
         == TargetsOf(acc.tasks, metroId, t)
            + (if SameSlot(last, metroId, t)
               then Texted(TopOrganic(ops, WantedBy(t), metroId, plan, d, TARGET_LIMIT)) else [])
  {
    hide TopOrganic, EmitAll, KeyOf, ProfileEmissions, ListingsPayload, TemplateKey;
    var es := Emissions(ops, plan, d, code, last);
    assert (front + [last])[|front|] == last;
    assert PlannedTemplate(last);
    OwnKey(last.metroId, last.taskType);
    SlotIsFresh(acc.seen, front, last, TemplateKey(last.metroId, last.taskType));
    KeyNonEmpty(last.metroId, last.taskType);
    if SameSlot(last, metroId, t) {
      var targets := TopOrganic(ops, WantedBy(t), metroId, plan, d, TARGET_LIMIT);
      assert es == TargetEmissions(ops, last, targets);
      TopOrganicKeyParts(ops, t, metroId, plan, d, TARGET_LIMIT);
      forall i | 0 <= i < |targets|
        ensures last.dedupKey.value + ":" + KeyPart(ops, last.taskType, targets[i]) !in acc.seen
      {
        var key := TemplateKey(last.metroId, last.taskType) + ":" + KeyPart(ops, last.taskType, targets[i]);
        TargetKeyOf(ops, plan, d, last, targets[i]);
        SlotIsFresh(acc.seen, front, last, key);
      }
      EmitsEveryTarget(ops, acc, last, targets);
    } else {
      TargetsOfOthers(acc, last, es, metroId, t);
    }
  }

  lemma AsksSnoc(ts: seq<CollectionTask>, last: CollectionTask, metroId: string, t: TaskType)
    requires PlannedTemplates(ts + [last])
    ensures Asks(ts + [last], metroId, t) <==> Asks(ts, metroId, t) || SameSlot(last, metroId, t)
    ensures SameSlot(last, metroId, t) ==> !Asks(ts, metroId, t)
  {
    hide PlannedTemplate;
    assert (ts + [last])[|ts|] == last;
    assert forall i :: 0 <= i < |ts| ==> (ts + [last])[i] == ts[i];
  }

  /** Starting with no keys marked, each metro with a target template gets exactly its first
      five targets, in order, and a metro without one gets none. */
  lemma {:induction false} TargetsAreTheFirstFive(
      ops: TextOps, plan: Plan, request: CollectionRequest, d: Data, ts: seq<CollectionTask>,
      metroId: string, t: TaskType)
    requires KnowsMetros(request.metros, ts) && PlannedTemplates(ts) && d.seen == {} && TargetType(t)
    requires ops.DomainsHoldNoColon()
    ensures KeysFrom(ProcessAll(ops, plan, request, d, ts).seen, ts)
    ensures TargetsOf(ProcessAll(ops, plan, request, d, ts).tasks, metroId, t)
         == if Asks(ts, metroId, t) then Texted(TopOrganic(ops, WantedBy(t), metroId, plan, d, TARGET_LIMIT)) else []
  {
    hide Emissions, KeyOf, TopOrganic, EmitAll, PlannedTemplate, Reaches, TemplateKey;
    if ts != [] {
      var front, last := Front(ts), Last(ts);
      assert ts == front + [last] && last in ts;
      TargetsAreTheFirstFive(ops, plan, request, d, front, metroId, t);
      var acc := ProcessAll(ops, plan, request, d, front);
      var code := LocationCode(request.metros, last.metroId);
      ProcessKeysFrom(ops, plan, d, code, acc, front, last);
      LastTemplateTargets(ops, plan, d, code, acc, front, last, metroId, t);
      AsksSnoc(front, last, metroId, t);
    }
  }

  // ----- The planner's templates -----------------------------------------------------------

  /** No metro id reaches into the target keys of another. */
  predicate Apart(metros: seq<MetroInput>) {
    forall i, j :: 0 <= i < |metros| && 0 <= j < |metros| && i != j ==> !Reaches(metros[i].metroId, metros[j].metroId)
  }

  lemma NeverReachesItself(m: string)
    ensures !Reaches(m, m)
  {
  }

  lemma TemplatesForPlanned(request: CollectionRequest, metro: MetroInput, start: nat)
    ensures PlannedTemplates(TemplatesFor(request, metro, start))
    ensures request.profile == Interactive ==>
              forall u :: u in TemplatesFor(request, metro, start) ==> !TargetType(u.taskType)
    ensures forall i :: 0 <= i < |TemplatesFor(request, metro, start)| ==>
              TemplatesFor(request, metro, start)[i].metroId == metro.metroId
  {
    hide TaskIds.BaseTaskId, TemplateKey, Chunks, SerpKeywords, KeywordTexts, Reaches;
    NeverReachesItself(metro.metroId);
  }

  lemma TemplatesForAsk(request: CollectionRequest, metro: MetroInput, start: nat, t: TaskType)
    requires TargetType(t)
    ensures Asks(TemplatesFor(request, metro, start), metro.metroId, t)
            <==> SerpKeywords(request) != [] && request.profile == Full
  {
    hide TaskIds.BaseTaskId, TemplateKey, Chunks, SerpKeywords, KeywordTexts;
    var ts := TemplatesFor(request, metro, start);
    if SerpKeywords(request) != [] && request.profile == Full {
      assert SameSlot(ts[if t == Backlinks then 0 else 1], metro.metroId, t);
    }
  }

  lemma AsksConcat(xs: seq<CollectionTask>, ys: seq<CollectionTask>, metroId: string, t: TaskType)
    ensures Asks(xs + ys, metroId, t) <==> Asks(xs, metroId, t) || Asks(ys, metroId, t)
  {
    hide SameSlot;
    if Asks(xs, metroId, t) {
      var i :| 0 <= i < |xs| && SameSlot(xs[i], metroId, t);
      assert (xs + ys)[i] == xs[i];
    }
    if Asks(ys, metroId, t) {
      var i :| 0 <= i < |ys| && SameSlot(ys[i], metroId, t);
      assert (xs + ys)[|xs| + i] == ys[i];
    }
  }

  lemma NothingPlanned()
    ensures PlannedTemplates([])
  {
  }

  /** Different slots, whose keys do not reach each other's metros. */
  ghost predicate Unrelated(t: CollectionTask, u: CollectionTask) {
    !SameSlot(t, u.metroId, u.taskType) && !MayReach(t, u.metroId) && !MayReach(u, t.metroId)
  }

  lemma ApartUnrelated(t: CollectionTask, u: CollectionTask)
    requires t.metroId != u.metroId && !MayReach(t, u.metroId) && !MayReach(u, t.metroId)
    ensures Unrelated(t, u)
  {
  }

  lemma PlannedConcat(xs: seq<CollectionTask>, ys: seq<CollectionTask>)
    requires PlannedTemplates(xs) && PlannedTemplates(ys)
    requires forall i, j :: 0 <= i < |xs| && 0 <= j < |ys| ==> Unrelated(xs[i], ys[j])
    ensures PlannedTemplates(xs + ys)
  {
    hide PlannedTemplate, SameSlot, Reaches;
  }

  lemma {:induction false} InteractiveHasNoTargets(
      request: CollectionRequest, metros: seq<MetroInput>, t: CollectionTask)
    requires request.profile == Interactive && t in Templates(request, metros)
    ensures !TargetType(t.taskType)
  {
    hide TemplatesFor, BaseTasks;
    var front, last := Front(metros), Last(metros);
    if t in Templates(request, front) {
      InteractiveHasNoTargets(request, front, t);
    } else {
      TemplatesForPlanned(request, last, |BaseTasks(request, front)| + 1);
    }
  }

  /** A template of an earlier metro and one of a later metro are unrelated. */
  lemma EarlierUnrelated(
      request: CollectionRequest, front: seq<MetroInput>, last: MetroInput, start: nat, t: CollectionTask,
          u: CollectionTask)
    requires request.profile == Interactive || Apart(front + [last])
    requires DistinctMetroIds(front + [last])
    requires t in Templates(request, front) && u in TemplatesFor(request, last, start)
    ensures Unrelated(t, u)
  {
    hide TemplatesFor, Templates, Reaches;
    TemplateSlot(request, front, t);
    TemplatesForPlanned(request, last, start);
    var k :| 0 <= k < |front| && front[k].metroId == t.metroId;
    var metros := front + [last];
    assert metros[k] == front[k] && metros[|front|] == last;
    if request.profile == Interactive {
      InteractiveHasNoTargets(request, front, t);
    }
    ApartUnrelated(t, u);
  }

  lemma {:induction false} TemplatesPlanned(request: CollectionRequest, metros: seq<MetroInput>)
    requires request.profile == Interactive || Apart(metros)
    requires DistinctMetroIds(metros)
    ensures PlannedTemplates(Templates(request, metros))
  {
    hide TemplatesFor, PlannedTemplates, Reaches, BaseTasks, Unrelated;
    if metros == [] {
      NothingPlanned();
    } else {
      var front, last := Front(metros), Last(metros);
      var start := |BaseTasks(request, front)| + 1;
      var xs, ys := Templates(request, front), TemplatesFor(request, last, start);
      assert metros == front + [last];
      assert forall i :: 0 <= i < |front| ==> front[i] == metros[i];
      TemplatesPlanned(request, front);
      TemplatesForPlanned(request, last, start);
      forall i, j | 0 <= i < |xs| && 0 <= j < |ys| ensures Unrelated(xs[i], ys[j]) {
        EarlierUnrelated(request, front, last, start, xs[i], ys[j]);
      }
      PlannedConcat(xs, ys);
    }
  }

  lemma NobodyAsks(metroId: string, t: TaskType)
    ensures !Asks([], metroId, t)
  {
  }

  lemma AsksOnlyOwn(ts: seq<CollectionTask>, own: string, metroId: string, t: TaskType)
    requires forall i :: 0 <= i < |ts| ==> ts[i].metroId == own
    ensures Asks(ts, metroId, t) ==> metroId == own
  {
  }

  lemma {:induction false} TemplatesAsk(
      request: CollectionRequest, metros: seq<MetroInput>, metroId: string, t: TaskType)
    requires TargetType(t)
    ensures Asks(Templates(request, metros), metroId, t) <==>
              && SerpKeywords(request) != [] && request.profile == Full
              && exists m :: m in metros && m.metroId == metroId
  {
    hide TemplatesFor, SerpKeywords, Asks, BaseTasks;
    if metros == [] {
      NobodyAsks(metroId, t);
    } else {
      var front, last := Front(metros), Last(metros);
      assert metros == front + [last];
      var start := |BaseTasks(request, front)| + 1;
      var ys := TemplatesFor(request, last, start);
      TemplatesAsk(request, front, metroId, t);
      TemplatesForPlanned(request, last, start);
      TemplatesForAsk(request, last, start, t);
      AsksConcat(Templates(request, front), ys, metroId, t);
      AsksOnlyOwn(ys, last.metroId, metroId, t);
    }
  }

  // ----- The targets of a planned run ------------------------------------------------------

  /** The dependent tasks give the metro exactly its first five targets of type t: its first five
      distinct non-aggregator domains, or its first five distinct URLs, in plan order; and none in
      an interactive run or without SERP keywords. */
  ghost predicate HasItsTargets(ops: TextOps, request: CollectionRequest, d: Data, metroId: string, t: TaskType)
    requires KnowsMetros(request.metros, PlanOf(request).dependentTemplates)
  {
    TargetsOf(Materialized(ops, PlanOf(request), request, d).tasks, metroId, t)
    == if SerpKeywords(request) != [] && request.profile == Full
       then Texted(TopOrganic(ops, WantedBy(t), metroId, PlanOf(request), d, TARGET_LIMIT)) else []
  }

  /** What a caller can check before the run: nothing asks for targets, or the metro ids are apart. */
  predicate TargetsAreSafe(request: CollectionRequest) {
    SerpKeywords(request) == [] || request.profile == Interactive || Apart(request.metros)
  }

  lemma PlanKnowsMetros(request: CollectionRequest)
    ensures KnowsMetros(request.metros, PlanOf(request).dependentTemplates)
  {
    forall u | u in PlanOf(request).dependentTemplates
      ensures exists m :: m in request.metros && m.metroId == u.metroId
    {
      TemplateSlot(request, request.metros, u);
    }
  }

  lemma {:induction false} NobodyAsksNoTargets(
      ops: TextOps, plan: Plan, request: CollectionRequest, d: Data, ts: seq<CollectionTask>,
      metroId: string, t: TaskType)
    requires KnowsMetros(request.metros, ts) && !Asks(ts, metroId, t)
    ensures TargetsOf(ProcessAll(ops, plan, request, d, ts).tasks, metroId, t) == []
  {
    hide Emissions, EmitAll;
    if ts != [] {
      var front, last := Front(ts), Last(ts);
      assert last in ts && ts[|ts| - 1] == last;
      assert forall i :: 0 <= i < |front| ==> front[i] == ts[i];
      NobodyAsksNoTargets(ops, plan, request, d, front, metroId, t);
      var acc := ProcessAll(ops, plan, request, d, front);
      TargetsOfOthers(acc, last, Emissions(ops, plan, d, LocationCode(request.metros, last.metroId), last), metroId, t);
    }
  }

  /** The metro's tasks of type t have as targets the first five values that its organic results name. */
  ghost predicate TargetsAreFirstFound(ops: TextOps, request: CollectionRequest, d: Data, metroId: string, t: TaskType)
    requires KnowsMetros(request.metros, PlanOf(request).dependentTemplates)
  {
    exists values ::
      && FirstFound(ops, WantedBy(t), ItemsFound(metroId, PlanOf(request).baseTasks, d), 5, values)
      && TargetsOf(Materialized(ops, PlanOf(request), request, d).tasks, metroId, t) == Texted(values)
  }

  lemma MaterializedSafely(ops: TextOps, request: CollectionRequest, d: Data, metro: MetroInput, t: TaskType)
    requires TargetsAreSafe(request) && DistinctMetroIds(request.metros) && metro in request.metros
    requires d.seen == {} && TargetType(t) && ops.DomainsHoldNoColon()
    requires KnowsMetros(request.metros, PlanOf(request).dependentTemplates)
    ensures HasItsTargets(ops, request, d, metro.metroId, t)
  {
    hide TopOrganic, PlannedTemplates, Asks, SerpKeywords, Emissions, Apart;
    var plan := PlanOf(request);
    TemplatesAsk(request, request.metros, metro.metroId, t);
    if SerpKeywords(request) == [] || request.profile == Interactive {
      NobodyAsksNoTargets(ops, plan, request, d, plan.dependentTemplates, metro.metroId, t);
    } else {
      TemplatesPlanned(request, request.metros);
      TargetsAreTheFirstFive(ops, plan, request, d, plan.dependentTemplates, metro.metroId, t);
    }
  }

  /** In a run whose targets are safe every metro gets exactly its first five targets, from any state
      without marked keys. */
  lemma PlannedRunTargets(ops: TextOps, request: CollectionRequest, d: Data, metro: MetroInput, t: TaskType)
    requires TargetsAreSafe(request) && DistinctMetroIds(request.metros) && metro in request.metros
    requires d.seen == {} && TargetType(t) && ops.DomainsHoldNoColon()
    ensures KnowsMetros(request.metros, PlanOf(request).dependentTemplates)
    ensures HasItsTargets(ops, request, d, metro.metroId, t)
    ensures SerpKeywords(request) != [] && request.profile == Full ==>
              TargetsAreFirstFound(ops, request, d, metro.metroId, t)
  {
    hide TopOrganic, PlannedTemplates, Asks, SerpKeywords, Emissions;
    hide Apart, FirstFound, ItemsFound, PlanOf, Materialized;
    var plan := PlanOf(request);
    PlanKnowsMetros(request);
    MaterializedSafely(ops, request, d, metro, t);
    var values := TopOrganic(ops, WantedBy(t), metro.metroId, plan, d, TARGET_LIMIT);
    TopOrganicFindsFirst(ops, WantedBy(t), metro.metroId, plan, d, TARGET_LIMIT);
  }
}
