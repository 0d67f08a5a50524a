/** What a plan asks for, metro by metro: every keyword's volume once, one organic pull for every
    SERP keyword, one maps pull; and where its templates take their input from. */
module PlanCoverage {
  import opened Containers
  import opened CollectionTypes
  import opened TaskIds
  import opened CollectionPlan
  import TaskGraph

  // ----- Keywords asked for ----------------------------------------------------------------

  /** The keywords a task asks about: the list of a volume batch, the single keyword of a pull. */
  function AskedKeywords(payload: Payload): seq<string> {
    match Get(payload, "keywords")
    case Texts(keywords) => keywords
    case _ =>
      match Get(payload, "keyword")
      case Text(keyword) => [keyword]
      case _ => []
  }

  /** What a task contributes to the keywords asked about a metro by tasks of one type. */
  function AskedOf(metroId: string, category: TaskType): CollectionTask -> seq<string> {
    (t: CollectionTask) => if t.metroId == metroId && t.taskType == category then AskedKeywords(t.payload) else []
  }

  /** The keywords that tasks of one type ask about for one metro, in plan order. */
  function Asked(tasks: seq<CollectionTask>, metroId: string, category: TaskType): seq<string> {
    Flat(AskedOf(metroId, category), tasks)
  }

  /** What each metro of a request should be asked about. */
  function Wanted(request: CollectionRequest, category: TaskType): seq<string> {
    var serp := SerpKeywords(request);
    match category
    case KeywordVolume => KeywordTexts(request.keywords)
    case SerpOrganic => KeywordTexts(serp)
    case SerpMaps => if serp == [] then [] else [MapsKeyword(serp).keyword]
    case _ => []
  }

  lemma VolumeAsked(metro: MetroInput, batch: seq<string>, index: nat, id: nat, metroId: string, category: TaskType)
    ensures AskedOf(metroId, category)(VolumeTask(metro, batch, index, id))
         == if metroId == metro.metroId && category == KeywordVolume then batch else []
  {
    hide BaseTaskId;
  }

  lemma OrganicAsked(metro: MetroInput, keyword: KeywordDescriptor, id: nat, metroId: string, category: TaskType)
    ensures AskedOf(metroId, category)(OrganicTask(metro, keyword, id))
         == if metroId == metro.metroId && category == SerpOrganic then [keyword.keyword] else []
  {
    hide BaseTaskId;
  }

  lemma MapsAsked(metro: MetroInput, keyword: KeywordDescriptor, id: nat, metroId: string, category: TaskType)
    ensures AskedOf(metroId, category)(MapsTask(metro, keyword, id))
         == if metroId == metro.metroId && category == SerpMaps then [keyword.keyword] else []
  {
    hide BaseTaskId;
  }

  lemma VolumeTasksSnoc(metro: MetroInput, batches: seq<seq<string>>, last: seq<string>, start: nat)
    ensures VolumeTasks(metro, batches + [last], start)
         == VolumeTasks(metro, batches, start) + [VolumeTask(metro, last, |batches| + 1, start + |batches|)]
  {
    hide VolumeTask;
  }

  lemma {:induction false} VolumeTasksAsked(
    metro: MetroInput, batches: seq<seq<string>>, start: nat, metroId: string, category: TaskType)
    ensures Asked(VolumeTasks(metro, batches, start), metroId, category)
         == if metroId == metro.metroId && category == KeywordVolume then TaskGraph.Flatten(batches) else []
  {
    if batches == [] {
      FlatNone(AskedOf(metroId, category));
      assert VolumeTasks(metro, batches, start) == [];
    } else {
      hide AskedOf, VolumeTask, VolumeTasks, Flat, TaskGraph.Flatten;
      var front, last := Front(batches), Last(batches);
      var n := |front|;
      assert batches == front + [last];
      VolumeTasksAsked(metro, front, start, metroId, category);
      VolumeTasksSnoc(metro, front, last, start);
      FlatSnoc(AskedOf(metroId, category), VolumeTasks(metro, front, start), VolumeTask(metro, last, n + 1, start + n));
      VolumeAsked(metro, last, n + 1, start + n, metroId, category);
      TaskGraph.FlattenSnoc(front, last);
    }
  }

  lemma OrganicTasksSnoc(metro: MetroInput, serp: seq<KeywordDescriptor>, last: KeywordDescriptor, start: nat)
    ensures OrganicTasks(metro, serp + [last], start)
         == OrganicTasks(metro, serp, start) + [OrganicTask(metro, last, start + |serp|)]
    ensures KeywordTexts(serp + [last]) == KeywordTexts(serp) + [last.keyword]
  {
    hide OrganicTask;
  }

  lemma {:induction false} OrganicTasksAsked(
    metro: MetroInput, serp: seq<KeywordDescriptor>, start: nat, metroId: string, category: TaskType)
    ensures Asked(OrganicTasks(metro, serp, start), metroId, category)
         == if metroId == metro.metroId && category == SerpOrganic then KeywordTexts(serp) else []
  {
    if serp == [] {
      FlatNone(AskedOf(metroId, category));
      assert OrganicTasks(metro, serp, start) == [] && KeywordTexts(serp) == [];
    } else {
      hide AskedOf, OrganicTask, OrganicTasks, KeywordTexts, Flat;
      var front, last := Front(serp), Last(serp);
      assert serp == front + [last];
      OrganicTasksAsked(metro, front, start, metroId, category);
      OrganicTasksSnoc(metro, front, last, start);
      FlatSnoc(AskedOf(metroId, category), OrganicTasks(metro, front, start),
          OrganicTask(metro, last, start + |front|));
      OrganicAsked(metro, last, start + |front|, metroId, category);
    }
  }

  lemma MapsTasksAsked(metro: MetroInput, serp: seq<KeywordDescriptor>, start: nat, metroId: string, category: TaskType)
    ensures Asked(MapsTasks(metro, serp, start), metroId, category)
         == if metroId == metro.metroId && category == SerpMaps && serp != [] then [MapsKeyword(serp).keyword] else []
  {
    hide AskedOf, MapsTask, MapsKeyword;
    FlatNone(AskedOf(metroId, category));
    if serp != [] {
      var task := MapsTask(metro, MapsKeyword(serp), start);
      FlatSnoc(AskedOf(metroId, category), [], task);
      assert [] + [task] == [task];
      MapsAsked(metro, MapsKeyword(serp), start, metroId, category);
    }
  }

  /** The tasks of a metro ask about what is wanted for it, and about no other metro. */
  lemma MetroTasksAsked(request: CollectionRequest, metro: MetroInput, start: nat, metroId: string, category: TaskType)
    ensures Asked(MetroTasks(request, metro, start), metroId, category)
         == if metroId == metro.metroId then Wanted(request, category) else []
  {
    hide AskedOf, VolumeTasks, OrganicTasks, MapsTasks, SerpKeywords;
    hide MapsKeyword, Flat, Chunks, KeywordTexts, TaskGraph.Flatten;
    var batches := Chunks(KeywordTexts(request.keywords), MAX_VOLUME_BATCH_SIZE);
    var serp := SerpKeywords(request);
    var f := AskedOf(metroId, category);
    var volumes := VolumeTasks(metro, batches, start);
    var organics := OrganicTasks(metro, serp, start + |batches|);
    var maps := MapsTasks(metro, serp, start + |batches| + |serp|);
    FlatConcat(f, volumes + organics, maps);
    FlatConcat(f, volumes, organics);
    VolumeTasksAsked(metro, batches, start, metroId, category);
    OrganicTasksAsked(metro, serp, start + |batches|, metroId, category);
    MapsTasksAsked(metro, serp, start + |batches| + |serp|, metroId, category);
    ChunksPartition(KeywordTexts(request.keywords), MAX_VOLUME_BATCH_SIZE);
  }

  ghost predicate HasMetro(metros: seq<MetroInput>, metroId: string) {
    exists m :: m in metros && m.metroId == metroId
  }

  lemma HasMetroSnoc(metros: seq<MetroInput>, last: MetroInput, metroId: string)
    requires DistinctMetroIds(metros + [last])
    ensures HasMetro(metros + [last], metroId) <==> HasMetro(metros, metroId) || last.metroId == metroId
    ensures last.metroId == metroId ==> !HasMetro(metros, metroId)
  {
    assert last in metros + [last];
    if HasMetro(metros, metroId) {
      var i :| 0 <= i < |metros| && metros[i].metroId == metroId;
      assert metros[i] in metros + [last];
      assert (metros + [last])[i].metroId != (metros + [last])[|metros|].metroId;
    }
  }

  lemma NoMetro(metroId: string)
    ensures !HasMetro([], metroId)
  {
  }

  lemma {:induction false} BaseTasksAsked(
      request: CollectionRequest, metros: seq<MetroInput>, metroId: string, category: TaskType)
    requires DistinctMetroIds(metros)
    ensures Asked(BaseTasks(request, metros), metroId, category)
         == if HasMetro(metros, metroId) then Wanted(request, category) else []
  {
    hide AskedOf, MetroTasks, Wanted, HasMetro;
    if metros == [] {
      FlatNone(AskedOf(metroId, category));
      NoMetro(metroId);
    } else {
      hide Flat;
      var front, last := Front(metros), Last(metros);
      var before := BaseTasks(request, front);
      assert metros == front + [last];
      BaseTasksAsked(request, front, metroId, category);
      FlatConcat(AskedOf(metroId, category), before, MetroTasks(request, last, |before| + 1));
      MetroTasksAsked(request, last, |before| + 1, metroId, category);
      HasMetroSnoc(front, last, metroId);
    }
  }

  /** The plan asks, for each metro of the request, for the volume of every keyword exactly once and
      in order, for one organic pull per SERP keyword, and for a maps pull of the chosen keyword;
      and for nothing about any other metro. */
  lemma PlanCoversKeywords(request: CollectionRequest, metroId: string, category: TaskType)
    requires DistinctMetroIds(request.metros)
    ensures Asked(PlanOf(request).baseTasks, metroId, category)
         == if HasMetro(request.metros, metroId) then Wanted(request, category) else []
  {
    BaseTasksAsked(request, request.metros, metroId, category);
  }

  // ----- Sources of the templates ----------------------------------------------------------

  /** The task type a template reads its input from. */
  function SourceType(t: TaskType): TaskType {
    if t in {Backlinks, Lighthouse} then SerpOrganic else SerpMaps
  }

  ghost function SourceName(t: TaskType): string {
    if t == SerpMaps then "serp_maps" else "serp_organic"
  }

  ghost predicate IsSourceOf(t: CollectionTask, template: CollectionTask) {
    t.metroId == template.metroId && t.taskType == SourceType(template.taskType)
  }

  ghost predicate NoneIsSource(tasks: seq<CollectionTask>, template: CollectionTask) {
    forall i :: 0 <= i < |tasks| ==> !IsSourceOf(tasks[i], template)
  }

  /** The first planned task of the template's metro and source type has the id the template waits for,
      and the template's payload names that type. */
  ghost predicate HasSource(tasks: seq<CollectionTask>, template: CollectionTask) {
    exists i :: 0 <= i < |tasks| && IsSourceOf(tasks[i], template)
      && template.dependsOn == [tasks[i].taskId]
      && Get(template.payload, "source") == Text(SourceName(tasks[i].taskType))
      && NoneIsSource(tasks[..i], template)
  }

  lemma HasSourceGrows(tasks: seq<CollectionTask>, more: seq<CollectionTask>, template: CollectionTask)
    requires HasSource(tasks, template) || (HasSource(more, template) && NoneIsSource(tasks, template))
    ensures HasSource(tasks + more, template)
  {
    hide IsSourceOf, SourceName;
    var all := tasks + more;
    if HasSource(tasks, template) {
      var i :| 0 <= i < |tasks| && IsSourceOf(tasks[i], template)
        && template.dependsOn == [tasks[i].taskId]
        && Get(template.payload, "source") == Text(SourceName(tasks[i].taskType))
        && NoneIsSource(tasks[..i], template);
      assert all[i] == tasks[i] && all[..i] == tasks[..i];
    } else {
      var i :| 0 <= i < |more| && IsSourceOf(more[i], template)
        && template.dependsOn == [more[i].taskId]
        && Get(template.payload, "source") == Text(SourceName(more[i].taskType))
        && NoneIsSource(more[..i], template);
      assert all[|tasks| + i] == more[i] && all[..|tasks| + i] == tasks + more[..i];
    }
  }

  lemma MetroTaskTypes(request: CollectionRequest, metro: MetroInput, start: nat, i: nat)
    requires i < |MetroTasks(request, metro, start)|
    ensures var batches := |Chunks(KeywordTexts(request.keywords), MAX_VOLUME_BATCH_SIZE)|;
            MetroTasks(request, metro, start)[i].taskType
            == if i < batches then KeywordVolume
               else if i < batches + |SerpKeywords(request)| then SerpOrganic else SerpMaps
  {
    hide BaseTaskId, Chunks, SerpKeywords, KeywordTexts, MapsKeyword;
  }

  lemma TemplatePayload(metroId: string, suffix: string, t: TaskType, source: string, dependsOn: string)
    ensures Get(Template(metroId, suffix, t, source, dependsOn).payload, "source") == Text(source)
  {
  }

  lemma TemplateSource(request: CollectionRequest, metro: MetroInput, start: nat, template: CollectionTask)
    requires template in TemplatesFor(request, metro, start)
    ensures Get(template.payload, "source") == Text(SourceName(SourceType(template.taskType)))
    ensures template.metroId == metro.metroId && SerpKeywords(request) != []
    ensures var batches := |Chunks(KeywordTexts(request.keywords), MAX_VOLUME_BATCH_SIZE)|;
            template.dependsOn
            == [BaseTaskId(start + batches
                           + if template.taskType in {Backlinks, Lighthouse} then 0 else |SerpKeywords(request)|)]
  {
    hide BaseTaskId, TemplateKey, Chunks, SerpKeywords, KeywordTexts;
  }

  /** Where the source of a template stands among the tasks of its metro. */
  function SourceIndex(request: CollectionRequest, t: TaskType): nat {
    |Chunks(KeywordTexts(request.keywords), MAX_VOLUME_BATCH_SIZE)|
    + if t in {Backlinks, Lighthouse} then 0 else |SerpKeywords(request)|
  }

  lemma MetroTaskSizes(request: CollectionRequest, metro: MetroInput, start: nat)
    ensures var serp := |SerpKeywords(request)|;
            |MetroTasks(request, metro, start)|
            == |Chunks(KeywordTexts(request.keywords), MAX_VOLUME_BATCH_SIZE)| + serp + if serp > 0 then 1 else 0
  {
    hide BaseTaskId, Chunks, SerpKeywords, KeywordTexts, MapsKeyword;
  }

  lemma SourceTask(request: CollectionRequest, metro: MetroInput, start: nat, template: CollectionTask, i: nat)
    requires template.metroId == metro.metroId && SerpKeywords(request) != []
    requires i <= SourceIndex(request, template.taskType)
    ensures var tasks := MetroTasks(request, metro, start);
            && i < |tasks| && tasks[i].taskId == BaseTaskId(start + i)
            && (IsSourceOf(tasks[i], template) <==> i == SourceIndex(request, template.taskType))
  {
    hide BaseTaskId, Chunks, SerpKeywords, KeywordTexts, MapsKeyword, VolumeTask, OrganicTask, MapsTask;
    MetroTaskSizes(request, metro, start);
    hide MetroTasks;
    MetroTaskTypes(request, metro, start, i);
    MetroTaskAt(request, metro, start, i);
  }

  lemma SourceAt(tasks: seq<CollectionTask>, template: CollectionTask, at: nat)
    requires at < |tasks| && IsSourceOf(tasks[at], template) && template.dependsOn == [tasks[at].taskId]
    requires Get(template.payload, "source") == Text(SourceName(tasks[at].taskType))
    requires forall i :: 0 <= i < at ==> !IsSourceOf(tasks[i], template)
    ensures HasSource(tasks, template)
  {
    hide IsSourceOf, SourceName;
    assert NoneIsSource(tasks[..at], template);
  }

  lemma MetroTemplateSource(request: CollectionRequest, metro: MetroInput, start: nat, template: CollectionTask)
    requires template in TemplatesFor(request, metro, start)
    ensures HasSource(MetroTasks(request, metro, start), template)
  {
    TemplateSource(request, metro, start, template);
    var tasks, at := MetroTasks(request, metro, start), SourceIndex(request, template.taskType);
    assert template.dependsOn == [BaseTaskId(start + at)];
    hide BaseTaskId, SerpKeywords, SourceName, TemplatesFor, MetroTasks, SourceIndex, HasSource;
    SourceTask(request, metro, start, template, at);
    assert tasks[at].taskType == SourceType(template.taskType);
    forall i | 0 <= i < at ensures !IsSourceOf(tasks[i], template) {
      SourceTask(request, metro, start, template, i);
    }
    SourceAt(tasks, template, at);
  }

  lemma EarlierMetroDiffers(metros: seq<MetroInput>, last: MetroInput, k: nat)
    requires k < |metros| && DistinctMetroIds(metros + [last])
    ensures metros[k].metroId != last.metroId
  {
    assert (metros + [last])[k] == metros[k] && (metros + [last])[|metros|] == last;
  }

  lemma NoEarlierSource(
      request: CollectionRequest, front: seq<MetroInput>, last: MetroInput, template: CollectionTask)
    requires DistinctMetroIds(front + [last]) && template.metroId == last.metroId
    ensures NoneIsSource(BaseTasks(request, front), template)
  {
    hide MetroTasks, BaseTasks, DistinctMetroIds;
    var before := BaseTasks(request, front);
    forall i | 0 <= i < |before| ensures !IsSourceOf(before[i], template) {
      BaseTaskAt(request, front, i);
      var k :| 0 <= k < |front| && front[k].metroId == before[i].metroId;
      EarlierMetroDiffers(front, last, k);
    }
  }

  lemma {:induction false} TemplatesHaveSources(
      request: CollectionRequest, metros: seq<MetroInput>, template: CollectionTask)
    requires DistinctMetroIds(metros) && template in Templates(request, metros)
    ensures HasSource(BaseTasks(request, metros), template)
  {
    hide TemplatesFor, MetroTasks, HasSource, NoneIsSource;
    var front, last := Front(metros), Last(metros);
    assert metros == front + [last];
    var before := BaseTasks(request, front);
    var start := |before| + 1;
    if template in Templates(request, front) {
      TemplatesHaveSources(request, front, template);
    } else {
      TemplateSource(request, last, start, template);
      MetroTemplateSource(request, last, start, template);
      NoEarlierSource(request, front, last, template);
    }
    HasSourceGrows(before, MetroTasks(request, last, start), template);
  }

  /** Every dependent template waits for the first planned task of its own metro that it reads from: an
      organic pull for backlinks and lighthouse, the maps pull for the others. */
  lemma TemplatesWaitForTheirSource(request: CollectionRequest, template: CollectionTask)
    requires DistinctMetroIds(request.metros) && template in PlanOf(request).dependentTemplates
    ensures HasSource(PlanOf(request).baseTasks, template)
  {
    TemplatesHaveSources(request, request.metros, template);
  }
}
