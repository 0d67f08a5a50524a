/** From a request to the base tasks and dependent templates of one collection run. */
module CollectionPlan {
  import opened Containers
  import opened CollectionTypes
  import opened TaskIds
  import TaskGraph

  const MAX_VOLUME_BATCH_SIZE: nat := 700
  const M5_INTERACTIVE_SERP_LIMIT: nat := 6

  datatype Plan = Plan(baseTasks: seq<CollectionTask>, dependentTemplates: seq<CollectionTask>)

  // ----- Batching --------------------------------------------------------------------------

  function Chunks(items: seq<string>, size: nat): seq<seq<string>>
    requires size > 0
  {
    if items == [] then []
    else
      var cut := Min(size, |items|);
      [items[..cut]] + Chunks(items[cut..], size)
  }

  /** Drains the items size at a time until a chunk comes back empty. */
  method Chunked(items: seq<string>, size: nat) returns (chunks: seq<seq<string>>)
    requires size > 0
    ensures chunks == Chunks(items, size)
  {
    chunks := [];
    var rest := items;
    while true
      invariant Chunks(items, size) == chunks + Chunks(rest, size)
      decreases |rest|
    {
      var chunk := rest[..Min(size, |rest|)];
      rest := rest[|chunk|..];
      if chunk == [] { return; }
      chunks := chunks + [chunk];
    }
  }

  /** Batches concatenate back to the items and hold 1..size of them. */
  lemma {:induction false} ChunksPartition(items: seq<string>, size: nat)
    requires size > 0
    ensures TaskGraph.Flatten(Chunks(items, size)) == items
    ensures forall c :: c in Chunks(items, size) ==> 1 <= |c| <= size
    decreases |items|
  {
    if items != [] {
      var cut := Min(size, |items|);
      ChunksPartition(items[cut..], size);
      var rest := Chunks(items[cut..], size);
      assert Chunks(items, size) == [items[..cut]] + rest && items == items[..cut] + items[cut..];
      hide TaskGraph.Flatten, Chunks;
      TaskGraph.FlattenCons(items[..cut], rest);
    }
  }

  function CeilDiv(n: nat, d: nat): nat
    requires d > 0
  {
    (n + d - 1) / d
  }

  /** All batches but the last are full. */
  lemma {:induction false} ChunksFull(items: seq<string>, size: nat, i: nat)
    requires size > 0 && i + 1 < |Chunks(items, size)|
    ensures |Chunks(items, size)[i]| == size
    decreases |items|
  {
    var rest := items[Min(size, |items|)..];
    if i > 0 {
      ChunksFull(rest, size, i - 1);
    }
  }

  lemma ScaledBelow(k: int, d: int)
    requires d > 0 && k * d < d
    ensures k <= 0
  {
  }

  lemma DivFromBounds(x: int, d: int, q: int)
    requires d > 0 && q * d <= x < q * d + d
    ensures x / d == q
  {
    var r := x / d;
    assert x == r * d + x % d;
    assert (r - q) * d < d && (q - r) * d < d by {
      assert (r - q) * d == r * d - q * d;
    }
    ScaledBelow(r - q, d);
    ScaledBelow(q - r, d);
  }

  lemma CeilDivZero(d: nat)
    requires d > 0
    ensures CeilDiv(0, d) == 0
  {
    DivFromBounds(d - 1, d, 0);
  }

  lemma CeilDivStep(n: nat, d: nat)
    requires d > 0 && n > 0
    ensures CeilDiv(n, d) == 1 + CeilDiv(n - Min(d, n), d)
  {
    if n <= d {
      DivFromBounds(n + d - 1, d, 1);
      DivFromBounds(d - 1, d, 0);
    } else {
      var q := CeilDiv(n - d, d);
      assert n - 1 == q * d + (n - 1) % d;
      DivFromBounds(n + d - 1, d, q + 1);
    }
  }

  /** There are ceil(n / size) batches. */
  lemma {:induction false} ChunksCount(items: seq<string>, size: nat)
    requires size > 0
    ensures |Chunks(items, size)| == CeilDiv(|items|, size)
    decreases |items|
  {
    hide CeilDiv;
    if items == [] {
      CeilDivZero(size);
    } else {
      ChunksCount(items[Min(size, |items|)..], size);
      CeilDivStep(|items|, size);
    }
  }

  // ----- Keyword selection -----------------------------------------------------------------

  function Eligible(keywords: seq<KeywordDescriptor>): (r: seq<KeywordDescriptor>)
    ensures |r| <= |keywords|
    ensures forall k :: k in r ==> k in keywords && k.IsSerpEligible()
  {
    if keywords == [] then []
    else Eligible(Front(keywords)) + if Last(keywords).IsSerpEligible() then [Last(keywords)] else []
  }

  /** The keywords that receive SERP collection: interactive runs keep the first six. */
  function SerpKeywords(request: CollectionRequest): seq<KeywordDescriptor> {
    var eligible := Eligible(request.keywords);
    match request.profile
    case Interactive => eligible[..Min(M5_INTERACTIVE_SERP_LIMIT, |eligible|)]
    case Full => eligible
  }

  function TierOne(keywords: seq<KeywordDescriptor>): seq<KeywordDescriptor> {
    if keywords == [] then []
    else (if keywords[0].tier == 1 then [keywords[0]] else []) + TierOne(keywords[1..])
  }

  function MapsKeyword(keywords: seq<KeywordDescriptor>): KeywordDescriptor
    requires keywords != []
  {
    var tierOne := TierOne(keywords);
    if tierOne == [] then keywords[0] else tierOne[0]
  }

  /** The first keyword of tier one, or the first keyword of all if there is none. */
  ghost predicate IsHeadKeyword(keywords: seq<KeywordDescriptor>, k: KeywordDescriptor) {
    exists i :: 0 <= i < |keywords| && keywords[i] == k
      && if k.tier == 1 then forall j :: 0 <= j < i ==> keywords[j].tier != 1
         else i == 0 && forall j :: 0 <= j < |keywords| ==> keywords[j].tier != 1
  }

  lemma {:induction false} FirstTierOne(keywords: seq<KeywordDescriptor>, i: nat)
    requires i < |keywords| && keywords[i].tier == 1
    requires forall j :: 0 <= j < i ==> keywords[j].tier != 1
    ensures TierOne(keywords) != [] && TierOne(keywords)[0] == keywords[i]
  {
    if i > 0 {
      FirstTierOne(keywords[1..], i - 1);
    }
  }

  lemma {:induction false} NoTierOne(keywords: seq<KeywordDescriptor>)
    requires forall j :: 0 <= j < |keywords| ==> keywords[j].tier != 1
    ensures TierOne(keywords) == []
  {
    if keywords != [] {
      NoTierOne(keywords[1..]);
    }
  }

  /** The first tier-one keyword, or else the first keyword. */
  method SelectMapsKeyword(keywords: seq<KeywordDescriptor>) returns (k: KeywordDescriptor)
    requires keywords != []
    ensures k == MapsKeyword(keywords)
    ensures IsHeadKeyword(keywords, k)
  {
    for i := 0 to |keywords|
      invariant forall j :: 0 <= j < i ==> keywords[j].tier != 1
    {
      if keywords[i].tier == 1 {
        FirstTierOne(keywords, i);
        return keywords[i];
      }
    }
    NoTierOne(keywords);
    return keywords[0];
  }

  // ----- The tasks of one metro ------------------------------------------------------------

  function KeywordTexts(keywords: seq<KeywordDescriptor>): seq<string> {
    seq(|keywords|, i requires 0 <= i < |keywords| => keywords[i].keyword)
  }

  function VolumeTask(metro: MetroInput, batch: seq<string>, batchIndex: nat, id: nat): CollectionTask {
    CollectionTask(BaseTaskId(id), metro.metroId, KeywordVolume,
                   map["keywords" := Texts(batch), "location_code" := Number(metro.locationCode),
                       "batch_index" := Number(batchIndex)],
                   [], None)
  }

  function OrganicTask(metro: MetroInput, keyword: KeywordDescriptor, id: nat): CollectionTask {
    CollectionTask(BaseTaskId(id), metro.metroId, SerpOrganic,
                   map["keyword" := Text(keyword.keyword), "location_code" := Number(metro.locationCode),
                       "principal_city" := match metro.principalCity { case Some(c) => Text(c) case None => Null }],
                   [], None)
  }

  function MapsTask(metro: MetroInput, keyword: KeywordDescriptor, id: nat): CollectionTask {
    CollectionTask(BaseTaskId(id), metro.metroId, SerpMaps,
                   map["keyword" := Text(keyword.keyword), "location_code" := Number(metro.locationCode)],
                   [], None)
  }

  function VolumeTasks(metro: MetroInput, batches: seq<seq<string>>, start: nat): seq<CollectionTask> {
    seq(|batches|, i requires 0 <= i < |batches| => VolumeTask(metro, batches[i], i + 1, start + i))
  }

  function OrganicTasks(metro: MetroInput, keywords: seq<KeywordDescriptor>, start: nat): seq<CollectionTask> {
    seq(|keywords|, i requires 0 <= i < |keywords| => OrganicTask(metro, keywords[i], start + i))
  }

  function MapsTasks(metro: MetroInput, keywords: seq<KeywordDescriptor>, start: nat): seq<CollectionTask> {
    if keywords == [] then [] else [MapsTask(metro, MapsKeyword(keywords), start)]
  }

  function Block(metro: MetroInput, batches: seq<seq<string>>, serp: seq<KeywordDescriptor>, start: nat)
    : seq<CollectionTask>
  {
    VolumeTasks(metro, batches, start)
    + OrganicTasks(metro, serp, start + |batches|)
    + MapsTasks(metro, serp, start + |batches| + |serp|)
  }

  /** Volume batches, then organic pulls, then one maps pull, numbered from start. */
  function MetroTasks(request: CollectionRequest, metro: MetroInput, start: nat): seq<CollectionTask> {
    var batches := Chunks(KeywordTexts(request.keywords), MAX_VOLUME_BATCH_SIZE);
    Block(metro, batches, SerpKeywords(request), start)
  }

  function TemplateKey(metroId: string, t: TaskType): string {
    metroId + ":" + TypeName(t)
  }

  function Template(metroId: string, suffix: string, t: TaskType, source: string, dependsOn: string): CollectionTask {
    CollectionTask("tmpl-" + metroId + "-" + suffix, metroId, t, map["source" := Text(source)],
                   [dependsOn], Some(TemplateKey(metroId, t)))
  }

  /** What a metro with SERP keywords asks for once its first phase is in. */
  function MetroTemplates(profile: CollectionProfile, metroId: string, organicId: string, mapsId: string)
    : seq<CollectionTask>
  {
    match profile
    case Interactive =>
      [Template(metroId, "gbp", GbpInfo, "serp_maps", mapsId),
       Template(metroId, "listings", BusinessListings, "serp_maps", mapsId)]
    case Full =>
      [Template(metroId, "backlinks", Backlinks, "serp_organic", organicId),
       Template(metroId, "lighthouse", Lighthouse, "serp_organic", organicId),
       Template(metroId, "gbp", GbpInfo, "serp_maps", mapsId),
       Template(metroId, "reviews", GoogleReviews, "serp_maps", mapsId),
       Template(metroId, "listings", BusinessListings, "serp_maps", mapsId)]
  }

  function TemplatesFor(request: CollectionRequest, metro: MetroInput, start: nat): seq<CollectionTask> {
    var batches := |Chunks(KeywordTexts(request.keywords), MAX_VOLUME_BATCH_SIZE)|;
    var serp := |SerpKeywords(request)|;
    if serp == 0 then []
    else MetroTemplates(request.profile, metro.metroId, BaseTaskId(start + batches), BaseTaskId(start + batches + serp))
  }

  // ----- The whole plan --------------------------------------------------------------------

  function BaseTasks(request: CollectionRequest, metros: seq<MetroInput>): seq<CollectionTask> {
    if metros == [] then []
    else
      var before := BaseTasks(request, Front(metros));
      before + MetroTasks(request, Last(metros), |before| + 1)
  }

  function Templates(request: CollectionRequest, metros: seq<MetroInput>): seq<CollectionTask> {
    if metros == [] then []
    else
      Templates(request, Front(metros))
      + TemplatesFor(request, Last(metros), |BaseTasks(request, Front(metros))| + 1)
  }

  function PlanOf(request: CollectionRequest): Plan {
    Plan(BaseTasks(request, request.metros), Templates(request, request.metros))
  }

  /** The batch loop: one volume task per batch. */
  method AddVolumeTasks(metro: MetroInput, batches: seq<seq<string>>, baseTasks: seq<CollectionTask>, nextId: nat)
    returns (baseTasks': seq<CollectionTask>, nextId': nat)
    ensures baseTasks' == baseTasks + VolumeTasks(metro, batches, nextId)
    ensures nextId' == nextId + |batches|
  {
    hide BaseTaskId, VolumeTask;
    baseTasks', nextId' := baseTasks, nextId;
    for i := 0 to |batches|
      invariant baseTasks' == baseTasks + VolumeTasks(metro, batches[..i], nextId)
      invariant nextId' == nextId + i
    {
      baseTasks' := baseTasks' + [VolumeTask(metro, batches[i], i + 1, nextId')];
      nextId' := nextId' + 1;
      assert VolumeTasks(metro, batches[..i + 1], nextId)
          == VolumeTasks(metro, batches[..i], nextId) + [VolumeTask(metro, batches[i], i + 1, nextId + i)];
    }
    assert batches[..|batches|] == batches;
  }

  /** The keyword loop: one organic task per SERP keyword, remembering the ids. */
  method AddOrganicTasks(metro: MetroInput, serp: seq<KeywordDescriptor>, baseTasks: seq<CollectionTask>, nextId: nat)
    returns (baseTasks': seq<CollectionTask>, nextId': nat, serpTaskIds: seq<string>)
    ensures baseTasks' == baseTasks + OrganicTasks(metro, serp, nextId)
    ensures nextId' == nextId + |serp|
    ensures |serpTaskIds| == |serp| && (serp != [] ==> serpTaskIds[0] == BaseTaskId(nextId))
  {
    hide BaseTaskId, OrganicTask;
    baseTasks', nextId', serpTaskIds := baseTasks, nextId, [];
    for i := 0 to |serp|
      invariant baseTasks' == baseTasks + OrganicTasks(metro, serp[..i], nextId)
      invariant nextId' == nextId + i
      invariant |serpTaskIds| == i && (i > 0 ==> serpTaskIds[0] == BaseTaskId(nextId))
    {
      serpTaskIds := serpTaskIds + [BaseTaskId(nextId')];
      baseTasks' := baseTasks' + [OrganicTask(metro, serp[i], nextId')];
      nextId' := nextId' + 1;
      assert OrganicTasks(metro, serp[..i + 1], nextId)
          == OrganicTasks(metro, serp[..i], nextId) + [OrganicTask(metro, serp[i], nextId + i)];
    }
    assert serp[..|serp|] == serp;
  }

  /** The body of the metro loop. */
  method PlanMetro(request: CollectionRequest, metro: MetroInput, baseTasks: seq<CollectionTask>,
                   templates: seq<CollectionTask>, nextId: nat)
    returns (baseTasks': seq<CollectionTask>, templates': seq<CollectionTask>, nextId': nat)
    ensures baseTasks' == baseTasks + MetroTasks(request, metro, nextId)
    ensures templates' == templates + TemplatesFor(request, metro, nextId)
    ensures nextId' == nextId + |MetroTasks(request, metro, nextId)|
  {
    hide BaseTaskId, Chunks, Eligible, TierOne, MetroTemplates, KeywordTexts, OrganicTask, VolumeTask;
    var serp := SerpKeywords(request);
    var batches := Chunked(KeywordTexts(request.keywords), MAX_VOLUME_BATCH_SIZE);
    baseTasks', nextId' := AddVolumeTasks(metro, batches, baseTasks, nextId);
    var serpTaskIds;
    baseTasks', nextId', serpTaskIds := AddOrganicTasks(metro, serp, baseTasks', nextId');
    templates' := templates;
    if serp != [] {
      var mapsKeyword := SelectMapsKeyword(serp);
      var taskId := BaseTaskId(nextId');
      baseTasks' := baseTasks' + [MapsTask(metro, mapsKeyword, nextId')];
      nextId' := nextId' + 1;
      var firstSerpTask := if serpTaskIds != [] then serpTaskIds[0] else taskId;
      templates' := templates' + MetroTemplates(request.profile, metro.metroId, firstSerpTask, taskId);
    }
  }

  lemma BlockTaskAt(metro: MetroInput, batches: seq<seq<string>>, serp: seq<KeywordDescriptor>, start: nat, i: nat)
    requires i < |Block(metro, batches, serp, start)|
    ensures var t := Block(metro, batches, serp, start)[i];
            && t.taskId == BaseTaskId(start + i) && t.metroId == metro.metroId && t.dependsOn == []
            && (t.taskType == SerpMaps <==> i == |batches| + |serp|)
  {
    hide BaseTaskId;
    if i < |batches| {
      assert Block(metro, batches, serp, start)[i] == VolumeTasks(metro, batches, start)[i];
    } else if i < |batches| + |serp| {
      assert Block(metro, batches, serp, start)[i] == OrganicTasks(metro, serp, start + |batches|)[i - |batches|];
    } else {
      assert Block(metro, batches, serp, start)[i] == MapsTasks(metro, serp, start + |batches| + |serp|)[0];
    }
  }

  lemma MetroTaskAt(request: CollectionRequest, metro: MetroInput, start: nat, i: nat)
    requires i < |MetroTasks(request, metro, start)|
    ensures var t := MetroTasks(request, metro, start)[i];
            && t.taskId == BaseTaskId(start + i) && t.metroId == metro.metroId && t.dependsOn == []
            && (t.taskType == SerpMaps <==>
                  i == |Chunks(KeywordTexts(request.keywords), MAX_VOLUME_BATCH_SIZE)| + |SerpKeywords(request)|)
  {
    BlockTaskAt(metro, Chunks(KeywordTexts(request.keywords), MAX_VOLUME_BATCH_SIZE), SerpKeywords(request), start, i);
  }

  /** Base tasks carry the identifiers task-1, task-2, ... in order and depend on nothing. */
  lemma {:induction false} BaseTaskAt(request: CollectionRequest, metros: seq<MetroInput>, i: nat)
    ensures i < |BaseTasks(request, metros)| ==>
      var t := BaseTasks(request, metros)[i];
      t.taskId == BaseTaskId(i + 1) && t.dependsOn == [] && exists m :: m in metros && t.metroId == m.metroId
  {
    hide BaseTaskId, Chunks, Eligible, MapsKeyword, KeywordTexts, Block;
    if i < |BaseTasks(request, metros)| {
      var before := BaseTasks(request, Front(metros));
      if i < |before| {
        BaseTaskAt(request, Front(metros), i);
        var m :| m in Front(metros) && before[i].metroId == m.metroId;
        assert m in metros;
      } else {
        MetroTaskAt(request, Last(metros), |before| + 1, i - |before|);
      }
    }
  }

  lemma BaseTaskIdsUnique(request: CollectionRequest)
    ensures TaskGraph.UniqueIds(PlanOf(request).baseTasks)
  {
    hide BaseTaskId, Chunks, Eligible, MapsKeyword, KeywordTexts, Block;
    var tasks := PlanOf(request).baseTasks;
    forall i, j | 0 <= i < j < |tasks| ensures tasks[i].taskId != tasks[j].taskId {
      BaseTaskAt(request, request.metros, i);
      BaseTaskAt(request, request.metros, j);
      TaskIdsDistinct(i + 1, j + 1);
    }
  }

  lemma IndependentIsSchedulable(request: CollectionRequest)
    ensures TaskGraph.Schedulable(PlanOf(request).baseTasks)
  {
    var tasks := PlanOf(request).baseTasks;
    BaseTaskIdsUnique(request);
    forall t | t in tasks ensures t.dependsOn == [] {
      var i :| 0 <= i < |tasks| && tasks[i] == t;
      BaseTaskAt(request, request.metros, i);
    }
    forall p ensures !TaskGraph.IsCycle(tasks, p) {
      if TaskGraph.IsCycle(tasks, p) {
        TaskGraph.CycleStep(tasks, p);
      }
    }
  }

  /** Planning never raises: the closing validation always passes. */
  method BuildCollectionPlan(request: CollectionRequest) returns (r: Result<Plan>)
    ensures r == Ok(PlanOf(request))
  {
    hide BaseTaskId, MetroTasks, TemplatesFor, TaskGraph.Schedulable;
    var baseTasks: seq<CollectionTask> := [];
    var templates: seq<CollectionTask> := [];
    var nextId := 1;
    for i := 0 to |request.metros|
      invariant baseTasks == BaseTasks(request, request.metros[..i])
      invariant templates == Templates(request, request.metros[..i])
      invariant nextId == |baseTasks| + 1
    {
      assert Front(request.metros[..i + 1]) == request.metros[..i];
      baseTasks, templates, nextId := PlanMetro(request, request.metros[i], baseTasks, templates, nextId);
    }
    assert request.metros[..|request.metros|] == request.metros;
    IndependentIsSchedulable(request);
    var valid := TaskGraph.ValidateTaskGraph(baseTasks);
    match valid {
      case Ok(_) => r := Ok(Plan(baseTasks, templates));
      case Raised(e) => r := Raised(e);
    }
  }

  // ----- What a plan guarantees ------------------------------------------------------------

  lemma TemplatesForSlot(request: CollectionRequest, metro: MetroInput, start: nat, t: CollectionTask)
    requires t in TemplatesFor(request, metro, start)
    ensures t.metroId == metro.metroId && t.dedupKey == Some(TemplateKey(t.metroId, t.taskType))
  {
    hide BaseTaskId, TemplateKey, Chunks, SerpKeywords, KeywordTexts;
  }

  /** Every template belongs to a metro of the request and is keyed by metro and type. */
  lemma {:induction false} TemplateSlot(request: CollectionRequest, metros: seq<MetroInput>, t: CollectionTask)
    requires t in Templates(request, metros)
    ensures exists m :: m in metros && m.metroId == t.metroId
    ensures t.dedupKey == Some(TemplateKey(t.metroId, t.taskType))
  {
    hide TemplatesFor, BaseTasks, TemplateKey;
    var front, last := Front(metros), Last(metros);
    assert metros == front + [last];
    if t in Templates(request, front) {
      TemplateSlot(request, front, t);
      var m :| m in front && m.metroId == t.metroId;
      assert m in metros;
    } else {
      TemplatesForSlot(request, last, |BaseTasks(request, front)| + 1, t);
      assert last in metros;
    }
  }

  // ----- Sizes -----------------------------------------------------------------------------

  /** Base calls of one metro: its keyword batches, its SERP pulls, and one maps pull if any. */
  function BaseCalls(request: CollectionRequest): nat {
    var serp := |SerpKeywords(request)|;
    CeilDiv(|request.keywords|, MAX_VOLUME_BATCH_SIZE) + serp + if serp > 0 then 1 else 0
  }

  lemma MetroTaskCount(request: CollectionRequest, metro: MetroInput, start: nat)
    ensures |MetroTasks(request, metro, start)| == BaseCalls(request)
  {
    hide VolumeTask, OrganicTask, MapsTask, SerpKeywords, CeilDiv, Chunks;
    ChunksCount(KeywordTexts(request.keywords), MAX_VOLUME_BATCH_SIZE);
  }

  lemma {:induction false} BaseTaskCount(request: CollectionRequest, metros: seq<MetroInput>)
    ensures |BaseTasks(request, metros)| == |metros| * BaseCalls(request)
  {
    hide MetroTasks, BaseCalls;
    if metros != [] {
      BaseTaskCount(request, Front(metros));
      MetroTaskCount(request, Last(metros), |BaseTasks(request, Front(metros))| + 1);
    }
  }

  /** A metro has at most one maps task in the plan. */
  lemma {:induction false} OneMapsTask(request: CollectionRequest, metros: seq<MetroInput>, i: nat, j: nat)
    requires DistinctMetroIds(metros)
    requires i < j < |BaseTasks(request, metros)|
    requires BaseTasks(request, metros)[i].taskType == SerpMaps && BaseTasks(request, metros)[j].taskType == SerpMaps
    ensures BaseTasks(request, metros)[i].metroId != BaseTasks(request, metros)[j].metroId
  {
    hide MetroTasks, BaseTaskId;
    var before := BaseTasks(request, Front(metros));
    var start := |before| + 1;
    if j < |before| {
      OneMapsTask(request, Front(metros), i, j);
    } else {
      MetroTaskAt(request, Last(metros), start, j - |before|);
      if i < |before| {
        BaseTaskAt(request, Front(metros), i);
        var m :| m in Front(metros) && before[i].metroId == m.metroId;
        var k :| 0 <= k < |metros| - 1 && metros[k] == m;
      } else {
        MetroTaskAt(request, Last(metros), start, i - |before|);
      }
    }
  }
}
