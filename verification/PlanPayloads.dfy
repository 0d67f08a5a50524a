/** What the tasks of a plan carry and which templates they come with, read off the finished plan. */
module PlanPayloads {
  import opened Containers
  import opened CollectionTypes
  import opened TaskIds
  import opened CollectionPlan
  import opened PlanCoverage

  // ----- The part of a plan that belongs to one metro --------------------------------------

  lemma {:induction false} NothingScanned<T, R>(f: T -> seq<R>, xs: seq<T>)
    requires forall i :: 0 <= i < |xs| ==> f(xs[i]) == []
    ensures Flat(f, xs) == []
  {
    if xs != [] {
      NothingScanned(f, Front(xs));
    }
  }

  /** f finds something only in tasks of the metro. */
  ghost predicate OnlyIn<R(!new)>(f: CollectionTask -> seq<R>, metroId: string) {
    forall t: CollectionTask :: t.metroId != metroId ==> f(t) == []
  }

  lemma NothingBefore<R(!new)>(
      request: CollectionRequest, front: seq<MetroInput>, last: MetroInput, f: CollectionTask -> seq<R>)
    requires DistinctMetroIds(front + [last]) && OnlyIn(f, last.metroId)
    ensures Flat(f, BaseTasks(request, front)) == [] && Flat(f, Templates(request, front)) == []
  {
    hide Flat, BaseTasks, Templates, DistinctMetroIds;
    var tasks, templates := BaseTasks(request, front), Templates(request, front);
    forall i | 0 <= i < |tasks| ensures f(tasks[i]) == [] {
      BaseTaskAt(request, front, i);
      var k :| 0 <= k < |front| && front[k].metroId == tasks[i].metroId;
      EarlierMetroDiffers(front, last, k);
    }
    forall i | 0 <= i < |templates| ensures f(templates[i]) == [] {
      TemplateSlot(request, front, templates[i]);
      var k :| 0 <= k < |front| && front[k].metroId == templates[i].metroId;
      EarlierMetroDiffers(front, last, k);
    }
    NothingScanned(f, tasks);
    NothingScanned(f, templates);
  }

  lemma NothingInBlock<R(!new)>(
      request: CollectionRequest, last: MetroInput, start: nat, metroId: string, f: CollectionTask -> seq<R>)
    requires last.metroId != metroId && OnlyIn(f, metroId)
    ensures Flat(f, MetroTasks(request, last, start)) == [] && Flat(f, TemplatesFor(request, last, start)) == []
  {
    hide Flat, MetroTasks, TemplatesFor;
    var tasks, templates := MetroTasks(request, last, start), TemplatesFor(request, last, start);
    forall i | 0 <= i < |tasks| ensures f(tasks[i]) == [] {
      MetroTaskAt(request, last, start, i);
    }
    forall i | 0 <= i < |templates| ensures f(templates[i]) == [] {
      TemplatesForSlot(request, last, start, templates[i]);
    }
    NothingScanned(f, tasks);
    NothingScanned(f, templates);
  }

  /** Scanning a plan for what only tasks of one metro have is scanning that metro's part of it. */
  lemma {:induction false} PlanPartOf<R(!new)>(
      request: CollectionRequest, metros: seq<MetroInput>, metro: MetroInput, f: CollectionTask -> seq<R>)
    returns (start: nat)
    requires DistinctMetroIds(metros) && metro in metros && OnlyIn(f, metro.metroId)
    ensures Flat(f, BaseTasks(request, metros)) == Flat(f, MetroTasks(request, metro, start))
    ensures Flat(f, Templates(request, metros)) == Flat(f, TemplatesFor(request, metro, start))
  {
    hide MetroTasks, TemplatesFor, Flat, OnlyIn;
    var front, last := Front(metros), Last(metros);
    assert metros == front + [last];
    var before := BaseTasks(request, front);
    var from := |before| + 1;
    FlatConcat(f, before, MetroTasks(request, last, from));
    FlatConcat(f, Templates(request, front), TemplatesFor(request, last, from));
    if metro == last {
      start := from;
      NothingBefore(request, front, last, f);
    } else {
      var k :| 0 <= k < |front| && front[k] == metro;
      EarlierMetroDiffers(front, last, k);
      start := PlanPartOf(request, front, metro, f);
      NothingInBlock(request, last, from, metro.metroId, f);
    }
  }

  // ----- Base tasks ------------------------------------------------------------------------

  /** The task is for the metro: it asks for its location and, in an organic pull, names its city. */
  ghost predicate IsFor(t: CollectionTask, m: MetroInput) {
    && t.metroId == m.metroId && t.dedupKey == None && t.dependsOn == []
    && Get(t.payload, "location_code") == Number(m.locationCode)
    && t.taskType in {KeywordVolume, SerpOrganic, SerpMaps}
    && (t.taskType == SerpOrganic ==>
          Get(t.payload, "principal_city")
          == if m.principalCity.Some? then Text(m.principalCity.value) else Null)
  }

  lemma VolumeIsFor(m: MetroInput, batch: seq<string>, index: nat, id: nat)
    ensures IsFor(VolumeTask(m, batch, index, id), m)
    ensures Get(VolumeTask(m, batch, index, id).payload, "batch_index") == Number(index)
  {
    hide BaseTaskId;
  }

  lemma OrganicIsFor(m: MetroInput, keyword: KeywordDescriptor, id: nat)
    ensures IsFor(OrganicTask(m, keyword, id), m)
  {
    hide BaseTaskId;
  }

  lemma MapsIsFor(m: MetroInput, keyword: KeywordDescriptor, id: nat)
    ensures IsFor(MapsTask(m, keyword, id), m)
  {
    hide BaseTaskId;
  }

  lemma BlockIsFor(m: MetroInput, batches: seq<seq<string>>, serp: seq<KeywordDescriptor>, start: nat, i: nat)
    requires i < |Block(m, batches, serp, start)|
    ensures IsFor(Block(m, batches, serp, start)[i], m)
  {
    hide IsFor, VolumeTask, OrganicTask, MapsTask, MapsKeyword;
    var task := Block(m, batches, serp, start)[i];
    if i < |batches| {
      assert task == VolumeTask(m, batches[i], i + 1, start + i);
      VolumeIsFor(m, batches[i], i + 1, start + i);
    } else if i < |batches| + |serp| {
      assert task == OrganicTask(m, serp[i - |batches|], start + |batches| + (i - |batches|));
      OrganicIsFor(m, serp[i - |batches|], start + |batches| + (i - |batches|));
    } else {
      assert task == MapsTask(m, MapsKeyword(serp), start + |batches| + |serp|);
      MapsIsFor(m, MapsKeyword(serp), start + |batches| + |serp|);
    }
  }

  lemma {:induction false} BaseTasksAreFor(request: CollectionRequest, metros: seq<MetroInput>, t: CollectionTask)
    requires t in BaseTasks(request, metros)
    ensures exists m :: m in metros && IsFor(t, m)
  {
    hide IsFor, Block, Chunks, SerpKeywords, KeywordTexts;
    var front, last := Front(metros), Last(metros);
    assert metros == front + [last];
    var before := BaseTasks(request, front);
    var batches := Chunks(KeywordTexts(request.keywords), MAX_VOLUME_BATCH_SIZE);
    var block := Block(last, batches, SerpKeywords(request), |before| + 1);
    if t in before {
      BaseTasksAreFor(request, front, t);
      var m :| m in front && IsFor(t, m);
      assert m in metros;
    } else {
      assert t in block;
      var i :| 0 <= i < |block| && block[i] == t;
      BlockIsFor(last, batches, SerpKeywords(request), |before| + 1, i);
      assert last in metros;
    }
  }

  /** Every base task of a plan is for some metro of the request: the location code it carries is that
      metro's, and so is the principal city of an organic pull. */
  lemma BaseTaskPayloads(request: CollectionRequest, t: CollectionTask)
    requires t in PlanOf(request).baseTasks
    ensures exists m :: m in request.metros && IsFor(t, m)
  {
    BaseTasksAreFor(request, request.metros, t);
  }

  function IndexOf(metroId: string): CollectionTask -> seq<Value> {
    (t: CollectionTask) =>
      if t.metroId == metroId && t.taskType == KeywordVolume then [Get(t.payload, "batch_index")] else []
  }

  function CountUp(n: nat): seq<Value> {
    seq(n, i requires 0 <= i < n => Number(i + 1))
  }

  lemma CountUpSnoc(n: nat)
    ensures CountUp(n + 1) == CountUp(n) + [Number(n + 1)]
  {
  }

  lemma IndexOfVolume(m: MetroInput, batch: seq<string>, index: nat, id: nat)
    ensures IndexOf(m.metroId)(VolumeTask(m, batch, index, id)) == [Number(index)]
  {
    hide BaseTaskId;
  }

  lemma {:induction false} VolumeIndices(m: MetroInput, batches: seq<seq<string>>, start: nat)
    ensures Flat(IndexOf(m.metroId), VolumeTasks(m, batches, start)) == CountUp(|batches|)
  {
    if batches == [] {
      FlatNone(IndexOf(m.metroId));
      assert VolumeTasks(m, batches, start) == [];
    } else {
      hide VolumeTask, VolumeTasks, Flat, IndexOf, CountUp;
      var front, last := Front(batches), Last(batches);
      var n := |front|;
      assert batches == front + [last];
      VolumeIndices(m, front, start);
      VolumeTasksSnoc(m, front, last, start);
      FlatSnoc(IndexOf(m.metroId), VolumeTasks(m, front, start), VolumeTask(m, last, n + 1, start + n));
      IndexOfVolume(m, last, n + 1, start + n);
      CountUpSnoc(n);
    }
  }

  lemma OtherIndices(m: MetroInput, serp: seq<KeywordDescriptor>, start: nat)
    ensures Flat(IndexOf(m.metroId), OrganicTasks(m, serp, start)) == []
    ensures Flat(IndexOf(m.metroId), MapsTasks(m, serp, start)) == []
  {
    hide Flat, MapsKeyword, BaseTaskId;
    NothingScanned(IndexOf(m.metroId), OrganicTasks(m, serp, start));
    NothingScanned(IndexOf(m.metroId), MapsTasks(m, serp, start));
  }

  lemma FlatOfThree<T, R>(f: T -> seq<R>, xs: seq<T>, ys: seq<T>, zs: seq<T>)
    requires Flat(f, ys) == [] && Flat(f, zs) == []
    ensures Flat(f, xs + ys + zs) == Flat(f, xs)
  {
    hide Flat;
    FlatConcat(f, xs + ys, zs);
    FlatConcat(f, xs, ys);
    assert Flat(f, xs) + [] + [] == Flat(f, xs);
  }

  lemma BlockIndices(m: MetroInput, batches: seq<seq<string>>, serp: seq<KeywordDescriptor>, start: nat)
    ensures Flat(IndexOf(m.metroId), Block(m, batches, serp, start)) == CountUp(|batches|)
  {
    hide Flat, VolumeTasks, OrganicTasks, MapsTasks, IndexOf, CountUp;
    VolumeIndices(m, batches, start);
    OtherIndices(m, serp, start + |batches|);
    OtherIndices(m, serp, start + |batches| + |serp|);
    FlatOfThree(IndexOf(m.metroId), VolumeTasks(m, batches, start), OrganicTasks(m, serp, start + |batches|),
                MapsTasks(m, serp, start + |batches| + |serp|));
  }

  lemma IndexOnlyIn(metroId: string)
    ensures OnlyIn(IndexOf(metroId), metroId)
  {
  }

  /** The volume batches of a metro are numbered 1, 2, ... in plan order. */
  lemma PlanBatchIndices(request: CollectionRequest, m: MetroInput)
    requires DistinctMetroIds(request.metros) && m in request.metros
    ensures Flat(IndexOf(m.metroId), PlanOf(request).baseTasks) == CountUp(CeilDiv(|request.keywords|, 700))
  {
    hide Flat, Block, Chunks, SerpKeywords, IndexOf, CeilDiv, BaseTasks, Templates, DistinctMetroIds;
    IndexOnlyIn(m.metroId);
    var start := PlanPartOf(request, request.metros, m, IndexOf(m.metroId));
    ChunksCount(KeywordTexts(request.keywords), MAX_VOLUME_BATCH_SIZE);
    BlockIndices(m, Chunks(KeywordTexts(request.keywords), MAX_VOLUME_BATCH_SIZE), SerpKeywords(request), start);
  }

  // ----- Templates -------------------------------------------------------------------------

  function TypeOf(metroId: string): CollectionTask -> seq<TaskType> {
    (t: CollectionTask) => if t.metroId == metroId then [t.taskType] else []
  }

  function Types(ts: seq<CollectionTask>): seq<TaskType> {
    seq(|ts|, i requires 0 <= i < |ts| => ts[i].taskType)
  }

  lemma {:induction false} TypesScanned(metroId: string, ts: seq<CollectionTask>)
    requires forall i :: 0 <= i < |ts| ==> ts[i].metroId == metroId
    ensures Flat(TypeOf(metroId), ts) == Types(ts)
  {
    if ts != [] {
      TypesScanned(metroId, Front(ts));
      assert Types(ts) == Types(Front(ts)) + [Last(ts).taskType];
    }
  }

  /** What a metro is looked up for once its first phase is in. */
  function WantedTemplates(profile: CollectionProfile, hasSerp: bool): seq<TaskType> {
    if !hasSerp then []
    else if profile == Interactive then [GbpInfo, BusinessListings]
    else [Backlinks, Lighthouse, GbpInfo, GoogleReviews, BusinessListings]
  }

  lemma TemplateTypesFor(request: CollectionRequest, m: MetroInput, start: nat)
    ensures Types(TemplatesFor(request, m, start)) == WantedTemplates(request.profile, SerpKeywords(request) != [])
    ensures forall i :: 0 <= i < |TemplatesFor(request, m, start)| ==>
      TemplatesFor(request, m, start)[i].metroId == m.metroId
  {
    hide SerpKeywords, TemplateKey, BaseTaskId, Chunks, KeywordTexts;
  }

  lemma TypeOnlyIn(metroId: string)
    ensures OnlyIn(TypeOf(metroId), metroId)
  {
  }

  /** Interactive runs look up the profile and the listings; full runs also backlinks, lighthouse and
      reviews; and a metro without SERP keywords nothing. */
  lemma PlanTemplateTypes(request: CollectionRequest, m: MetroInput)
    requires DistinctMetroIds(request.metros) && m in request.metros
    ensures Flat(TypeOf(m.metroId), PlanOf(request).dependentTemplates)
         == WantedTemplates(request.profile, SerpKeywords(request) != [])
  {
    hide Flat, SerpKeywords, TypeOf, Types, TemplatesFor, BaseTasks, Templates, DistinctMetroIds, WantedTemplates;
    TypeOnlyIn(m.metroId);
    var start := PlanPartOf(request, request.metros, m, TypeOf(m.metroId));
    TemplateTypesFor(request, m, start);
    TypesScanned(m.metroId, TemplatesFor(request, m, start));
  }

  /** The name of a template's pull in its dedup key, and in its own id. */
  ghost function KeyName(t: TaskType): string {
    match t
    case KeywordVolume => "keyword_volume"
    case SerpOrganic => "serp_organic"
    case SerpMaps => "serp_maps"
    case BusinessListings => "business_listings"
    case GoogleReviews => "google_reviews"
    case GbpInfo => "gbp_info"
    case Backlinks => "backlinks"
    case Lighthouse => "lighthouse"
  }

  ghost function Suffix(t: TaskType): string {
    match t
    case BusinessListings => "listings"
    case GoogleReviews => "reviews"
    case GbpInfo => "gbp"
    case _ => KeyName(t)
  }

  /** A template carries its metro and type in its id and in its dedup key. */
  ghost predicate IsNamed(t: CollectionTask) {
    && t.taskId == "tmpl-" + t.metroId + "-" + Suffix(t.taskType)
    && t.dedupKey == Some(t.metroId + ":" + KeyName(t.taskType))
  }

  lemma MetroTemplatesNamed(profile: CollectionProfile, metroId: string, organicId: string, mapsId: string)
    ensures forall t :: t in MetroTemplates(profile, metroId, organicId, mapsId) ==> IsNamed(t)
  {
  }

  lemma {:induction false} TemplateNames(request: CollectionRequest, metros: seq<MetroInput>, t: CollectionTask)
    requires t in Templates(request, metros)
    ensures IsNamed(t)
  {
    hide BaseTaskId, Chunks, SerpKeywords, KeywordTexts, BaseTasks, IsNamed, MetroTemplates;
    var front, last := Front(metros), Last(metros);
    if t in Templates(request, front) {
      TemplateNames(request, front, t);
    } else {
      var start := |BaseTasks(request, front)| + 1;
      var batches, serp := |Chunks(KeywordTexts(request.keywords), MAX_VOLUME_BATCH_SIZE)|, |SerpKeywords(request)|;
      MetroTemplatesNamed(request.profile, last.metroId, BaseTaskId(start + batches),
          BaseTaskId(start + batches + serp));
    }
  }

  // ----- Which keywords get SERP pulls -----------------------------------------------------

  /** Tier one or two, with a transactional or commercial intent. */
  ghost predicate EarnsSerp(k: KeywordDescriptor) {
    (k.tier == 1 || k.tier == 2) && (k.intent == "transactional" || k.intent == "commercial")
  }

  /** picked lists the keywords at the given increasing positions; all of them earn SERP pulls, and all
      that do before position upTo are among them. */
  ghost predicate PicksEarning(
      keywords: seq<KeywordDescriptor>, picked: seq<KeywordDescriptor>, positions: seq<int>, upTo: int)
  {
    && |positions| == |picked|
    && (forall a, b :: 0 <= a < b < |positions| ==> positions[a] < positions[b])
    && (forall a :: 0 <= a < |positions| ==>
          0 <= positions[a] < |keywords| && keywords[positions[a]] == picked[a] && EarnsSerp(picked[a]))
    && (forall i :: 0 <= i < upTo && i < |keywords| && EarnsSerp(keywords[i]) ==> i in positions)
  }

  lemma PicksSnoc(
      keywords: seq<KeywordDescriptor>, last: KeywordDescriptor, picked: seq<KeywordDescriptor>, positions: seq<int>)
    requires PicksEarning(keywords, picked, positions, |keywords|)
    ensures EarnsSerp(last) ==>
      PicksEarning(keywords + [last], picked + [last], positions + [|keywords|], |keywords| + 1)
    ensures !EarnsSerp(last) ==> PicksEarning(keywords + [last], picked, positions, |keywords| + 1)
  {
    hide EarnsSerp;
    var all, places := keywords + [last], positions + [|keywords|];
    assert forall i :: 0 <= i < |keywords| ==> all[i] == keywords[i];
    assert forall i :: i in places <==> i in positions || i == |keywords|;
  }

  lemma {:induction false} EligiblePicks(keywords: seq<KeywordDescriptor>) returns (positions: seq<int>)
    ensures PicksEarning(keywords, Eligible(keywords), positions, |keywords|)
  {
    positions := [];
    if keywords != [] {
      hide PicksEarning;
      var front, last := Front(keywords), Last(keywords);
      assert keywords == front + [last];
      positions := EligiblePicks(front);
      PicksSnoc(front, last, Eligible(front), positions);
      if EarnsSerp(last) {
        positions := positions + [|front|];
      }
    } else {
      assert Eligible(keywords) == [];
    }
  }

  lemma PicksTake(keywords: seq<KeywordDescriptor>, picked: seq<KeywordDescriptor>, positions: seq<int>, n: nat)
    requires PicksEarning(keywords, picked, positions, |keywords|) && 0 < n <= |picked|
    ensures PicksEarning(keywords, picked[..n], positions[..n], positions[n - 1] + 1)
  {
    hide EarnsSerp;
    forall i | 0 <= i < positions[n - 1] + 1 && i < |keywords| && EarnsSerp(keywords[i]) ensures i in positions[..n] {
      var a :| 0 <= a < |positions| && positions[a] == i;
      assert positions[..n][a] == i;
    }
  }

  lemma PicksSizes(keywords: seq<KeywordDescriptor>, picked: seq<KeywordDescriptor>, positions: seq<int>)
    requires PicksEarning(keywords, picked, positions, |keywords|)
    ensures |positions| == |picked|
  {
  }

  /** SERP pulls are for the keywords that earn them, in order: all of them in full runs, and the first
      six in interactive ones. */
  lemma SerpKeywordsMeaning(request: CollectionRequest) returns (positions: seq<int>)
    ensures var serp := SerpKeywords(request);
            && |positions| == |serp|
            && PicksEarning(request.keywords, serp, positions,
                            if request.profile == Full || |serp| < 6 then |request.keywords| else positions[5] + 1)
            && (request.profile == Interactive ==> |serp| <= 6)
  {
    hide PicksEarning, Eligible;
    positions := EligiblePicks(request.keywords);
    var eligible := Eligible(request.keywords);
    PicksSizes(request.keywords, eligible, positions);
    if request.profile == Interactive && |eligible| >= 6 {
      PicksTake(request.keywords, eligible, positions, 6);
      positions := positions[..6];
    } else if request.profile == Interactive {
      assert eligible[..|eligible|] == eligible;
    }
  }
}
