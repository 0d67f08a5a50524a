/** The business-profile, review and listings tasks of a planned run: which there are and what they ask
    the provider for. */
module DependentProfiles {
  import opened Containers
  import opened CollectionTypes
  import opened CollectionPlan
  import opened ExecutionState
  import opened TopResults
  import opened MapsProfiles
  import opened Materialize
  import opened DependentTargets
  import MapsMeaning
  import PlanPayloads
  import TaskIds

  // ----- Location codes --------------------------------------------------------------------

  /** Of several metros with one id the last gives the location code. */
  lemma {:induction false} LocationCodeMeaning(metros: seq<MetroInput>, metroId: string) returns (k: nat)
    requires exists m :: m in metros && m.metroId == metroId
    ensures k < |metros| && metros[k].metroId == metroId && LocationCode(metros, metroId) == metros[k].locationCode
    ensures forall j :: k < j < |metros| ==> metros[j].metroId != metroId
  {
    assert metros == Front(metros) + [Last(metros)];
    if Last(metros).metroId == metroId {
      k := |metros| - 1;
    } else {
      k := LocationCodeMeaning(Front(metros), metroId);
      assert metros[|metros| - 1] == Last(metros);
    }
  }

  lemma OwnLocationCode(metros: seq<MetroInput>, metro: MetroInput)
    requires metro in metros && DistinctMetroIds(metros)
    ensures LocationCode(metros, metro.metroId) == metro.locationCode
  {
    var k := LocationCodeMeaning(metros, metro.metroId);
    var j :| 0 <= j < |metros| && metros[j] == metro;
  }

  // ----- Payloads --------------------------------------------------------------------------

  ghost function TextOrNull(t: Option<string>): Value {
    if t.Some? then Text(t.value) else Null
  }

  /** Reviews ask by the profile's best identifier; its own data by name, else by the query it was found
      with, else by that identifier. */
  ghost function QueryOf(t: TaskType, p: Profile): string {
    if t == GoogleReviews then p.query
    else if p.businessName.Some? then p.businessName.value
    else if p.sourceQuery.Some? then p.sourceQuery.value
    else p.query
  }

  /** The pull for profile p of the metro. */
  ghost predicate AsksForProfile(payload: Payload, t: TaskType, locationCode: int, p: Profile) {
    && Get(payload, "keyword") == Text(QueryOf(t, p))
    && Get(payload, "location_code") == Number(locationCode)
    && Get(payload, "cid") == TextOrNull(p.cid)
    && Get(payload, "place_id") == TextOrNull(p.placeId)
    && Get(payload, "business_name") == TextOrNull(p.businessName)
    && Get(payload, "source_query") == TextOrNull(p.sourceQuery)
    && Get(payload, "preferred_identifier_mode") == Text(p.identifierMode)
    && Get(payload, "review_retrieval_mode") == (if t == GoogleReviews then Text(p.identifierMode) else Null)
    && Get(payload, "gbp_retrieval_mode") == (if t == GbpInfo then Text("keyword") else Null)
  }

  /** The listings pull of the metro: its first maps keyword, or an empty one. */
  ghost predicate AsksForListings(payload: Payload, locationCode: int, keyword: Option<string>) {
    && Get(payload, "keyword") == Text(if keyword.Some? then keyword.value else "")
    && Get(payload, "location_code") == Number(locationCode)
  }

  ghost function Filled(base: Payload, keyword: Value, code: Value, cid: Value, place: Value, name: Value,
                        source: Value, mode: Value, review: Value, gbp: Value): Payload {
    base + map[
      "keyword" := keyword, "location_code" := code, "cid" := cid, "place_id" := place,
      "business_name" := name, "source_query" := source, "preferred_identifier_mode" := mode,
      "review_retrieval_mode" := review, "gbp_retrieval_mode" := gbp]
  }

  lemma FilledQuery(base: Payload, keyword: Value, code: Value, cid: Value, place: Value, name: Value,
                    source: Value, mode: Value, review: Value, gbp: Value)
    ensures var filled := Filled(base, keyword, code, cid, place, name, source, mode, review, gbp);
            && Get(filled, "keyword") == keyword && Get(filled, "location_code") == code
            && Get(filled, "source") == Get(base, "source")
  {
  }

  lemma FilledIdentity(base: Payload, keyword: Value, code: Value, cid: Value, place: Value, name: Value,
                       source: Value, mode: Value, review: Value, gbp: Value)
    ensures var filled := Filled(base, keyword, code, cid, place, name, source, mode, review, gbp);
            Get(filled, "cid") == cid && Get(filled, "place_id") == place
  {
  }

  lemma FilledNames(base: Payload, keyword: Value, code: Value, cid: Value, place: Value, name: Value,
                    source: Value, mode: Value, review: Value, gbp: Value)
    ensures var filled := Filled(base, keyword, code, cid, place, name, source, mode, review, gbp);
            Get(filled, "business_name") == name && Get(filled, "source_query") == source
  {
  }

  lemma FilledModes(base: Payload, keyword: Value, code: Value, cid: Value, place: Value, name: Value,
                    source: Value, mode: Value, review: Value, gbp: Value)
    ensures var filled := Filled(base, keyword, code, cid, place, name, source, mode, review, gbp);
            && Get(filled, "preferred_identifier_mode") == mode && Get(filled, "review_retrieval_mode") == review
            && Get(filled, "gbp_retrieval_mode") == gbp
  {
  }

  lemma OptionalMeaning(t: Option<string>)
    ensures OptionalValue(t) == TextOrNull(t)
  {
  }

  lemma ProfileFilled(template: CollectionTask, locationCode: int, p: Profile)
    requires template.taskType in {GbpInfo, GoogleReviews}
    ensures ProfilePayload(template, locationCode, p)
         == Filled(template.payload, Text(QueryOf(template.taskType, p)), Number(locationCode),
                   TextOrNull(p.cid), TextOrNull(p.placeId), TextOrNull(p.businessName), TextOrNull(p.sourceQuery),
                   Text(p.identifierMode), if template.taskType == GoogleReviews then Text(p.identifierMode) else Null,
                   if template.taskType == GbpInfo then Text("keyword") else Null)
  {
    OptionalMeaning(p.cid);
    OptionalMeaning(p.placeId);
    OptionalMeaning(p.businessName);
    OptionalMeaning(p.sourceQuery);
    hide OptionalValue, TextOrNull;
  }

  lemma ProfilePayloadMeaning(template: CollectionTask, locationCode: int, p: Profile)
    requires template.taskType in {GbpInfo, GoogleReviews}
    ensures AsksForProfile(ProfilePayload(template, locationCode, p), template.taskType, locationCode, p)
    ensures Get(ProfilePayload(template, locationCode, p), "source") == Get(template.payload, "source")
  {
    hide Get, Filled, ProfilePayload;
    ProfileFilled(template, locationCode, p);
    var base, keyword, code := template.payload, Text(QueryOf(template.taskType, p)), Number(locationCode);
    var cid, place, name, source :=
      TextOrNull(p.cid), TextOrNull(p.placeId), TextOrNull(p.businessName), TextOrNull(p.sourceQuery);
    var mode := Text(p.identifierMode);
    var review := if template.taskType == GoogleReviews then mode else Null;
    var gbp := if template.taskType == GbpInfo then Text("keyword") else Null;
    FilledQuery(base, keyword, code, cid, place, name, source, mode, review, gbp);
    FilledIdentity(base, keyword, code, cid, place, name, source, mode, review, gbp);
    FilledNames(base, keyword, code, cid, place, name, source, mode, review, gbp);
    FilledModes(base, keyword, code, cid, place, name, source, mode, review, gbp);
  }

  lemma ListingsPayloadMeaning(template: CollectionTask, locationCode: int, keyword: Option<string>)
    ensures AsksForListings(ListingsPayload(template, locationCode, keyword), locationCode, keyword)
    ensures Get(ListingsPayload(template, locationCode, keyword), "source") == Get(template.payload, "source")
  {
  }

  // ----- The tasks of one slot -------------------------------------------------------------

  /** The payloads of the metro's tasks of one type, in task order. */
  ghost function PayloadsOf(tasks: seq<CollectionTask>, metroId: string, t: TaskType): seq<Payload> {
    if tasks == [] then []
    else
      PayloadsOf(Front(tasks), metroId, t)
      + if Last(tasks).metroId == metroId && Last(tasks).taskType == t then [Last(tasks).payload] else []
  }

  lemma EmitPayloads(acc: Progress, template: CollectionTask, e: Emission, metroId: string, t: TaskType)
    ensures PayloadsOf(Emit(acc, template, e).tasks, metroId, t)
         == PayloadsOf(acc.tasks, metroId, t)
            + (if SameSlot(template, metroId, t) && !Seen(e.key, acc.seen) then [e.payload] else [])
  {
    hide TaskIds.DependentTaskId;
    var task := ConcreteTask(template, |acc.tasks| + 1, e);
    assert Front(acc.tasks + [task]) == acc.tasks;
  }

  lemma {:induction false} PayloadsOfOthers(
      acc: Progress, template: CollectionTask, es: seq<Emission>, metroId: string, t: TaskType)
    requires !SameSlot(template, metroId, t)
    ensures PayloadsOf(EmitAll(acc, template, es).tasks, metroId, t) == PayloadsOf(acc.tasks, metroId, t)
  {
    hide Emit, PayloadsOf;
    if es != [] {
      PayloadsOfOthers(acc, template, Front(es), metroId, t);
      EmitPayloads(EmitAll(acc, template, Front(es)), template, Last(es), metroId, t);
    }
  }

  /** What a template of a profile or of listings asks for, if anything. */
  function PayloadAsked(ops: TextOps, d: Data, code: int, template: CollectionTask): seq<Payload> {
    if template.taskType == BusinessListings then
      [ListingsPayload(template, code, FirstMapsKeyword(ops, template.metroId, d))]
    else
      match BestMapsProfile(ops, template.metroId, d)
      case None => []
      case Some(p) => [ProfilePayload(template, code, p)]
  }

  predicate ProfileType(t: TaskType) {
    t in {GbpInfo, GoogleReviews, BusinessListings}
  }

  lemma EmissionsAsked(ops: TextOps, plan: Plan, d: Data, code: int, template: CollectionTask)
    requires ProfileType(template.taskType)
    ensures var es, asked := Emissions(ops, plan, d, code, template), PayloadAsked(ops, d, code, template);
            && |es| == |asked| <= 1
            && (es != [] ==> es[0] == Emission(asked[0], template.dedupKey))
  {
    hide ProfilePayload, ListingsPayload, BestMapsProfile, FirstMapsKeyword;
  }

  lemma LastTemplatePayloads(ops: TextOps, plan: Plan, d: Data, code: int, acc: Progress, front: seq<CollectionTask>,
                             last: CollectionTask, metroId: string, t: TaskType)
    requires PlannedTemplates(front + [last]) && KeysFrom(acc.seen, front) && ProfileType(t)
    ensures PayloadsOf(Process(acc, last, Emissions(ops, plan, d, code, last)).tasks, metroId, t)
         == PayloadsOf(acc.tasks, metroId, t)
            + (if SameSlot(last, metroId, t) then PayloadAsked(ops, d, code, last) else [])
  {
    hide Emissions, Emit, KeyOf, PayloadAsked, TemplateKey, PayloadsOf;
    var es := Emissions(ops, plan, d, code, last);
    assert (front + [last])[|front|] == last;
    assert PlannedTemplate(last);
    OwnKey(last.metroId, last.taskType);
    SlotIsFresh(acc.seen, front, last, TemplateKey(last.metroId, last.taskType));
    if SameSlot(last, metroId, t) {
      EmissionsAsked(ops, plan, d, code, last);
      if es != [] {
        assert es == [es[0]];
        SingleEmission(acc, last, es[0]);
        EmitPayloads(acc, last, es[0], metroId, t);
      }
    } else {
      PayloadsOfOthers(acc, last, es, metroId, t);
    }
  }

  /** The metro's template of the type decides what is asked; without one nothing is. */
  ghost predicate AskedBy(
      ops: TextOps, d: Data, code: int, ts: seq<CollectionTask>, metroId: string, t: TaskType, payloads: seq<Payload>)
  {
    && (!Asks(ts, metroId, t) ==> payloads == [])
    && (forall i :: 0 <= i < |ts| && SameSlot(ts[i], metroId, t) ==> payloads == PayloadAsked(ops, d, code, ts[i]))
  }

  lemma AskedBySnoc(ops: TextOps, d: Data, code: int, ts: seq<CollectionTask>, last: CollectionTask,
                    metroId: string, t: TaskType, payloads: seq<Payload>)
    requires PlannedTemplates(ts + [last]) && AskedBy(ops, d, code, ts, metroId, t, payloads)
    ensures AskedBy(ops, d, code, ts + [last], metroId, t,
                    payloads + if SameSlot(last, metroId, t) then PayloadAsked(ops, d, code, last) else [])
  {
    hide PayloadAsked, PlannedTemplates, SameSlot;
    AsksSnoc(ts, last, metroId, t);
    var all := ts + [last];
    assert all[|ts|] == last;
    forall i | 0 <= i < |all| && SameSlot(all[i], metroId, t)
      ensures payloads + (if SameSlot(last, metroId, t) then PayloadAsked(ops, d, code, last) else [])
           == PayloadAsked(ops, d, code, all[i])
    {
      if i < |ts| {
        assert all[i] == ts[i];
        assert Asks(ts, metroId, t);
      } else {
        assert payloads == [];
      }
    }
  }

  lemma NothingAsked(ops: TextOps, d: Data, code: int, metroId: string, t: TaskType)
    ensures AskedBy(ops, d, code, [], metroId, t, PayloadsOf([], metroId, t))
  {
  }

  lemma {:induction false} PlannedPayloads(
      ops: TextOps, plan: Plan, request: CollectionRequest, d: Data, ts: seq<CollectionTask>,
      metroId: string, t: TaskType)
    requires KnowsMetros(request.metros, ts) && PlannedTemplates(ts) && d.seen == {} && ProfileType(t)
    requires ops.DomainsHoldNoColon() && exists m :: m in request.metros && m.metroId == metroId
    ensures KeysFrom(ProcessAll(ops, plan, request, d, ts).seen, ts)
    ensures AskedBy(ops, d, LocationCode(request.metros, metroId), ts, metroId, t,
                    PayloadsOf(ProcessAll(ops, plan, request, d, ts).tasks, metroId, t))
  {
    hide Emissions, KeyOf, PayloadsOf, EmitAll, PlannedTemplate, MayReach, TemplateKey, AskedBy, PayloadAsked, Process;
    if ts == [] {
      NothingAsked(ops, d, LocationCode(request.metros, metroId), metroId, t);
    } else {
      var front, last := Front(ts), Last(ts);
      assert ts == front + [last] && last in ts;
      PlannedPayloads(ops, plan, request, d, front, metroId, t);
      var acc := ProcessAll(ops, plan, request, d, front);
      var code := LocationCode(request.metros, last.metroId);
      ProcessKeysFrom(ops, plan, d, code, acc, front, last);
      LastTemplatePayloads(ops, plan, d, code, acc, front, last, metroId, t);
      AskedBySnoc(ops, d, LocationCode(request.metros, metroId), front, last, metroId, t,
                  PayloadsOf(acc.tasks, metroId, t));
    }
  }

  // ----- A planned run ---------------------------------------------------------------------

  /** The metro's first task for profile data or reviews is there exactly when its maps results hold a
      profile, and asks for the first one. */
  ghost predicate AsksForFirst(ops: TextOps, d: Data, metro: MetroInput, t: TaskType, payloads: seq<Payload>) {
    var found := ProfileCandidates(ops, metro.metroId, d, 3);
    if found == [] then payloads == []
    else |payloads| == 1 && AsksForProfile(payloads[0], t, metro.locationCode, found[0].value)
  }

  /** The metro has exactly one listings task, for the first keyword of its maps rows. */
  ghost predicate AsksForFirstKeyword(ops: TextOps, d: Data, metro: MetroInput, payloads: seq<Payload>) {
    |payloads| == 1
    && exists keyword ::
      && MapsMeaning.IsFirstKeyword(ops, MapsMeaning.RowsOfTasks(d, MapsTaskIds(metro.metroId, d)), keyword)
      && AsksForListings(payloads[0], metro.locationCode, keyword)
  }

  lemma AskedMeaning(ops: TextOps, d: Data, template: CollectionTask, metro: MetroInput, code: int)
    requires ProfileType(template.taskType) && template.metroId == metro.metroId && code == metro.locationCode
    ensures var asked := PayloadAsked(ops, d, code, template);
            && (template.taskType != BusinessListings ==> AsksForFirst(ops, d, metro, template.taskType, asked))
            && (template.taskType == BusinessListings ==> AsksForFirstKeyword(ops, d, metro, asked))
            && (forall p :: p in asked ==> Get(p, "source") == Get(template.payload, "source"))
  {
    hide ProfilePayload, ListingsPayload, AsksForProfile, AsksForListings, ProfileCandidates, FirstMapsKeyword;
    hide MapsMeaning.IsFirstKeyword, MapsMeaning.RowsOfTasks, MapsTaskIds, BestMapsProfile, Get;
    if template.taskType == BusinessListings {
      MapsMeaning.FirstMapsKeywordMeaning(ops, metro.metroId, d);
      ListingsPayloadMeaning(template, code, FirstMapsKeyword(ops, metro.metroId, d));
    } else {
      BestProfileIsFirstCandidate(ops, metro.metroId, d);
      var best := BestMapsProfile(ops, metro.metroId, d);
      if best.Some? {
        ProfilePayloadMeaning(template, code, best.value);
      }
    }
  }

  /** The planner gave the metro a template of the type. */
  lemma TemplateExists(request: CollectionRequest, metro: MetroInput, t: TaskType) returns (i: nat)
    requires DistinctMetroIds(request.metros) && metro in request.metros
    requires t in PlanPayloads.WantedTemplates(request.profile, SerpKeywords(request) != [])
    ensures i < |PlanOf(request).dependentTemplates|
    ensures SameSlot(PlanOf(request).dependentTemplates[i], metro.metroId, t)
  {
    hide PlanOf, SerpKeywords, PlanPayloads.WantedTemplates;
    PlanPayloads.PlanTemplateTypes(request, metro);
    var template := InFlat(PlanPayloads.TypeOf(metro.metroId), PlanOf(request).dependentTemplates, t);
    i :| 0 <= i < |PlanOf(request).dependentTemplates| && PlanOf(request).dependentTemplates[i] == template;
  }

  lemma PlannedWhenSafe(request: CollectionRequest)
    requires TargetsAreSafe(request) && DistinctMetroIds(request.metros) && SerpKeywords(request) != []
    ensures PlannedTemplates(PlanOf(request).dependentTemplates)
  {
    hide PlannedTemplates, Apart, SerpKeywords;
    TemplatesPlanned(request, request.metros);
  }

  /** In a run whose targets are safe each metro with SERP keywords gets exactly one listings task, for
      the first keyword its maps rows hold; and one task for profile data, in a full run also one for
      reviews, exactly when its maps results hold a profile, for the first one found. */
  lemma PlannedRunProfiles(ops: TextOps, request: CollectionRequest, d: Data, metro: MetroInput, t: TaskType)
    requires TargetsAreSafe(request) && DistinctMetroIds(request.metros) && metro in request.metros
    requires d.seen == {} && ops.DomainsHoldNoColon() && SerpKeywords(request) != []
    requires t in {GbpInfo, BusinessListings} || (t == GoogleReviews && request.profile == Full)
    ensures KnowsMetros(request.metros, PlanOf(request).dependentTemplates)
    ensures var payloads := PayloadsOf(Materialized(ops, PlanOf(request), request, d).tasks, metro.metroId, t);
            && (t != BusinessListings ==> AsksForFirst(ops, d, metro, t, payloads))
            && (t == BusinessListings ==> AsksForFirstKeyword(ops, d, metro, payloads))
  {
    hide SerpKeywords, PlannedTemplates, AsksForFirst, AsksForFirstKeyword, PayloadAsked, PlanOf, PayloadsOf, Apart;
    hide DistinctMetroIds, ProcessAll, Asks, KeysFrom;
    var ts := PlanOf(request).dependentTemplates;
    PlanKnowsMetros(request);
    PlannedWhenSafe(request);
    OwnLocationCode(request.metros, metro);
    PlannedPayloads(ops, PlanOf(request), request, d, ts, metro.metroId, t);
    var i := TemplateExists(request, metro, t);
    AskedMeaning(ops, d, ts[i], metro, metro.locationCode);
  }
}
