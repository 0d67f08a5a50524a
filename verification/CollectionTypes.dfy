/** Tasks, requests and provider outcomes of one collection run, and the validation that
    turns raw keyword and metro descriptors into a request. */
module CollectionTypes {
  import opened Containers

  datatype TaskType =
    | KeywordVolume
    | SerpOrganic
    | SerpMaps
    | BusinessListings
    | GoogleReviews
    | GbpInfo
    | Backlinks
    | Lighthouse

  /** The spelling of a task type inside identifiers and dedup keys. */
  function TypeName(t: TaskType): string {
    match t
    case KeywordVolume => "keyword_volume"
    case SerpOrganic => "serp_organic"
    case SerpMaps => "serp_maps"
    case BusinessListings => "business_listings"
    case GoogleReviews => "google_reviews"
    case GbpInfo => "gbp_info"
    case Backlinks => "backlinks"
    case Lighthouse => "lighthouse"
  }

  /** A scalar or list of strings found in a payload or in a provider row. */
  datatype Value = Null | Text(text: string) | Number(number: int) | Texts(texts: seq<string>)

  type Payload = map<string, Value>
  type Item = map<string, Value>

  /** One provider result row: its scalar fields and its ranked items. */
  datatype Row = Row(fields: map<string, Value>, items: seq<Item>)

  /** Python's dict.get: a missing key reads as None. */
  function Get(m: map<string, Value>, k: string): Value {
    if k in m then m[k] else Null
  }

  predicate Truthy(v: Value) {
    match v
    case Null => false
    case Text(s) => s != ""
    case Number(n) => n != 0
    case Texts(ts) => ts != []
  }

  datatype CollectionTask = CollectionTask(
    taskId: string,
    metroId: string,
    taskType: TaskType,
    payload: Payload,
    dependsOn: seq<string>,
    dedupKey: Option<string>)

  datatype FailureRecord = FailureRecord(
    taskId: string,
    taskType: TaskType,
    metroId: string,
    message: string,
    isRetryable: bool)

  /** A cleaned descriptor: stripped, with the intent in lower case. */
  datatype KeywordDescriptor = KeywordDescriptor(keyword: string, tier: int, intent: string)
  {
    predicate IsSerpEligible() {
      tier in {1, 2} && intent in {"transactional", "commercial"}
    }
  }

  datatype MetroInput = MetroInput(metroId: string, locationCode: int, principalCity: Option<string>)

  datatype CollectionProfile = Interactive | Full

  datatype CollectionRequest = CollectionRequest(
    keywords: seq<KeywordDescriptor>,
    metros: seq<MetroInput>,
    profile: CollectionProfile)

  predicate ValidKeyword(k: KeywordDescriptor) {
    k.keyword != "" && k.intent != "" && k.tier > 0
  }

  predicate ValidMetro(m: MetroInput) {
    m.metroId != "" && m.locationCode > 0
  }

  ghost predicate DistinctMetroIds(metros: seq<MetroInput>) {
    forall i, j :: 0 <= i < j < |metros| ==> metros[i].metroId != metros[j].metroId
  }

  ghost predicate ValidRequest(r: CollectionRequest) {
    && r.keywords != [] && r.metros != []
    && (forall k :: k in r.keywords ==> ValidKeyword(k))
    && (forall m :: m in r.metros ==> ValidMetro(m))
    && DistinctMetroIds(r.metros)
  }

  // ----- Raw descriptors -------------------------------------------------------------------

  /** A keyword descriptor as given: missing texts read as empty, and number is what int() makes of the
      tier, None if it raises. */
  datatype RawKeyword = RawKeyword(keyword: string, intent: string, tier: Option<int>)

  datatype RawMetro = RawMetro(metroId: string, locationCode: Option<int>, principalCity: Option<string>)

  /** Stripping and lower-casing, left uninterpreted. */
  datatype Cleaning = Cleaning(strip: string -> string, lower: string -> string)

  function CleanKeyword(c: Cleaning, k: RawKeyword): Option<KeywordDescriptor> {
    match k.tier
    case None => None
    case Some(tier) => Some(KeywordDescriptor(c.strip(k.keyword), tier, c.lower(c.strip(k.intent))))
  }

  function CleanMetro(c: Cleaning, m: RawMetro): Option<MetroInput> {
    match m.locationCode
    case None => None
    case Some(code) => Some(MetroInput(c.strip(m.metroId), code, m.principalCity))
  }

  function ProfileNamed(profile: string): Option<CollectionProfile> {
    if profile == "interactive" then Some(Interactive) else if profile == "full" then Some(Full) else None
  }

  lemma ProfileNames(profile: string)
    ensures ProfileNamed(profile) == Some(Full) <==> profile == "full"
    ensures ProfileNamed(profile) == Some(Interactive) <==> profile == "interactive"
  {
  }

  /** r is a valid request, and what cleaning makes of the descriptors and the profile. */
  ghost predicate Builds(
    c: Cleaning, keywords: seq<RawKeyword>, metros: seq<RawMetro>, profile: string, r: CollectionRequest)
  {
    && ValidRequest(r) && profile == (if r.profile == Full then "full" else "interactive")
    && |r.keywords| == |keywords|
    && (forall i :: 0 <= i < |keywords| ==> CleanKeyword(c, keywords[i]) == Some(r.keywords[i]))
    && |r.metros| == |metros| && (forall i :: 0 <= i < |metros| ==> CleanMetro(c, metros[i]) == Some(r.metros[i]))
  }

  /** The keyword loop: raises at the first descriptor that cannot be cleaned or is not valid. */
  method BuildKeywords(c: Cleaning, keywords: seq<RawKeyword>) returns (r: Result<seq<KeywordDescriptor>>)
    ensures r.Ok? <==> forall i :: 0 <= i < |keywords| ==>
        CleanKeyword(c, keywords[i]).Some? && ValidKeyword(CleanKeyword(c, keywords[i]).value)
    ensures r.Ok? ==> |r.value| == |keywords| && forall i :: 0 <= i < |keywords| ==>
        CleanKeyword(c, keywords[i]) == Some(r.value[i])
  {
    var models: seq<KeywordDescriptor> := [];
    for i := 0 to |keywords|
      invariant |models| == i
      invariant forall j :: 0 <= j < i ==> CleanKeyword(c, keywords[j]) == Some(models[j]) && ValidKeyword(models[j])
    {
      var keyword := c.strip(keywords[i].keyword);
      var intent := c.lower(c.strip(keywords[i].intent));
      if keywords[i].tier.None? { return Raised("tier is not an integer"); }
      var tier := keywords[i].tier.value;
      if keyword == "" { return Raised("keyword must be non-empty"); }
      if intent == "" { return Raised("intent is required for each keyword"); }
      if tier <= 0 { return Raised("tier must be > 0"); }
      models := models + [KeywordDescriptor(keyword, tier, intent)];
    }
    r := Ok(models);
  }

  ghost predicate CleanMetros(c: Cleaning, metros: seq<RawMetro>, models: seq<MetroInput>) {
    && |models| == |metros| && DistinctMetroIds(models)
    && forall i :: 0 <= i < |metros| ==> CleanMetro(c, metros[i]) == Some(models[i]) && ValidMetro(models[i])
  }

  lemma NoCleanMetros(c: Cleaning, metros: seq<RawMetro>, i: nat)
    requires i < |metros| && (CleanMetro(c, metros[i]).None? || !ValidMetro(CleanMetro(c, metros[i]).value))
    ensures forall models :: !CleanMetros(c, metros, models)
  {
  }

  /** In a list that can be cleaned, no metro repeats the id of one before it. */
  lemma NoRepeatedMetro(c: Cleaning, metros: seq<RawMetro>, before: seq<MetroInput>, models: seq<MetroInput>, i: nat)
    requires i < |metros| && CleanMetros(c, metros[..i], before) && CleanMetros(c, metros, models)
    ensures forall m :: m in before ==> m.metroId != c.strip(metros[i].metroId)
  {
    forall j | 0 <= j < i ensures before[j] == models[j] {
      assert metros[..i][j] == metros[j];
    }
  }

  /** The metro loop: raises at the first descriptor that repeats an id, cannot be cleaned or is not valid. */
  method BuildMetros(c: Cleaning, metros: seq<RawMetro>) returns (r: Result<seq<MetroInput>>)
    ensures r.Ok? <==> exists models :: CleanMetros(c, metros, models)
    ensures r.Ok? ==> CleanMetros(c, metros, r.value)
  {
    var models: seq<MetroInput> := [];
    var seenMetros: set<string> := {};
    for i := 0 to |metros|
      invariant CleanMetros(c, metros[..i], models)
      invariant seenMetros == set m | m in models :: m.metroId
    {
      var metroId := c.strip(metros[i].metroId);
      if metroId == "" {
        NoCleanMetros(c, metros, i);
        return Raised("metro_id is required for each metro");
      }
      if metroId in seenMetros {
        forall others ensures !CleanMetros(c, metros, others) {
          if CleanMetros(c, metros, others) {
            NoRepeatedMetro(c, metros, models, others, i);
          }
        }
        return Raised("duplicate metro_id found: " + metroId);
      }
      seenMetros := seenMetros + {metroId};
      if metros[i].locationCode.None? || metros[i].locationCode.value <= 0 {
        NoCleanMetros(c, metros, i);
        return Raised("location_code must be > 0 for metro " + metroId);
      }
      var model := MetroInput(metroId, metros[i].locationCode.value, metros[i].principalCity);
      assert forall j :: 0 <= j < i ==> metros[..i + 1][j] == metros[..i][j];
      models := models + [model];
    }
    assert metros[..|metros|] == metros;
    r := Ok(models);
  }

  lemma BuiltKeywords(
      c: Cleaning, keywords: seq<RawKeyword>, metros: seq<RawMetro>, profile: string, r: CollectionRequest)
    requires Builds(c, keywords, metros, profile, r)
    ensures forall i :: 0 <= i < |keywords| ==>
        CleanKeyword(c, keywords[i]).Some? && ValidKeyword(CleanKeyword(c, keywords[i]).value)
  {
    hide CleanKeyword, CleanMetro, ValidKeyword;
    forall i | 0 <= i < |keywords|
      ensures CleanKeyword(c, keywords[i]).Some? && ValidKeyword(CleanKeyword(c, keywords[i]).value)
    {
      assert r.keywords[i] in r.keywords;
    }
  }

  lemma BuiltMetros(
      c: Cleaning, keywords: seq<RawKeyword>, metros: seq<RawMetro>, profile: string, r: CollectionRequest)
    requires Builds(c, keywords, metros, profile, r)
    ensures CleanMetros(c, metros, r.metros)
  {
    hide CleanKeyword, CleanMetro, ValidMetro;
    forall i | 0 <= i < |metros| ensures ValidMetro(r.metros[i]) {
      assert r.metros[i] in r.metros;
    }
  }

  lemma BuiltRequest(c: Cleaning, keywords: seq<RawKeyword>, metros: seq<RawMetro>, profile: string,
                     ks: seq<KeywordDescriptor>, ms: seq<MetroInput>)
    requires keywords != [] && metros != [] && ProfileNamed(profile).Some? && CleanMetros(c, metros, ms)
    requires |ks| == |keywords| && forall i :: 0 <= i < |keywords| ==>
        CleanKeyword(c, keywords[i]) == Some(ks[i]) && ValidKeyword(ks[i])
    ensures Builds(c, keywords, metros, profile, CollectionRequest(ks, ms, ProfileNamed(profile).value))
  {
    ProfileNames(profile);
    hide CleanKeyword, CleanMetro, ValidKeyword, ValidMetro, ProfileNamed;
  }

  /** Succeeds exactly when some valid request is what cleaning makes of the input, and returns it. */
  method BuildCollectionRequest(c: Cleaning, keywords: seq<RawKeyword>, metros: seq<RawMetro>, profile: string)
    returns (r: Result<CollectionRequest>)
    ensures r.Ok? <==> exists request :: Builds(c, keywords, metros, profile, request)
    ensures r.Ok? ==> Builds(c, keywords, metros, profile, r.value)
  {
    hide CleanKeyword, CleanMetro, ProfileNamed, ValidKeyword, ValidMetro, DistinctMetroIds;
    if keywords == [] { return Raised("keywords must be non-empty"); }
    if metros == [] { return Raised("metros must be non-empty"); }
    ProfileNames(profile);
    if ProfileNamed(profile).None? { return Raised("collection_profile must be interactive or full"); }
    var ks := BuildKeywords(c, keywords);
    if ks.Raised? {
      forall request ensures !Builds(c, keywords, metros, profile, request) {
        if Builds(c, keywords, metros, profile, request) {
          BuiltKeywords(c, keywords, metros, profile, request);
        }
      }
      return Raised(ks.error);
    }
    var ms := BuildMetros(c, metros);
    if ms.Raised? {
      forall request ensures !Builds(c, keywords, metros, profile, request) {
        if Builds(c, keywords, metros, profile, request) {
          BuiltMetros(c, keywords, metros, profile, request);
        }
      }
      return Raised(ms.error);
    }
    BuiltRequest(c, keywords, metros, profile, ks.value, ms.value);
    r := Ok(CollectionRequest(ks.value, ms.value, ProfileNamed(profile).value));
  }
}
