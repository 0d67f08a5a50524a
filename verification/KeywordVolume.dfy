/** Collecting keyword volume over several location codes: every keyword keeps the best volume
    and click price seen for it. */
module KeywordVolume {
  import opened Containers

  datatype FailureReason = InvalidKeywordVolumeCode | TaskQueueTimeout | KeywordVolumeEmpty

  /** What the text of an error response mentions. */
  datatype ErrorText = ErrorText(invalidField: bool, locationCode: bool, taskInQueue: bool, queueTimeout: bool)

  function ClassifyFailure(error: ErrorText): FailureReason {
    if error.invalidField && error.locationCode then InvalidKeywordVolumeCode
    else if error.taskInQueue || error.queueTimeout then TaskQueueTimeout
    else KeywordVolumeEmpty
  }

  /** An item of a response: a row, or something that is not an object. */
  datatype Item =
    | NotAnObject
    | Row(keyword: Option<string>, volume: Option<int>, cpc: Option<real>)

  datatype Response = Failed(error: ErrorText) | Success(items: seq<Item>)

  /** One call: the location code it was made for and how it was answered. */
  datatype Attempt = Attempt(code: int, response: Response)

  /** What is stored for a keyword. */
  datatype Volume = Volume(searchVolume: Option<int>, cpc: Option<real>)

  // ----- Usable rows -----------------------------------------------------------------------

  /** A row that counts, with its keyword in lower case. */
  datatype Sample = Sample(keyword: string, volume: Option<int>, cpc: Option<real>)

  function KeywordOf(item: Item, lower: string -> string): string
    requires item.Row?
  {
    if item.keyword.None? then lower("") else lower(item.keyword.value)
  }

  /** A row counts when it names a keyword and has a volume or a click price. */
  function SampleOf(item: Item, lower: string -> string): seq<Sample> {
    if item.NotAnObject? || KeywordOf(item, lower) == "" || (item.volume.None? && item.cpc.None?) then []
    else [Sample(KeywordOf(item, lower), item.volume, item.cpc)]
  }

  function SamplesOfItems(items: seq<Item>, lower: string -> string): seq<Sample> {
    if items == [] then [] else SamplesOfItems(Front(items), lower) + SampleOf(Last(items), lower)
  }

  function SamplesOf(lower: string -> string): Attempt -> seq<Sample> {
    (a: Attempt) => if a.response.Failed? then [] else SamplesOfItems(a.response.items, lower)
  }

  /** All rows that count, in the order the calls returned them. */
  function Samples(attempts: seq<Attempt>, lower: string -> string): seq<Sample> {
    Flat(SamplesOf(lower), attempts)
  }

  function ForKeyword(keyword: string): Sample -> bool {
    (s: Sample) => s.keyword == keyword
  }

  // ----- What is stored for one keyword ----------------------------------------------------

  /** The highest volume above zero. */
  ghost predicate PeakVolume(v: Option<int>, samples: seq<Sample>) {
    && (v.Some? ==> v.value > 0 && exists s :: s in samples && s.volume == v)
    && (forall s :: s in samples && s.volume.Some? && s.volume.value > 0 ==> v.Some? && s.volume.value <= v.value)
  }

  predicate IsPositive(s: Sample) {
    s.cpc.Some? && s.cpc.value > 0.0
  }

  ghost predicate HasPositivePrice(samples: seq<Sample>) {
    exists s :: s in samples && IsPositive(s)
  }

  predicate IsNegative(s: Sample) {
    s.cpc.Some? && s.cpc.value < 0.0
  }

  /** The highest click price if any is above zero; else zero after a negative price on the last
      row, and nothing otherwise. */
  ghost predicate PeakPrice(v: Option<real>, samples: seq<Sample>) {
    if HasPositivePrice(samples) then
      && v.Some?
      && (exists s :: s in samples && s.cpc == v)
      && (forall s :: s in samples && s.cpc.Some? ==> s.cpc.value <= v.value)
    else
      v == if samples != [] && IsNegative(Last(samples)) then Some(0.0) else None
  }

  ghost predicate Summarises(v: Volume, samples: seq<Sample>) {
    PeakVolume(v.searchVolume, samples) && PeakPrice(v.cpc, samples)
  }

  function Unseen(): Volume {
    Volume(None, None)
  }

  function OrZero(x: Option<real>): real {
    if x.Some? then x.value else 0.0
  }

  /** The stored value of a keyword after one more row. */
  function Updated(existing: Volume, volume: Option<int>, cpc: Option<real>): Volume {
    var existingVolume := if existing.searchVolume.Some? then existing.searchVolume.value else 0;
    var newVolume := if volume.Some? && volume.value > existingVolume then volume.value else existingVolume;
    var price, existingPrice := OrZero(cpc), OrZero(existing.cpc);
    Volume(
      if newVolume == 0 then None else Some(newVolume),
      if price == 0.0 && existingPrice == 0.0 then None
      else Some(if price >= existingPrice then price else existingPrice))
  }

  lemma PeakVolumeStep(v: Volume, samples: seq<Sample>, s: Sample)
    requires PeakVolume(v.searchVolume, samples)
    ensures PeakVolume(Updated(v, s.volume, s.cpc).searchVolume, samples + [s])
  {
    forall t ensures t in samples + [s] <==> t in samples || t == s { }
  }

  lemma PositivePriceStep(samples: seq<Sample>, s: Sample)
    ensures HasPositivePrice(samples + [s]) <==> HasPositivePrice(samples) || IsPositive(s)
  {
    forall t ensures t in samples + [s] <==> t in samples || t == s { }
  }

  lemma PeakPriceStep(v: Volume, samples: seq<Sample>, s: Sample)
    requires PeakPrice(v.cpc, samples)
    ensures PeakPrice(Updated(v, s.volume, s.cpc).cpc, samples + [s])
  {
    PositivePriceStep(samples, s);
    forall t ensures t in samples + [s] <==> t in samples || t == s { }
    assert Last(samples + [s]) == s;
    var price := Updated(v, s.volume, s.cpc).cpc;
    if IsPositive(s) && !HasPositivePrice(samples) {
      assert price == s.cpc;
    } else if HasPositivePrice(samples) {
      assert v.cpc.value > 0.0;
      assert price == v.cpc || price == s.cpc;
    }
  }

  /** Updating with one more row keeps the stored value the summary of the rows so far. */
  lemma UpdateSummarises(v: Volume, samples: seq<Sample>, s: Sample)
    requires Summarises(v, samples)
    ensures Summarises(Updated(v, s.volume, s.cpc), samples + [s])
  {
    PeakVolumeStep(v, samples, s);
    PeakPriceStep(v, samples, s);
  }

  // ----- The collection --------------------------------------------------------------------

  /** The stored map holds the summary of every keyword that has a row, and nothing else. */
  ghost predicate Records(volumes: map<string, Volume>, samples: seq<Sample>) {
    forall k: string ::
      && (k in volumes <==> Filter(ForKeyword(k), samples) != [])
      && (k in volumes ==> Summarises(volumes[k], Filter(ForKeyword(k), samples)))
  }

  lemma UnseenSummarises()
    ensures Summarises(Unseen(), [])
  {
  }

  lemma RecordStep(volumes: map<string, Volume>, samples: seq<Sample>, s: Sample)
    requires Records(volumes, samples)
    ensures var existing := if s.keyword in volumes then volumes[s.keyword] else Unseen();
      Records(volumes[s.keyword := Updated(existing, s.volume, s.cpc)], samples + [s])
  {
    hide Summarises, Filter, Updated;
    var existing := if s.keyword in volumes then volumes[s.keyword] else Unseen();
    UnseenSummarises();
    UpdateSummarises(existing, Filter(ForKeyword(s.keyword), samples), s);
    var after := volumes[s.keyword := Updated(existing, s.volume, s.cpc)];
    forall k: string ensures
      && (k in after <==> Filter(ForKeyword(k), samples + [s]) != [])
      && (k in after ==> Summarises(after[k], Filter(ForKeyword(k), samples + [s])))
    {
      FilterSnoc(ForKeyword(k), samples, s);
      var mine := Filter(ForKeyword(k), samples);
      if k != s.keyword {
        assert mine + [] == mine;
      } else {
        assert Filter(ForKeyword(k), samples + [s]) == mine + [s];
      }
    }
  }

  lemma NothingRecorded()
    ensures Records(map[], [])
  {
  }

  datatype Failure = Failure(code: int, reason: FailureReason)

  function ValidCode(lower: string -> string): Attempt -> seq<int> {
    (a: Attempt) => if SamplesOf(lower)(a) != [] then [a.code] else []
  }

  function FailureOf(lower: string -> string): Attempt -> seq<Failure> {
    (a: Attempt) =>
      if SamplesOf(lower)(a) != [] then []
      else [Failure(a.code, if a.response.Failed? then ClassifyFailure(a.response.error) else KeywordVolumeEmpty)]
  }

  lemma NoSamples(lower: string -> string)
    ensures SamplesOfItems([], lower) == []
  {
  }

  lemma SamplesSnoc(items: seq<Item>, i: nat, lower: string -> string)
    requires i < |items|
    ensures SamplesOfItems(items[..i + 1], lower) == SamplesOfItems(items[..i], lower) + SampleOf(items[i], lower)
  {
    assert Front(items[..i + 1]) == items[..i];
  }

  /** The rows of one response, on top of the rows before it. */
  method CollectRows(items: seq<Item>, lower: string -> string, volumes: map<string, Volume>, ghost before: seq<Sample>)
    returns (volumeByKeyword: map<string, Volume>, usable: bool)
    requires Records(volumes, before)
    ensures Records(volumeByKeyword, before + SamplesOfItems(items, lower))
    ensures usable <==> SamplesOfItems(items, lower) != []
  {
    hide Records, Filter, Updated, SamplesOfItems;
    NoSamples(lower);
    volumeByKeyword, usable := volumes, false;
    assert before + [] == before;
    for i := 0 to |items|
      invariant Records(volumeByKeyword, before + SamplesOfItems(items[..i], lower))
      invariant usable <==> SamplesOfItems(items[..i], lower) != []
    {
      var item := items[i];
      SamplesSnoc(items, i, lower);
      ghost var sofar := before + SamplesOfItems(items[..i], lower);
      assert before + SamplesOfItems(items[..i + 1], lower) == sofar + SampleOf(item, lower);
      assert sofar + [] == sofar;
      if item.NotAnObject? {
        continue;
      }
      var keyword := KeywordOf(item, lower);
      if keyword == "" || (item.volume.None? && item.cpc.None?) {
        continue;
      }
      usable := true;
      var existing := if keyword in volumeByKeyword then volumeByKeyword[keyword] else Unseen();
      RecordStep(volumeByKeyword, sofar, Sample(keyword, item.volume, item.cpc));
      volumeByKeyword := volumeByKeyword[keyword := Updated(existing, item.volume, item.cpc)];
    }
    assert items[..|items|] == items;
  }

  // ----- The rows and attempts behind the result -------------------------------------------

  /** The rows of keyword k: objects with that keyword in lower case and a volume or a price. */
  function CountsFor(lower: string -> string, k: string): Item -> bool {
    (item: Item) =>
      match item
      case NotAnObject => false
      case Row(keyword, volume, cpc) =>
        && k != "" && k == lower(match keyword { case Some(w) => w case None => "" })
        && (volume != None || cpc != None)
  }

  /** The items of the calls that succeeded, in the order the calls were made. */
  ghost function AllItems(attempts: seq<Attempt>): seq<Item> {
    if attempts == [] then []
    else AllItems(Front(attempts)) + match Last(attempts).response { case Failed(_) => [] case Success(items) => items }
  }

  ghost function ReadAs(k: string, rows: seq<Item>): seq<Sample> {
    seq(|rows|, i requires 0 <= i < |rows| => match rows[i]
                                              case NotAnObject => Sample(k, None, None)
                                              case Row(_, volume, cpc) => Sample(k, volume, cpc))
  }

  ghost predicate StoredFor(
      volumes: map<string, Volume>, items: seq<Item>, lower: string -> string, k: string, rows: seq<Item>,
      positions: seq<int>)
  {
    && PicksAll(CountsFor(lower, k), items, rows, positions)
    && (k in volumes <==> rows != [])
    && (k in volumes ==> Summarises(volumes[k], ReadAs(k, rows)))
  }

  ghost predicate StoresKeyword(volumes: map<string, Volume>, items: seq<Item>, lower: string -> string, k: string) {
    exists rows, positions :: StoredFor(volumes, items, lower, k, rows, positions)
  }

  /** Every keyword that has a row is stored with the summary of its rows, in order, and nothing else is. */
  ghost predicate StoresRows(volumes: map<string, Volume>, items: seq<Item>, lower: string -> string) {
    forall k: string :: StoresKeyword(volumes, items, lower, k)
  }

  lemma SampleCountsFor(item: Item, lower: string -> string, k: string)
    ensures CountsFor(lower, k)(item) <==> SampleOf(item, lower) != [] && SampleOf(item, lower)[0].keyword == k
  {
  }

  lemma FilterOne<T>(p: T -> bool, x: T)
    ensures Filter(p, [x]) == if p(x) then [x] else []
  {
    FilterSnoc(p, [], x);
    assert [] + [x] == [x];
  }

  lemma ItemSample(item: Item, lower: string -> string, k: string)
    ensures Filter(ForKeyword(k), SampleOf(item, lower))
         == ReadAs(k, if CountsFor(lower, k)(item) then [item] else [])
  {
    var one := SampleOf(item, lower);
    if one != [] {
      var sample := one[0];
      assert one == [sample];
      SampleCountsFor(item, lower, k);
      FilterOne(ForKeyword(k), sample);
      hide SampleOf, CountsFor, Filter;
    } else {
      SampleCountsFor(item, lower, k);
      hide SampleOf, CountsFor;
    }
  }

  lemma ReadConcat(k: string, xs: seq<Item>, ys: seq<Item>)
    ensures ReadAs(k, xs + ys) == ReadAs(k, xs) + ReadAs(k, ys)
  {
  }

  lemma {:induction false} ItemSamples(items: seq<Item>, lower: string -> string, k: string)
    ensures Filter(ForKeyword(k), SamplesOfItems(items, lower)) == ReadAs(k, Filter(CountsFor(lower, k), items))
  {
    if items != [] {
      var front, last := Front(items), Last(items);
      assert items == front + [last];
      ItemSamples(front, lower, k);
      ItemSample(last, lower, k);
      FilterConcat(ForKeyword(k), SamplesOfItems(front, lower), SampleOf(last, lower));
      FilterSnoc(CountsFor(lower, k), front, last);
      hide ReadAs, SampleOf, ForKeyword, CountsFor, Filter;
      ReadConcat(k, Filter(CountsFor(lower, k), front), if CountsFor(lower, k)(last) then [last] else []);
    }
  }

  lemma NoSamplesFor(lower: string -> string, k: string)
    ensures Filter(ForKeyword(k), Samples([], lower)) == ReadAs(k, Filter(CountsFor(lower, k), []))
  {
  }

  /** The samples of a keyword are those of its rows. */
  lemma {:induction false} SamplesAreRows(attempts: seq<Attempt>, lower: string -> string, k: string)
    ensures Filter(ForKeyword(k), Samples(attempts, lower))
        == ReadAs(k, Filter(CountsFor(lower, k), AllItems(attempts)))
  {
    hide ReadAs, SamplesOfItems, ForKeyword, CountsFor, Filter;
    if attempts == [] {
      NoSamplesFor(lower, k);
    } else {
      var front, last := Front(attempts), Last(attempts);
      var items := match last.response { case Failed(_) => [] case Success(items) => items };
      SamplesAreRows(front, lower, k);
      NoSamples(lower);
      assert SamplesOf(lower)(last) == SamplesOfItems(items, lower);
      ItemSamples(items, lower, k);
      FilterConcat(ForKeyword(k), Samples(front, lower), SamplesOfItems(items, lower));
      FilterConcat(CountsFor(lower, k), AllItems(front), items);
      ReadConcat(k, Filter(CountsFor(lower, k), AllItems(front)), Filter(CountsFor(lower, k), items));
    }
  }

  lemma RecordsAreRows(volumes: map<string, Volume>, attempts: seq<Attempt>, lower: string -> string)
    requires Records(volumes, Samples(attempts, lower))
    ensures StoresRows(volumes, AllItems(attempts), lower)
  {
    hide Summarises, PicksAll, Filter, AllItems, Samples, CountsFor;
    forall k: string ensures StoresKeyword(volumes, AllItems(attempts), lower, k) {
      SamplesAreRows(attempts, lower, k);
      var positions := FilterPicksAll(CountsFor(lower, k), AllItems(attempts));
      assert StoredFor(volumes, AllItems(attempts), lower, k, Filter(CountsFor(lower, k), AllItems(attempts)),
          positions);
    }
  }

  /** The call succeeded and some item of it is a row of some keyword. */
  ghost predicate IsUsable(lower: string -> string, a: Attempt) {
    && a.response.Success?
    && exists i, k :: 0 <= i < |a.response.items| && CountsFor(lower, k)(a.response.items[i])
  }

  ghost function Usable(lower: string -> string): Attempt -> bool {
    a => IsUsable(lower, a)
  }

  ghost function Unusable(lower: string -> string): Attempt -> bool {
    a => !IsUsable(lower, a)
  }

  /** Why a code failed: a location code the provider rejects, a queue that was too slow, or no rows. */
  ghost function ReasonFor(response: Response): FailureReason {
    match response
    case Success(_) => KeywordVolumeEmpty
    case Failed(ErrorText(field, code, queue, timeout)) =>
      if field && code then InvalidKeywordVolumeCode
      else if queue || timeout then TaskQueueTimeout
      else KeywordVolumeEmpty
  }

  ghost predicate SortedInto(
      attempts: seq<Attempt>, lower: string -> string, validCodes: seq<int>, failures: seq<Failure>,
      valid: seq<Attempt>, at: seq<int>, failed: seq<Attempt>, failedAt: seq<int>)
  {
    && PicksAll(Usable(lower), attempts, valid, at) && PicksAll(Unusable(lower), attempts, failed, failedAt)
    && |validCodes| == |valid| && |failures| == |failed|
    && (forall i :: 0 <= i < |valid| ==> validCodes[i] == valid[i].code)
    && (forall i :: 0 <= i < |failed| ==> failures[i] == Failure(failed[i].code, ReasonFor(failed[i].response)))
  }

  /** The codes of the usable calls are valid, and those of the others failed with their reason, each list
      in the order of the calls. */
  ghost predicate SortsCodes(
      attempts: seq<Attempt>, lower: string -> string, validCodes: seq<int>, failures: seq<Failure>)
  {
    exists valid, at, failed, failedAt ::
      SortedInto(attempts, lower, validCodes, failures, valid, at, failed, failedAt)
  }

  lemma SampleCounts(item: Item, lower: string -> string)
    ensures SampleOf(item, lower) != [] <==> exists k :: CountsFor(lower, k)(item)
  {
    if SampleOf(item, lower) != [] {
      assert CountsFor(lower, KeywordOf(item, lower))(item);
    }
  }

  lemma {:induction false} SamplesExist(items: seq<Item>, lower: string -> string)
    ensures SamplesOfItems(items, lower) != [] <==>
      exists i, k :: 0 <= i < |items| && CountsFor(lower, k)(items[i])
  {
    hide SampleOf, CountsFor;
    if items != [] {
      var front, last := Front(items), Last(items);
      SamplesExist(front, lower);
      SampleCounts(last, lower);
      assert forall i :: 0 <= i < |front| ==> items[i] == front[i];
      assert items[|front|] == last;
    }
  }

  lemma UsableMeaning(lower: string -> string, a: Attempt)
    ensures SamplesOf(lower)(a) != [] <==> IsUsable(lower, a)
  {
    hide CountsFor, SamplesOfItems;
    if a.response.Success? {
      SamplesExist(a.response.items, lower);
    }
  }

  lemma CodesAreSorted(attempts: seq<Attempt>, lower: string -> string)
    ensures SortsCodes(attempts, lower, Flat(ValidCode(lower), attempts), Flat(FailureOf(lower), attempts))
  {
    hide SamplesOf, IsUsable, PicksAll, Flat, Filter;
    forall a: Attempt ensures SamplesOf(lower)(a) != [] <==> IsUsable(lower, a) {
      UsableMeaning(lower, a);
    }
    FlatIsFilter(ValidCode(lower), Usable(lower), (a: Attempt) => a.code, attempts);
    FlatIsFilter(FailureOf(lower), Unusable(lower), (a: Attempt) => Failure(a.code, ReasonFor(a.response)), attempts);
    var at := FilterPicksAll(Usable(lower), attempts);
    var failedAt := FilterPicksAll(Unusable(lower), attempts);
    assert SortedInto(
      attempts, lower, Flat(ValidCode(lower), attempts), Flat(FailureOf(lower), attempts),
      Filter(Usable(lower), attempts), at, Filter(Unusable(lower), attempts), failedAt);
  }

  method CollectKeywordVolume(attempts: seq<Attempt>, lower: string -> string)
    returns (volumeByKeyword: map<string, Volume>, validCodes: seq<int>, failures: seq<Failure>)
    ensures Records(volumeByKeyword, Samples(attempts, lower))
    ensures validCodes == Flat(ValidCode(lower), attempts)
    ensures failures == Flat(FailureOf(lower), attempts)
    ensures StoresRows(volumeByKeyword, AllItems(attempts), lower)
    ensures SortsCodes(attempts, lower, validCodes, failures)
  {
    hide Records, Filter, Updated, Flat, SamplesOfItems, StoresRows, SortsCodes, AllItems;
    FlatNone(SamplesOf(lower));
    FlatNone(ValidCode(lower));
    FlatNone(FailureOf(lower));
    volumeByKeyword, validCodes, failures := map[], [], [];
    NothingRecorded();
    for i := 0 to |attempts|
      invariant Records(volumeByKeyword, Samples(attempts[..i], lower))
      invariant validCodes == Flat(ValidCode(lower), attempts[..i])
      invariant failures == Flat(FailureOf(lower), attempts[..i])
    {
      var attempt := attempts[i];
      assert attempts[..i + 1] == attempts[..i] + [attempt];
      FlatSnoc(SamplesOf(lower), attempts[..i], attempt);
      FlatSnoc(ValidCode(lower), attempts[..i], attempt);
      FlatSnoc(FailureOf(lower), attempts[..i], attempt);
      match attempt.response
      case Failed(error) =>
        assert Samples(attempts[..i + 1], lower) == Samples(attempts[..i], lower);
        failures := failures + [Failure(attempt.code, ClassifyFailure(error))];
      case Success(items) =>
        var usable: bool;
        volumeByKeyword, usable := CollectRows(items, lower, volumeByKeyword, Samples(attempts[..i], lower));
        if usable {
          validCodes := validCodes + [attempt.code];
        } else {
          failures := failures + [Failure(attempt.code, KeywordVolumeEmpty)];
        }
    }
    assert attempts[..|attempts|] == attempts;
    RecordsAreRows(volumeByKeyword, attempts, lower);
    CodesAreSorted(attempts, lower);
  }

  // ----- Every code is accounted for -------------------------------------------------------

  function CodeOf(): Attempt -> seq<int> {
    (a: Attempt) => [a.code]
  }

  function FailedCode(): Failure -> seq<int> {
    (f: Failure) => [f.code]
  }

  lemma CodeOfFailure(a: Attempt, lower: string -> string)
    ensures Flat(FailedCode(), FailureOf(lower)(a)) == if SamplesOf(lower)(a) != [] then [] else [a.code]
  {
    if SamplesOf(lower)(a) == [] {
      FlatSnoc(FailedCode(), [], FailureOf(lower)(a)[0]);
      assert [] + FailureOf(lower)(a) == FailureOf(lower)(a);
    }
  }

  /** Every attempt puts its code into exactly one of the two lists. */
  lemma {:induction false} EveryCodeOnce(attempts: seq<Attempt>, lower: string -> string)
    ensures multiset(Flat(ValidCode(lower), attempts)) + multiset(Flat(FailedCode(), Flat(FailureOf(lower), attempts)))
         == multiset(Flat(CodeOf(), attempts))
  {
    if attempts != [] {
      var rest, a := Front(attempts), Last(attempts);
      assert attempts == rest + [a];
      EveryCodeOnce(rest, lower);
      FlatConcat(FailedCode(), Flat(FailureOf(lower), rest), FailureOf(lower)(a));
      FlatSnoc(ValidCode(lower), rest, a);
      FlatSnoc(FailureOf(lower), rest, a);
      FlatSnoc(CodeOf(), rest, a);
      CodeOfFailure(a, lower);
      hide Flat, SamplesOfItems;
      assert ValidCode(lower)(a) + Flat(FailedCode(), FailureOf(lower)(a)) == [a.code];
    }
  }

  // ----- Order of codes and rows -----------------------------------------------------------

  /** The rows of a keyword never leave the sign of its last row to decide. */
  ghost predicate PriceSettled(samples: seq<Sample>) {
    || HasPositivePrice(samples)
    || (forall s :: s in samples ==> IsNegative(s))
    || (forall s :: s in samples ==> !IsNegative(s))
  }

  lemma SummaryUnique(v: Volume, w: Volume, samples: seq<Sample>)
    requires Summarises(v, samples) && Summarises(w, samples)
    ensures v == w
  {
  }

  lemma SummaryPermutes(v: Volume, samples: seq<Sample>, reordered: seq<Sample>)
    requires IsPermutation(samples, reordered) && PriceSettled(samples) && Summarises(v, samples)
    ensures Summarises(v, reordered)
  {
    PermutationLength(samples, reordered);
    if samples != [] {
      assert Last(samples) in samples && Last(reordered) in reordered;
    }
  }

  function Summary(samples: seq<Sample>): (v: Volume)
    ensures Summarises(v, samples)
  {
    if samples == [] then Unseen()
    else
      assert samples == Front(samples) + [Last(samples)];
      UpdateSummarises(Summary(Front(samples)), Front(samples), Last(samples));
      Updated(Summary(Front(samples)), Last(samples).volume, Last(samples).cpc)
  }

  lemma OtherSign(samples: seq<Sample>) returns (s: Sample)
    requires !PriceSettled(samples)
    ensures samples != [] && s in samples && IsNegative(s) != IsNegative(Last(samples))
  {
    if IsNegative(Last(samples)) {
      s :| s in samples && !IsNegative(s);
    } else {
      s :| s in samples && IsNegative(s);
    }
  }

  lemma MovedLast(samples: seq<Sample>, s: Sample) returns (reordered: seq<Sample>)
    requires s in samples
    ensures IsPermutation(samples, reordered) && reordered != [] && Last(reordered) == s
  {
    var i :| 0 <= i < |samples| && samples[i] == s;
    assert samples == samples[..i] + [s] + samples[i + 1..];
    reordered := samples[..i] + samples[i + 1..] + [s];
  }

  /** A different order of the rows can change what is stored for a keyword exactly when a negative
      price stands beside a row without one and no price is positive. */
  lemma OrderIrrelevantIff(samples: seq<Sample>)
    ensures PriceSettled(samples) <==> forall reordered :: IsPermutation(samples, reordered) ==>
        Summary(reordered) == Summary(samples)
  {
    if PriceSettled(samples) {
      forall reordered | IsPermutation(samples, reordered) ensures Summary(reordered) == Summary(samples) {
        SummaryPermutes(Summary(samples), samples, reordered);
        SummaryUnique(Summary(samples), Summary(reordered), reordered);
      }
    } else {
      var s := OtherSign(samples);
      var reordered := MovedLast(samples, s);
      PermutationLength(samples, reordered);
      assert !HasPositivePrice(reordered);
      assert Summary(reordered).cpc != Summary(samples).cpc;
    }
  }

  /** A price of minus one and a row without a price, in either order: zero is stored when the
      negative price comes last, and nothing when it comes first. */
  lemma PriceOrderMatters() returns (samples: seq<Sample>, reordered: seq<Sample>)
    ensures IsPermutation(samples, reordered)
    ensures Summary(samples) == Volume(Some(10), Some(0.0)) && Summary(reordered) == Volume(Some(10), None)
  {
    var priced, unpriced := Sample("k", None, Some(-1.0)), Sample("k", Some(10), None);
    samples, reordered := [unpriced, priced], [priced, unpriced];
    assert samples == [unpriced] + [priced] && reordered == [priced] + [unpriced];
    assert Front(samples) == [unpriced] && Front(reordered) == [priced];
    assert Front([unpriced]) == [] && Front([priced]) == [];
    assert Summary([]) == Unseen();
    assert Summary([unpriced]) == Volume(Some(10), None) && Summary([priced]) == Volume(None, Some(0.0));
  }

  /** Two collections of the same rows, in any order, store the same, if every keyword's prices
      are settled; in particular if no price is negative. */
  lemma SameRowsSameVolumes(
    volumes: map<string, Volume>, samples: seq<Sample>, others: map<string, Volume>, reordered: seq<Sample>)
    requires Records(volumes, samples) && Records(others, reordered) && IsPermutation(samples, reordered)
    requires forall k: string :: k in volumes ==> PriceSettled(Filter(ForKeyword(k), samples))
    ensures volumes == others
  {
    hide Filter, Summarises, PriceSettled;
    forall k: string ensures k in volumes <==> k in others {
      FilterPermutation(ForKeyword(k), samples, reordered);
      PermutationLength(Filter(ForKeyword(k), samples), Filter(ForKeyword(k), reordered));
    }
    forall k: string | k in volumes ensures k in others && volumes[k] == others[k] {
      FilterPermutation(ForKeyword(k), samples, reordered);
      SummaryPermutes(volumes[k], Filter(ForKeyword(k), samples), Filter(ForKeyword(k), reordered));
      SummaryUnique(volumes[k], others[k], Filter(ForKeyword(k), reordered));
    }
  }

  /** Without negative prices the order in which the codes are called does not matter. */
  lemma CodeOrderIrrelevant(
    attempts: seq<Attempt>, reordered: seq<Attempt>, lower: string -> string,
    volumes: map<string, Volume>, others: map<string, Volume>)
    requires IsPermutation(attempts, reordered)
    requires Records(volumes, Samples(attempts, lower)) && Records(others, Samples(reordered, lower))
    requires forall s :: s in Samples(attempts, lower) ==> !IsNegative(s)
    ensures volumes == others
    ensures IsPermutation(Flat(ValidCode(lower), attempts), Flat(ValidCode(lower), reordered))
    ensures IsPermutation(Flat(FailureOf(lower), attempts), Flat(FailureOf(lower), reordered))
  {
    hide Filter, Records, Flat;
    FlatPermutation(ValidCode(lower), attempts, reordered);
    FlatPermutation(FailureOf(lower), attempts, reordered);
    FlatPermutation(SamplesOf(lower), attempts, reordered);
    var samples := Samples(attempts, lower);
    forall k: string | k in volumes ensures PriceSettled(Filter(ForKeyword(k), samples)) {
      forall s | s in Filter(ForKeyword(k), samples) ensures !IsNegative(s) {
        FilterMember(ForKeyword(k), samples, s);
      }
    }
    SameRowsSameVolumes(volumes, samples, others, Samples(reordered, lower));
  }
}
