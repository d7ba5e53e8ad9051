/** `convert()`: seeds the Thing Model metadata and folds every content item into its bucket. */
module Converter {
  import opened Wrappers
  import opened Dtdl
  import opened Thing
  import opened ContentMappers

  const ThingModelType := "ThingModel"
  const TdContext := "https://www.w3.org/2019/wot/td/v1"

  /** The target model before the loop: the empty buckets the constructor passes to the base
      class, plus the metadata `convert()` sets. `now` is the instant `Date.now()` would give. */
  function Seed(source: Interface, now: int): (r: ThingModel)
    ensures WellFormed(r)
    ensures forall k: TargetKey :: r.Bucket(k) == map[]
  {
    ThingModel(ThingModelType, [TdContext], source.description, source.displayName, now, now,
               map[], map[], map[])
  }

  /** Replaces the bucket named by the descriptor's target key with a copy in which the
      descriptor's name now holds the entry built from that name and the payload. */
  function Merge(tm: ThingModel, m: Mapped): (r: ThingModel)
    ensures r.Bucket(m.targetKey).Keys == tm.Bucket(m.targetKey).Keys + {m.name}
    ensures r.Bucket(m.targetKey)[m.name] == Entry(m.name, m.data)
    ensures forall n :: n in tm.Bucket(m.targetKey) && n != m.name ==>
              r.Bucket(m.targetKey)[n] == tm.Bucket(m.targetKey)[n]
    ensures forall k: TargetKey :: k != m.targetKey ==> r.Bucket(k) == tm.Bucket(k)
    ensures SameMetadata(r, tm)
  {
    var entry := Entry(m.name, m.data);
    match m.targetKey
    case Properties => tm.(properties := tm.properties[m.name := entry])
    case Actions => tm.(actions := tm.actions[m.name := entry])
    case Events => tm.(events := tm.events[m.name := entry])
  }

  /** Merging a payload of the bucket's own shape keeps every entry under its name. */
  lemma MergeKeepsWellFormed(tm: ThingModel, m: Mapped)
    ensures WellFormed(tm) && Fits(m.targetKey, m.data) ==> WellFormed(Merge(tm, m))
  {
  }

  /** The loop over `contents`, in order: each item is dispatched, mapped and merged; the
      first fault ends the loop and nothing else is returned. */
  function Assemble(seed: ThingModel, items: seq<ContentItem>): (r: Result<ThingModel, Fault>)
    ensures r.Success? ==> SameMetadata(r.value, seed)
    ensures r.Success? && WellFormed(seed) ==> WellFormed(r.value)
    decreases |items|
  {
    if |items| == 0 then Success(seed)
    else
      var done := Assemble(seed, items[..|items| - 1]);
      if done.Failure? then done
      else
        var mapped := MapContent(items[|items| - 1]);
        if mapped.Failure? then Failure(mapped.error)
        else
          MergeKeepsWellFormed(done.value, mapped.value);
          Success(Merge(done.value, mapped.value))
  }

  /** `convert()` on an interface, at instant `now`. */
  function Convert(source: Interface, now: int): (r: Result<ThingModel, Fault>)
    ensures r.Success? ==>
              && r.value.modelType == "ThingModel"
              && r.value.context == ["https://www.w3.org/2019/wot/td/v1"]
              && r.value.description == source.description
              && r.value.title == source.displayName
              && r.value.created == now && r.value.modified == now
    ensures r.Success? ==> WellFormed(r.value)
  {
    Assemble(Seed(source, now), source.contents)
  }

  // ---------------------------------------------------------------------------------------
  // Reference definitions, stated over item positions rather than over the fold

  /** Every item is dispatched and mapped without a fault. */
  predicate AllMap(items: seq<ContentItem>) {
    forall i :: 0 <= i < |items| ==> MapContent(items[i]).Success?
  }

  /** Item `i` maps without a fault into bucket `k`. */
  predicate MapsInto(items: seq<ContentItem>, i: int, k: TargetKey) {
    0 <= i < |items| && MapContent(items[i]).Success? && MapContent(items[i]).value.targetKey == k
  }

  /** The names of the items that map into bucket `k`. */
  function NamesInto(items: seq<ContentItem>, k: TargetKey): set<string> {
    set i | 0 <= i < |items| && MapsInto(items, i, k) :: items[i].name
  }

  /** Item `i` maps into bucket `k` and no later item maps there under the same name. */
  predicate LastInto(items: seq<ContentItem>, i: int, k: TargetKey) {
    MapsInto(items, i, k) &&
    forall j :: i < j < |items| && MapsInto(items, j, k) ==> items[j].name != items[i].name
  }

  // ---------------------------------------------------------------------------------------
  // Properties of the fold

  /** One step of the fold: it succeeds when the items before the last do and the last maps. */
  lemma AssembleStep(seed: ThingModel, items: seq<ContentItem>)
    requires |items| > 0
    ensures Assemble(seed, items).Success? <==>
              Assemble(seed, items[..|items| - 1]).Success? && MapContent(items[|items| - 1]).Success?
  {
  }

  lemma AllMapStep(items: seq<ContentItem>)
    requires |items| > 0
    ensures AllMap(items) <==> AllMap(items[..|items| - 1]) && MapContent(items[|items| - 1]).Success?
  {
    var init := items[..|items| - 1];
    assert forall i :: 0 <= i < |init| ==> init[i] == items[i];
  }

  lemma {:induction false} AssembleSucceedsIff(seed: ThingModel, items: seq<ContentItem>)
    ensures Assemble(seed, items).Success? <==> AllMap(items)
    decreases |items|
  {
    if |items| > 0 {
      AssembleSucceedsIff(seed, items[..|items| - 1]);
      AssembleStep(seed, items);
      AllMapStep(items);
    }
  }

  lemma {:induction false} AssembleFirstFault(seed: ThingModel, items: seq<ContentItem>, i: int)
    requires 0 <= i < |items| && MapContent(items[i]).Failure?
    requires forall j :: 0 <= j < i ==> MapContent(items[j]).Success?
    ensures Assemble(seed, items) == Failure(MapContent(items[i]).error)
    decreases |items|
  {
    var init := items[..|items| - 1];
    if i == |items| - 1 {
      assert AllMap(init) by {
        assert forall j :: 0 <= j < |init| ==> init[j] == items[j];
      }
      AssembleSucceedsIff(seed, init);
    } else {
      AssembleFirstFault(seed, init, i);
    }
  }

  lemma InitMapsInto(items: seq<ContentItem>, k: TargetKey)
    requires |items| > 0
    ensures forall i :: 0 <= i < |items| - 1 ==>
              (MapsInto(items[..|items| - 1], i, k) <==> MapsInto(items, i, k))
  {
  }

  lemma NamesIntoStep(items: seq<ContentItem>, k: TargetKey)
    requires |items| > 0
    ensures NamesInto(items, k) ==
              NamesInto(items[..|items| - 1], k)
              + (if MapsInto(items, |items| - 1, k) then {items[|items| - 1].name} else {})
  {
    var init := items[..|items| - 1];
    InitMapsInto(items, k);
    assert forall i :: 0 <= i < |init| ==> init[i] == items[i];
  }

  /** One step of the fold on bucket `k`: the last item adds its name if it maps into `k`. */
  lemma AssembleKeysStep(seed: ThingModel, items: seq<ContentItem>, k: TargetKey)
    requires |items| > 0 && Assemble(seed, items).Success?
    ensures Assemble(seed, items[..|items| - 1]).Success?
    ensures Assemble(seed, items).value.Bucket(k).Keys ==
              Assemble(seed, items[..|items| - 1]).value.Bucket(k).Keys
              + (if MapsInto(items, |items| - 1, k) then {items[|items| - 1].name} else {})
  {
  }

  lemma {:induction false} AssembleKeys(seed: ThingModel, items: seq<ContentItem>, k: TargetKey)
    requires Assemble(seed, items).Success?
    ensures Assemble(seed, items).value.Bucket(k).Keys == seed.Bucket(k).Keys + NamesInto(items, k)
    decreases |items|
  {
    if |items| > 0 {
      AssembleKeysStep(seed, items, k);
      AssembleKeys(seed, items[..|items| - 1], k);
      NamesIntoStep(items, k);
    }
  }

  /** The last item of a successful fold leaves its own entry under its name. */
  lemma LastItemEntry(seed: ThingModel, items: seq<ContentItem>, k: TargetKey)
    requires |items| > 0 && Assemble(seed, items).Success? && MapsInto(items, |items| - 1, k)
    ensures items[|items| - 1].name in Assemble(seed, items).value.Bucket(k)
    ensures Assemble(seed, items).value.Bucket(k)[items[|items| - 1].name]
            == Entry(items[|items| - 1].name, MapContent(items[|items| - 1]).value.data)
  {
  }

  /** An entry of the prefix's fold that the last item does not overwrite survives. */
  lemma EarlierEntryKept(seed: ThingModel, items: seq<ContentItem>, k: TargetKey, n: string)
    requires |items| > 0 && Assemble(seed, items).Success?
    requires !(MapsInto(items, |items| - 1, k) && items[|items| - 1].name == n)
    requires Assemble(seed, items[..|items| - 1]).Success?
    requires n in Assemble(seed, items[..|items| - 1]).value.Bucket(k)
    ensures n in Assemble(seed, items).value.Bucket(k)
    ensures Assemble(seed, items).value.Bucket(k)[n] == Assemble(seed, items[..|items| - 1]).value.Bucket(k)[n]
  {
  }

  lemma LastIntoInit(items: seq<ContentItem>, i: int, k: TargetKey)
    requires LastInto(items, i, k) && i < |items| - 1
    ensures LastInto(items[..|items| - 1], i, k)
    ensures items[..|items| - 1][i] == items[i]
    ensures !(MapsInto(items, |items| - 1, k) && items[|items| - 1].name == items[i].name)
  {
    var init := items[..|items| - 1];
    InitMapsInto(items, k);
    forall j | i < j < |init| && MapsInto(init, j, k) ensures init[j].name != init[i].name {
      assert init[j] == items[j];
    }
  }

  lemma {:induction false} AssembleLastWins(seed: ThingModel, items: seq<ContentItem>, i: int, k: TargetKey)
    requires Assemble(seed, items).Success?
    requires LastInto(items, i, k)
    ensures items[i].name in Assemble(seed, items).value.Bucket(k)
    ensures Assemble(seed, items).value.Bucket(k)[items[i].name]
            == Entry(items[i].name, MapContent(items[i]).value.data)
    decreases |items|
  {
    if i == |items| - 1 {
      LastItemEntry(seed, items, k);
    } else {
      var init := items[..|items| - 1];
      LastIntoInit(items, i, k);
      AssembleStep(seed, items);
      AssembleLastWins(seed, init, i, k);
      EarlierEntryKept(seed, items, k, items[i].name);
    }
  }

  // ---------------------------------------------------------------------------------------
  // Properties of convert()

  /** A conversion returns a model exactly when every item is supported and mappable; otherwise
      it returns no model at all. */
  lemma ConvertAllOrNothing(source: Interface, now: int)
    ensures Convert(source, now).Success? <==> AllMap(source.contents)
  {
    AssembleSucceedsIff(Seed(source, now), source.contents);
  }

  /** The fault a conversion ends with is that of the first item that cannot be mapped. */
  lemma ConvertFirstFault(source: Interface, now: int, i: int)
    requires 0 <= i < |source.contents| && MapContent(source.contents[i]).Failure?
    requires forall j :: 0 <= j < i ==> MapContent(source.contents[j]).Success?
    ensures Convert(source, now) == Failure(MapContent(source.contents[i]).error)
  {
    AssembleFirstFault(Seed(source, now), source.contents, i);
  }

  /** One item with an unsupported `@type` anywhere in `contents` makes the whole conversion fail. */
  lemma UnsupportedItemAborts(source: Interface, now: int, i: int)
    requires 0 <= i < |source.contents| && GetContentMapper(source.contents[i]).Failure?
    ensures Convert(source, now).Failure?
  {
    ConvertAllOrNothing(source, now);
  }

  /** Each bucket of a converted model holds exactly the names of the items mapped into it. */
  lemma ConvertBucketKeys(source: Interface, now: int, k: TargetKey)
    requires Convert(source, now).Success?
    ensures Convert(source, now).value.Bucket(k).Keys == NamesInto(source.contents, k)
  {
    AssembleKeys(Seed(source, now), source.contents, k);
  }

  /** The entry under a name is `{name, ...data}` of the last item mapped to that bucket and name. */
  lemma ConvertLastWins(source: Interface, now: int, i: int, k: TargetKey)
    requires Convert(source, now).Success?
    requires LastInto(source.contents, i, k)
    ensures source.contents[i].name in Convert(source, now).value.Bucket(k)
    ensures Convert(source, now).value.Bucket(k)[source.contents[i].name]
            == Entry(source.contents[i].name, MapContent(source.contents[i]).value.data)
  {
    AssembleLastWins(Seed(source, now), source.contents, i, k);
  }

  // ---------------------------------------------------------------------------------------
  // The instant and the in-place loop

  lemma MergeIgnoresTimestamps(tm: ThingModel, m: Mapped, t: int)
    ensures Merge(tm.(created := t, modified := t), m) == Merge(tm, m).(created := t, modified := t)
  {
  }

  lemma {:induction false} AssembleIgnoresTimestamps(seed: ThingModel, items: seq<ContentItem>, t: int)
    ensures Assemble(seed.(created := t, modified := t), items).Success? == Assemble(seed, items).Success?
    ensures Assemble(seed, items).Success? ==>
              Assemble(seed.(created := t, modified := t), items).value
              == Assemble(seed, items).value.(created := t, modified := t)
    ensures Assemble(seed, items).Failure? ==>
              Assemble(seed.(created := t, modified := t), items).error == Assemble(seed, items).error
    decreases |items|
  {
    if |items| > 0 {
      var init := items[..|items| - 1];
      AssembleIgnoresTimestamps(seed, init, t);
      if Assemble(seed, init).Success? && MapContent(items[|items| - 1]).Success? {
        MergeIgnoresTimestamps(Assemble(seed, init).value, MapContent(items[|items| - 1]).value, t);
      }
    }
  }

  /** The instant only reaches `created` and `modified`: converting at two instants gives the
      same outcome, and models that differ in nothing else. */
  lemma ConvertIgnoresTimestampElsewhere(source: Interface, t1: int, t2: int)
    ensures Convert(source, t1).Success? == Convert(source, t2).Success?
    ensures Convert(source, t1).Success? ==>
              Convert(source, t2).value == Convert(source, t1).value.(created := t2, modified := t2)
    ensures Convert(source, t1).Failure? ==> Convert(source, t2).error == Convert(source, t1).error
  {
    var seed := Seed(source, t1);
    assert Seed(source, t2) == seed.(created := t2, modified := t2);
    AssembleIgnoresTimestamps(seed, source.contents, t2);
  }

  /** One iteration of the in-place loop extends the fold over a prefix by one item. */
  lemma PrefixStep(seed: ThingModel, items: seq<ContentItem>, i: int, tm: ThingModel)
    requires 0 <= i < |items| && Assemble(seed, items[..i]) == Success(tm)
    requires MapContent(items[i]).Success?
    ensures Assemble(seed, items[..i + 1]) == Success(Merge(tm, MapContent(items[i]).value))
  {
    assert items[..i + 1][..i] == items[..i];
  }

  /** A fault right after a prefix that folds without one is the fault of the whole fold. */
  lemma PrefixFault(seed: ThingModel, items: seq<ContentItem>, i: int)
    requires 0 <= i < |items| && Assemble(seed, items[..i]).Success?
    requires MapContent(items[i]).Failure?
    ensures Assemble(seed, items) == Failure(MapContent(items[i]).error)
  {
    AssembleSucceedsIff(seed, items[..i]);
    assert forall j :: 0 <= j < i ==> items[..i][j] == items[j];
    AssembleFirstFault(seed, items, i);
  }

  /** `convert()` as the source writes it: one target model updated in place, item by item,
      with the first fault thrown out of the loop. */
  method ConvertInPlace(source: Interface, now: int) returns (r: Result<ThingModel, Fault>)
    ensures r == Convert(source, now)
  {
    var items := source.contents;
    var seed := Seed(source, now);
    var targetModel := seed;
    var i := 0;
    while i < |items|
      invariant 0 <= i <= |items|
      invariant Assemble(seed, items[..i]) == Success(targetModel)
    {
      var mapped := MapContent(items[i]);
      if mapped.Failure? {
        PrefixFault(seed, items, i);
        return Failure(mapped.error);
      }
      PrefixStep(seed, items, i, targetModel);
      targetModel := Merge(targetModel, mapped.value);
      i := i + 1;
    }
    assert items[..i] == items;
    return Success(targetModel);
  }
}
