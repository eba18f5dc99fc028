/** The ADO read path of the enrich and validate commands
    (`_fetch_ado_stories`, `_get_ac_field`): the stories of
    `get_all_work_items` shaped into six-key records, the
    acceptance-criteria fallback, and enrich's filter by requested id. */
module Stories {
  import opened Wrappers
  import opened Strings
  import Transport
  import Query

  /** The `"id"` of a story dict: absent, `None`, or a number. */
  datatype IdField = NoId | NullId | IntId(n: int)

  /** A story dict as the commands read it: its id, its string-valued
      top-level keys, and the nested raw `"fields"` dict (empty when absent). */
  datatype StoryDict = StoryDict(id: IdField, keys: map<string, string>, fields: map<string, string>)

  /** The record both commands write into their bundles. */
  datatype StoryRecord = StoryRecord(adoId: Option<int>, title: string, description: string,
                                     acceptanceCriteria: string, tags: string, state: string)

  const AcKey: string := "acceptance_criteria"
  const AcField: string := "Microsoft.VSTS.Common.AcceptanceCriteria"

  /** The acceptance criteria of a story: the flattened key when it is
      non-empty, else the raw field, else "". */
  function AcOf(s: StoryDict): (ac: string)
  {
    var flat := Query.FieldOr(s.keys, AcKey);
    if flat != "" then flat else Query.FieldOr(s.fields, AcField)
  }

  /** The fallback never invents text: the criteria are one of the two
      sources, the flattened key wins when it has text, and the result is
      empty exactly when both are. */
  lemma AcFallback(s: StoryDict)
    ensures AcOf(s) == Query.FieldOr(s.keys, AcKey) || AcOf(s) == Query.FieldOr(s.fields, AcField)
    ensures AcKey in s.keys && s.keys[AcKey] != "" ==> AcOf(s) == s.keys[AcKey]
    ensures AcOf(s) == "" <==>
      (AcKey !in s.keys || s.keys[AcKey] == "") && (AcField !in s.fields || s.fields[AcField] == "")
  {
  }

  /** `s.get("id")` */
  function AdoId(id: IdField): (r: Option<int>)
    ensures r.Some? <==> id.IntId?
  {
    match id
    case IntId(n) => Some(n)
    case _ => None
  }

  /** `str(s.get("id", ""))` */
  function IdText(id: IdField): (r: string)
    ensures id.NoId? <==> r == ""
  {
    match id
    case NoId => ""
    case NullId => "None"
    case IntId(n) => IntToString(n)
  }

  /** Two stories with non-negative ids are told apart by their id text. */
  lemma IdTextInjective(m: nat, n: nat)
    ensures IdText(IntId(m)) == IdText(IntId(n)) <==> m == n
  {
    NatToStringInjective(m, n);
  }

  /** One six-key record; missing keys read as "". */
  function Shape(s: StoryDict): StoryRecord {
    StoryRecord(AdoId(s.id), Query.FieldOr(s.keys, "title"), Query.FieldOr(s.keys, "description"),
                AcOf(s), Query.FieldOr(s.keys, "tags"), Query.FieldOr(s.keys, "state"))
  }

  /** The records of the stories, one per story, in order. */
  function ShapeAll(ss: seq<StoryDict>): (r: seq<StoryRecord>)
    ensures |r| == |ss|
    ensures forall i :: 0 <= i < |ss| ==> r[i] == Shape(ss[i])
  {
    if |ss| == 0 then [] else [Shape(ss[0])] + ShapeAll(ss[1..])
  }

  /** `[s for s in raw if str(s.get("id", "")) in ids]` */
  function Requested(ss: seq<StoryDict>, ids: set<string>): (r: seq<StoryDict>)
    ensures |r| <= |ss|
    ensures forall s :: s in r <==> s in ss && IdText(s.id) in ids
  {
    if |ss| == 0 then []
    else
      assert forall s :: s in ss <==> s == ss[0] || s in ss[1..];
      (if IdText(ss[0].id) in ids then [ss[0]] else []) + Requested(ss[1..], ids)
  }

  /** The filter keeps the incoming order. */
  lemma {:induction false} RequestedAppend(a: seq<StoryDict>, b: seq<StoryDict>, ids: set<string>)
    ensures Requested(a + b, ids) == Requested(a, ids) + Requested(b, ids)
  {
    if |a| == 0 {
      assert a + b == b;
    } else {
      assert (a + b)[0] == a[0];
      assert (a + b)[1..] == a[1..] + b;
      RequestedAppend(a[1..], b, ids);
    }
  }

  /** The filter of enrich: with requested ids (a non-empty list), the
      stories whose id text is one of them; without, all stories. */
  function Selected(raw: seq<StoryDict>, storyIds: seq<string>): seq<StoryDict> {
    if |storyIds| > 0 then Requested(raw, set sid | sid in storyIds) else raw
  }

  /** `_fetch_ado_stories` of enrich. `config` is the result of
      `from_project` (`None` when it raised) and `fetch` the stories of
      `get_all_work_items` under that configuration. `None` is reserved for
      those two failures; an empty read or no requested match gives []. */
  function FetchAdoStories(config: Option<Transport.AdoConfig>,
                           fetch: Transport.AdoConfig -> Result<seq<StoryDict>, Transport.ApiError>,
                           storyIds: seq<string>): (r: Option<seq<StoryRecord>>)
    ensures r.None? <==> config.None? || fetch(config.value).Failure?
    ensures r.Some? && fetch(config.value).value == [] ==> r.value == []
  {
    match config
    case None => None
    case Some(c) =>
      match fetch(c)
      case Failure(_) => None
      case Success(raw) =>
        if |raw| == 0 then Some([])
        else
          var kept := Selected(raw, storyIds);
          if |kept| == 0 then Some([]) else Some(ShapeAll(kept))
  }

  /** The early returns agree with the general rule: whenever the read
      succeeds, the records are those of the selected stories, in order. */
  lemma FetchAdoStoriesSelects(config: Option<Transport.AdoConfig>,
                               fetch: Transport.AdoConfig -> Result<seq<StoryDict>, Transport.ApiError>,
                               storyIds: seq<string>)
    requires config.Some? && fetch(config.value).Success?
    ensures FetchAdoStories(config, fetch, storyIds)
         == Some(ShapeAll(Selected(fetch(config.value).value, storyIds)))
  {
  }

  /** With requested ids, a story's record is present exactly when its id
      text was requested; with none, every story has one. */
  lemma FetchAdoStoriesMember(config: Option<Transport.AdoConfig>,
                              fetch: Transport.AdoConfig -> Result<seq<StoryDict>, Transport.ApiError>,
                              storyIds: seq<string>, s: StoryDict)
    requires config.Some? && fetch(config.value).Success? && s in fetch(config.value).value
    ensures var r := FetchAdoStories(config, fetch, storyIds).value;
      (|storyIds| == 0 || IdText(s.id) in storyIds) ==> Shape(s) in r
  {
    var kept := Selected(fetch(config.value).value, storyIds);
    FetchAdoStoriesSelects(config, fetch, storyIds);
    if |storyIds| == 0 || IdText(s.id) in storyIds {
      assert s in kept;
      var i :| 0 <= i < |kept| && kept[i] == s;
      assert ShapeAll(kept)[i] == Shape(s);
    }
  }

  /** Every record comes from a selected story. */
  lemma FetchAdoStoriesOrigin(config: Option<Transport.AdoConfig>,
                              fetch: Transport.AdoConfig -> Result<seq<StoryDict>, Transport.ApiError>,
                              storyIds: seq<string>, i: nat)
    requires config.Some? && fetch(config.value).Success?
    requires i < |FetchAdoStories(config, fetch, storyIds).value|
    ensures exists s :: s in fetch(config.value).value && (|storyIds| == 0 || IdText(s.id) in storyIds)
                        && FetchAdoStories(config, fetch, storyIds).value[i] == Shape(s)
  {
    FetchAdoStoriesSelects(config, fetch, storyIds);
    var kept := Selected(fetch(config.value).value, storyIds);
    assert kept[i] in kept;
  }

  /** `_fetch_ado_stories` of validate: every story, no filter. */
  function FetchAllStories(config: Option<Transport.AdoConfig>,
                           fetch: Transport.AdoConfig -> Result<seq<StoryDict>, Transport.ApiError>): (r: Option<seq<StoryRecord>>)
    ensures r.None? <==> config.None? || fetch(config.value).Failure?
    ensures r.Some? ==> |r.value| == |fetch(config.value).value|
    ensures r.Some? ==> forall i :: 0 <= i < |r.value| ==> r.value[i] == Shape(fetch(config.value).value[i])
  {
    match config
    case None => None
    case Some(c) =>
      match fetch(c)
      case Failure(_) => None
      case Success(raw) =>
        if |raw| == 0 then Some([]) else Some(ShapeAll(raw))
  }

  /** Validate's read is enrich's read without requested ids. */
  lemma ValidateIsUnfilteredEnrich(config: Option<Transport.AdoConfig>,
                                   fetch: Transport.AdoConfig -> Result<seq<StoryDict>, Transport.ApiError>)
    ensures FetchAllStories(config, fetch) == FetchAdoStories(config, fetch, [])
  {
  }

  // ---------------------------------------------------------------------
  // Where the stories come from

  /** The dict `get_all_work_items` builds for a story: the id (which may
      be `None`) and five string keys; there is no acceptance-criteria key
      and no raw `"fields"`. */
  function FromEntry(e: Query.Entry): StoryDict {
    StoryDict(match e.id case Some(n) => IntId(n) case None => NullId,
              map["title" := e.title, "description" := e.description, "tags" := e.tags,
                  "state" := e.state, "type" := e.wiType],
              map[])
  }

  /** As written, the criteria of every story read through
      `get_all_work_items` are empty, whatever the work item holds. */
  lemma AcLostInClassification(e: Query.Entry)
    ensures AcOf(FromEntry(e)) == ""
  {
    assert AcKey !in FromEntry(e).keys;
  }

  /** A concrete work item whose criteria field has text and whose record
      still carries none. */
  lemma AcLostExample()
    ensures var item := Query.DetailItem(Some(7), map[Query.TypeKey := Query.UserStory, AcField := "<p>Given</p>"]);
      && Query.FieldOr(item.fields, AcField) != ""
      && Shape(FromEntry(Query.ToEntry(item))).acceptanceCriteria == ""
  {
    var item := Query.DetailItem(Some(7), map[Query.TypeKey := Query.UserStory, AcField := "<p>Given</p>"]);
    AcLostInClassification(Query.ToEntry(item));
  }

  /** The dict with the criteria kept: the detail item's raw fields travel
      with the entry, as the fallback expects. */
  function FromDetail(item: Query.DetailItem): StoryDict {
    var e := Query.ToEntry(item);
    StoryDict(match e.id case Some(n) => IntId(n) case None => NullId,
              map["title" := e.title, "description" := e.description, "tags" := e.tags,
                  "state" := e.state, "type" := e.wiType],
              item.fields)
  }

  /** With the raw fields kept, the record carries the work item's
      criteria, and every other key is as before. */
  lemma AcKeptFromDetail(item: Query.DetailItem)
    ensures Shape(FromDetail(item)).acceptanceCriteria == Query.FieldOr(item.fields, AcField)
    ensures var before := Shape(FromEntry(Query.ToEntry(item)));
      Shape(FromDetail(item)) == before.(acceptanceCriteria := Query.FieldOr(item.fields, AcField))
  {
    assert AcKey !in FromDetail(item).keys;
  }

  /** The stories of `get_all_work_items` as written: one dict per user-story
      item, in read order, built from its entry alone. */
  function StoryDicts(items: seq<Query.DetailItem>): (r: seq<StoryDict>)
    ensures |r| == |Query.OfType(items, Query.UserStory)|
  {
    if |items| == 0 then []
    else
      var last := items[|items| - 1];
      StoryDicts(items[..|items| - 1])
        + (if Query.TypeOf(last) == Query.UserStory then [FromEntry(Query.ToEntry(last))] else [])
  }

  /** The dicts are those of the story group `Query.Classify` returns, one
      per entry, and none of them carries acceptance criteria. */
  lemma {:induction false} StoryDictsClassified(items: seq<Query.DetailItem>)
    ensures var stories := Query.OfType(items, Query.UserStory);
      forall i :: 0 <= i < |stories| ==>
        StoryDicts(items)[i] == FromEntry(stories[i]) && AcOf(StoryDicts(items)[i]) == ""
    decreases |items|
  {
    if |items| > 0 {
      var init := items[..|items| - 1];
      StoryDictsClassified(init);
      var stories := Query.OfType(items, Query.UserStory);
      forall i | 0 <= i < |stories|
        ensures StoryDicts(items)[i] == FromEntry(stories[i]) && AcOf(StoryDicts(items)[i]) == ""
      {
        if i < |Query.OfType(init, Query.UserStory)| {
          assert StoryDicts(items)[i] == StoryDicts(init)[i];
          assert stories[i] == Query.OfType(init, Query.UserStory)[i];
        } else {
          AcLostInClassification(stories[i]);
        }
      }
    }
  }

  /** The corrected read: the same dicts, each keeping its detail item's
      raw fields. */
  function StoryDictsKept(items: seq<Query.DetailItem>): (r: seq<StoryDict>)
    ensures |r| == |Query.OfType(items, Query.UserStory)|
  {
    if |items| == 0 then []
    else
      var last := items[|items| - 1];
      StoryDictsKept(items[..|items| - 1])
        + (if Query.TypeOf(last) == Query.UserStory then [FromDetail(last)] else [])
  }

  /** The corrected read differs from the one as written only in the
      criteria: each record takes them from its work item's raw field. */
  lemma {:induction false} StoryDictsKeptDiffer(items: seq<Query.DetailItem>)
    ensures |StoryDictsKept(items)| == |StoryDicts(items)|
    ensures forall i :: 0 <= i < |StoryDicts(items)| ==>
      var kept := StoryDictsKept(items)[i];
      && kept.id == StoryDicts(items)[i].id
      && Shape(kept) == Shape(StoryDicts(items)[i]).(acceptanceCriteria := Query.FieldOr(kept.fields, AcField))
    decreases |items|
  {
    if |items| > 0 {
      var init, last := items[..|items| - 1], items[|items| - 1];
      StoryDictsKeptDiffer(init);
      AcKeptFromDetail(last);
      forall i | 0 <= i < |StoryDicts(items)|
        ensures var kept := StoryDictsKept(items)[i];
          && kept.id == StoryDicts(items)[i].id
          && Shape(kept) == Shape(StoryDicts(items)[i]).(acceptanceCriteria := Query.FieldOr(kept.fields, AcField))
      {
        if i < |StoryDicts(init)| {
          assert StoryDictsKept(items)[i] == StoryDictsKept(init)[i];
          assert StoryDicts(items)[i] == StoryDicts(init)[i];
        }
      }
    }
  }

  /** `get_all_work_items` followed by the story group, as written: the
      read fails with the query's or a detail request's error, an empty
      query reads no stories, and otherwise there is one dict per user
      story among the details read, none of them with criteria. */
  function AdoRead(query: Result<seq<int>, Transport.ApiError>,
                   details: seq<int> -> Result<seq<Query.DetailItem>, Transport.ApiError>)
    : (r: Result<seq<StoryDict>, Transport.ApiError>)
    ensures query.Failure? ==> r == Failure(query.error)
    ensures query.Success? && |query.value| == 0 ==> r == Success([])
    ensures var run := Query.GetWorkItemsByQuery(query, details);
      && (r.Failure? <==> run.result.Failure?)
      && (r.Success? ==> |r.value| == |Query.OfType(run.result.value, Query.UserStory)|)
    ensures r.Success? ==> forall i :: 0 <= i < |r.value| ==> AcOf(r.value[i]) == ""
  {
    match Query.GetWorkItemsByQuery(query, details).result
    case Failure(e) => Failure(e)
    case Success(items) =>
      StoryDictsClassified(items);
      Success(StoryDicts(items))
  }

  /** The same read with the criteria kept. */
  function AdoReadKept(query: Result<seq<int>, Transport.ApiError>,
                       details: seq<int> -> Result<seq<Query.DetailItem>, Transport.ApiError>)
    : (r: Result<seq<StoryDict>, Transport.ApiError>)
    ensures query.Failure? ==> r == Failure(query.error)
    ensures query.Success? && |query.value| == 0 ==> r == Success([])
    ensures var run := Query.GetWorkItemsByQuery(query, details);
      && (r.Failure? <==> run.result.Failure?)
      && (r.Success? ==> |r.value| == |Query.OfType(run.result.value, Query.UserStory)|)
  {
    match Query.GetWorkItemsByQuery(query, details).result
    case Failure(e) => Failure(e)
    case Success(items) => Success(StoryDictsKept(items))
  }

  // ---------------------------------------------------------------------
  // The read as written against the corrected one

  /** Two reads of the same stories, told apart at most by their criteria. */
  predicate Paired(a: seq<StoryDict>, b: seq<StoryDict>) {
    && |a| == |b|
    && forall i :: 0 <= i < |a| ==>
         a[i].id == b[i].id && Shape(b[i]) == Shape(a[i]).(acceptanceCriteria := AcOf(b[i]))
  }

  /** Records that agree on everything but the criteria. */
  predicate SameButCriteria(a: seq<StoryRecord>, b: seq<StoryRecord>) {
    && |a| == |b|
    && forall i :: 0 <= i < |a| ==> b[i] == a[i].(acceptanceCriteria := b[i].acceptanceCriteria)
  }

  /** Both reads succeed or fail together, and then pair up story by story. */
  lemma AdoReadPaired(query: Result<seq<int>, Transport.ApiError>,
                      details: seq<int> -> Result<seq<Query.DetailItem>, Transport.ApiError>)
    ensures AdoRead(query, details).Success? <==> AdoReadKept(query, details).Success?
    ensures AdoRead(query, details).Success? ==>
      Paired(AdoRead(query, details).value, AdoReadKept(query, details).value)
  {
    var run := Query.GetWorkItemsByQuery(query, details);
    if run.result.Success? {
      StoryDictsKeptDiffer(run.result.value);
    }
  }

  /** Pairing survives dropping the first story of both reads. */
  lemma PairedTail(a: seq<StoryDict>, b: seq<StoryDict>)
    requires Paired(a, b) && |a| > 0
    ensures Paired(a[1..], b[1..])
  {
    forall i | 0 <= i < |a| - 1
      ensures a[1..][i].id == b[1..][i].id
      ensures Shape(b[1..][i]) == Shape(a[1..][i]).(acceptanceCriteria := AcOf(b[1..][i]))
    {
      assert a[1..][i] == a[i + 1] && b[1..][i] == b[i + 1];
    }
  }

  /** Pairing survives putting a paired story in front of both reads. */
  lemma PairedCons(x: StoryDict, y: StoryDict, a: seq<StoryDict>, b: seq<StoryDict>)
    requires Paired([x], [y]) && Paired(a, b)
    ensures Paired([x] + a, [y] + b)
  {
    forall i | 0 <= i < |a| + 1
      ensures ([x] + a)[i].id == ([y] + b)[i].id
      ensures Shape(([y] + b)[i]) == Shape(([x] + a)[i]).(acceptanceCriteria := AcOf(([y] + b)[i]))
    {
      if i == 0 {
        assert ([x] + a)[i] == [x][0] && ([y] + b)[i] == [y][0];
      } else {
        assert ([x] + a)[i] == a[i - 1] && ([y] + b)[i] == b[i - 1];
      }
    }
  }

  /** The id filter keeps paired reads paired. */
  lemma {:induction false} RequestedPaired(a: seq<StoryDict>, b: seq<StoryDict>, ids: set<string>)
    requires Paired(a, b)
    ensures Paired(Requested(a, ids), Requested(b, ids))
    decreases |a|
  {
    if |a| > 0 {
      PairedTail(a, b);
      RequestedPaired(a[1..], b[1..], ids);
      var ra, rb := Requested(a[1..], ids), Requested(b[1..], ids);
      assert a[0].id == b[0].id;
      if IdText(a[0].id) in ids {
        assert Paired([a[0]], [b[0]]);
        PairedCons(a[0], b[0], ra, rb);
      }
    }
  }

  /** Enrich's read of paired stories yields records that differ at most in
      their criteria; both reads yield records or neither does. */
  lemma FetchAdoStoriesPaired(config: Option<Transport.AdoConfig>,
                              fa: Transport.AdoConfig -> Result<seq<StoryDict>, Transport.ApiError>,
                              fb: Transport.AdoConfig -> Result<seq<StoryDict>, Transport.ApiError>,
                              storyIds: seq<string>)
    requires config.Some? ==> (fa(config.value).Success? <==> fb(config.value).Success?)
    requires config.Some? && fa(config.value).Success? ==> Paired(fa(config.value).value, fb(config.value).value)
    ensures var ra, rb := FetchAdoStories(config, fa, storyIds), FetchAdoStories(config, fb, storyIds);
      && (ra.Some? <==> rb.Some?)
      && (ra.Some? ==> SameButCriteria(ra.value, rb.value))
  {
    if config.Some? && fa(config.value).Success? {
      var a, b := fa(config.value).value, fb(config.value).value;
      FetchAdoStoriesSelects(config, fa, storyIds);
      FetchAdoStoriesSelects(config, fb, storyIds);
      if |storyIds| > 0 {
        RequestedPaired(a, b, set sid | sid in storyIds);
      }
    }
  }

  /** Every record of a read whose stories carry no criteria has none. */
  lemma FetchAdoStoriesNoCriteria(config: Option<Transport.AdoConfig>,
                                  fetch: Transport.AdoConfig -> Result<seq<StoryDict>, Transport.ApiError>,
                                  storyIds: seq<string>)
    requires config.Some? && fetch(config.value).Success? ==>
      forall j :: 0 <= j < |fetch(config.value).value| ==> AcOf(fetch(config.value).value[j]) == ""
    ensures var r := FetchAdoStories(config, fetch, storyIds);
      r.Some? ==> forall i :: 0 <= i < |r.value| ==> r.value[i].acceptanceCriteria == ""
  {
    var r := FetchAdoStories(config, fetch, storyIds);
    if r.Some? {
      forall i | 0 <= i < |r.value| ensures r.value[i].acceptanceCriteria == "" {
        FetchAdoStoriesOrigin(config, fetch, storyIds, i);
        var raw := fetch(config.value).value;
        var s :| s in raw && (|storyIds| == 0 || IdText(s.id) in storyIds) && r.value[i] == Shape(s);
        var j :| 0 <= j < |raw| && raw[j] == s;
      }
    }
  }
}
