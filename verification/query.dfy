/** The read path of the Azure DevOps client (core/ado.py): a WIQL query
    returns ids, their details are fetched in batches of at most 200, and
    the records are grouped by work-item type; the child lookup keeps the
    targets of a parent's hierarchy links.

    Each HTTP call is one `Transport.ApiRequest`; here only its outcome
    matters. The query's outcome is an input, and `fetch(ids)` is the
    outcome of the detail request for the batch `ids`. */
module Query {
  import opened Wrappers
  import opened Transport
  import Utf8

  /** How many ids one detail request may carry. */
  const BatchSize: nat := 200

  /** A work item as the detail endpoint returns it: an id (absent when the
      record has none) and its string-valued fields. */
  datatype DetailItem = DetailItem(id: Option<int>, fields: map<string, string>)

  /** The detail requests a read made, in order, and its outcome. */
  datatype QueryRun = QueryRun(calls: seq<seq<int>>, result: Result<seq<DetailItem>, ApiError>)

  // ---------------------------------------------------------------------
  // Batching

  function Flatten<T>(xs: seq<seq<T>>): (r: seq<T>)
  {
    if |xs| == 0 then [] else xs[0] + Flatten(xs[1..])
  }

  lemma {:induction false} FlattenAppend<T>(xs: seq<seq<T>>, ys: seq<seq<T>>)
    ensures Flatten(xs + ys) == Flatten(xs) + Flatten(ys)
  {
    if |xs| == 0 {
      assert xs + ys == ys;
    } else {
      assert (xs + ys)[0] == xs[0];
      assert (xs + ys)[1..] == xs[1..] + ys;
      FlattenAppend(xs[1..], ys);
    }
  }

  /** `range(0, len(s), n)` slicing: consecutive slices (they concatenate
      back to `s`) of exactly `n` items, the last one possibly shorter. */
  function Chunks<T>(s: seq<T>, n: nat): (r: seq<seq<T>>)
    requires n > 0
    ensures Flatten(r) == s
    ensures |r| == 0 <==> |s| == 0
    ensures forall i :: 0 <= i < |r| ==> 1 <= |r[i]| <= n
    ensures forall i :: 0 <= i < |r| - 1 ==> |r[i]| == n
    decreases |s|
  {
    if |s| == 0 then []
    else if |s| <= n then
      assert Flatten([s]) == s + Flatten([]);
      [s]
    else
      var rest := Chunks(s[n..], n);
      assert Flatten([s[..n]] + rest) == s[..n] + Flatten(rest) by {
        FlattenAppend([s[..n]], rest);
        assert Flatten([s[..n]]) == s[..n] + Flatten([]);
      }
      assert s[..n] + s[n..] == s;
      [s[..n]] + rest
  }

  /** `k` slices cover between `(k-1)*n + 1` and `k*n` items. */
  lemma {:induction false} ChunksCount<T>(s: seq<T>, n: nat)
    requires n > 0
    ensures var k := |Chunks(s, n)|; k > 0 ==> (k - 1) * n < |s| <= k * n
    decreases |s|
  {
    if |s| > n {
      ChunksCount(s[n..], n);
      MulStep(|Chunks(s, n)|, n);
    }
  }

  lemma MulStep(i: nat, n: nat)
    requires i > 0
    ensures (i - 1) * n + n == i * n
  {
  }

  // ---------------------------------------------------------------------
  // Detail fetching

  /** Every batch's detail request succeeded. */
  ghost predicate AllFetched(batches: seq<seq<int>>, fetch: seq<int> -> Result<seq<DetailItem>, ApiError>) {
    forall i :: 0 <= i < |batches| ==> fetch(batches[i]).Success?
  }

  /** The records of all batches, batch by batch (a failed batch adds
      nothing). */
  ghost function Gathered(batches: seq<seq<int>>, fetch: seq<int> -> Result<seq<DetailItem>, ApiError>): seq<DetailItem>
  {
    if |batches| == 0 then []
    else
      (match fetch(batches[0]) case Success(items) => items case Failure(_) => [])
      + Gathered(batches[1..], fetch)
  }

  /** The `for` loop over the batches: each request's records are appended
      to the result; the first failing request ends the read with its error. */
  function FetchBatches(batches: seq<seq<int>>, fetch: seq<int> -> Result<seq<DetailItem>, ApiError>): (r: QueryRun)
    ensures 1 <= |r.calls| || |batches| == 0
    ensures |r.calls| <= |batches| && r.calls == batches[..|r.calls|]
    ensures r.result.Success? <==> AllFetched(batches, fetch)
    ensures r.result.Success? ==> r.calls == batches && r.result.value == Gathered(batches, fetch)
    ensures r.result.Failure? ==>
      && (forall i :: 0 <= i < |r.calls| - 1 ==> fetch(batches[i]).Success?)
      && fetch(r.calls[|r.calls| - 1]) == Failure(r.result.error)
  {
    if |batches| == 0 then QueryRun([], Success([]))
    else match fetch(batches[0])
      case Failure(e) => QueryRun([batches[0]], Failure(e))
      case Success(items) =>
        var rest := FetchBatches(batches[1..], fetch);
        var calls := [batches[0]] + rest.calls;
        assert calls == batches[..|calls|] by {
          assert batches == [batches[0]] + batches[1..];
        }
        assert AllFetched(batches, fetch) <==> AllFetched(batches[1..], fetch) by {
          if AllFetched(batches[1..], fetch) {
            forall i | 0 <= i < |batches| ensures fetch(batches[i]).Success? {
              if i > 0 { assert batches[i] == batches[1..][i - 1]; }
            }
          }
        }
        match rest.result
        case Failure(e) => QueryRun(calls, Failure(e))
        case Success(more) => QueryRun(calls, Success(items + more))
  }

  /** `get_work_items_by_query`: the query's ids are fetched in consecutive
      batches of at most 200; an empty answer returns no records without a
      detail request, and a failing query makes no detail request. */
  function GetWorkItemsByQuery(query: Result<seq<int>, ApiError>,
                               fetch: seq<int> -> Result<seq<DetailItem>, ApiError>): (r: QueryRun)
    ensures query.Failure? ==> r == QueryRun([], Failure(query.error))
    ensures query.Success? && |query.value| == 0 ==> r == QueryRun([], Success([]))
    ensures query.Success? ==> Flatten(r.calls) <= query.value
    ensures forall i :: 0 <= i < |r.calls| ==> 1 <= |r.calls[i]| <= BatchSize
    ensures query.Success? && r.result.Success? ==>
      && Flatten(r.calls) == query.value
      && |r.calls| == (|query.value| + BatchSize - 1) / BatchSize
      && AllFetched(r.calls, fetch)
      && r.result.value == Gathered(r.calls, fetch)
    ensures query.Success? && r.result.Failure? ==>
      && |r.calls| >= 1
      && fetch(r.calls[|r.calls| - 1]) == Failure(r.result.error)
  {
    match query
    case Failure(e) => QueryRun([], Failure(e))
    case Success(ids) =>
      if |ids| == 0 then QueryRun([], Success([]))
      else
        var batches := Chunks(ids, BatchSize);
        ChunksCount(ids, BatchSize);
        var r := FetchBatches(batches, fetch);
        BatchedRead(ids, batches, fetch, r);
        r
  }

  /** What the batched read makes of a non-empty id list cut into
      consecutive batches of at most `BatchSize` ids. */
  lemma BatchedRead(ids: seq<int>, batches: seq<seq<int>>,
                    fetch: seq<int> -> Result<seq<DetailItem>, ApiError>, r: QueryRun)
    requires Flatten(batches) == ids
    requires forall i :: 0 <= i < |batches| ==> 1 <= |batches[i]| <= BatchSize
    requires |batches| > 0 && (|batches| - 1) * BatchSize < |ids| <= |batches| * BatchSize
    requires r == FetchBatches(batches, fetch)
    ensures Flatten(r.calls) <= ids
    ensures forall i :: 0 <= i < |r.calls| ==> 1 <= |r.calls[i]| <= BatchSize
    ensures r.result.Success? ==>
      && Flatten(r.calls) == ids
      && |r.calls| == (|ids| + BatchSize - 1) / BatchSize
      && AllFetched(r.calls, fetch)
      && r.result.value == Gathered(r.calls, fetch)
    ensures r.result.Failure? ==>
      && |r.calls| >= 1
      && fetch(r.calls[|r.calls| - 1]) == Failure(r.result.error)
  {
    assert forall i :: 0 <= i < |r.calls| ==> r.calls[i] == batches[i];
    assert Flatten(r.calls) <= ids by {
      FlattenAppend(r.calls, batches[|r.calls|..]);
      assert batches == r.calls + batches[|r.calls|..];
    }
    if r.result.Success? {
      CountIsCeiling(|batches|, |ids|);
    }
  }

  /** The number of batches is the ceiling of the id count over the batch size. */
  lemma CountIsCeiling(k: nat, len: nat)
    requires k > 0 && (k - 1) * BatchSize < len <= k * BatchSize
    ensures k == (len + BatchSize - 1) / BatchSize
  {
    Utf8.DivUnique(len + BatchSize - 1, BatchSize, k, len + BatchSize - 1 - k * BatchSize);
  }

  // ---------------------------------------------------------------------
  // Grouping by type (`get_all_work_items`)

  const TypeKey: string := "System.WorkItemType"
  const TitleKey: string := "System.Title"
  const DescriptionKey: string := "System.Description"
  const TagsKey: string := "System.Tags"
  const StateKey: string := "System.State"

  /** `fields.get(key, "")` */
  function FieldOr(fields: map<string, string>, key: string): (v: string)
    ensures key in fields ==> v == fields[key]
    ensures key !in fields ==> v == ""
  {
    if key in fields then fields[key] else ""
  }

  /** One entry of the grouped result. */
  datatype Entry = Entry(id: Option<int>, title: string, description: string, tags: string,
                         state: string, wiType: string)

  function ToEntry(item: DetailItem): Entry {
    Entry(item.id, FieldOr(item.fields, TitleKey), FieldOr(item.fields, DescriptionKey),
          FieldOr(item.fields, TagsKey), FieldOr(item.fields, StateKey), FieldOr(item.fields, TypeKey))
  }

  function TypeOf(item: DetailItem): string {
    FieldOr(item.fields, TypeKey)
  }

  /** The entries of the items of type `t`, in their order: the reference
      the grouping is checked against. */
  function OfType(items: seq<DetailItem>, t: string): (r: seq<Entry>)
    ensures |r| <= |items|
    ensures forall e :: e in r ==> e.wiType == t
  {
    if |items| == 0 then []
    else OfType(items[..|items| - 1], t) + (if TypeOf(items[|items| - 1]) == t then [ToEntry(items[|items| - 1])] else [])
  }

  /** Selecting by type commutes with concatenation, so it keeps the
      incoming order. */
  lemma {:induction false} OfTypeAppend(a: seq<DetailItem>, b: seq<DetailItem>, t: string)
    ensures OfType(a + b, t) == OfType(a, t) + OfType(b, t)
    decreases |b|
  {
    if |b| == 0 {
      assert a + b == a;
    } else {
      var b' := b[..|b| - 1];
      assert (a + b)[..|a + b| - 1] == a + b';
      assert (a + b)[|a + b| - 1] == b[|b| - 1];
      OfTypeAppend(a, b', t);
    }
  }

  /** An item's entry is in the group of its own type exactly when that is the type asked for. */
  lemma {:induction false} OfTypeMember(items: seq<DetailItem>, t: string, i: nat)
    requires i < |items|
    ensures TypeOf(items[i]) == t ==> ToEntry(items[i]) in OfType(items, t)
    ensures TypeOf(items[i]) != t ==> ToEntry(items[i]) !in OfType(items, t)
    decreases |items|
  {
    if i < |items| - 1 {
      OfTypeMember(items[..|items| - 1], t, i);
      assert items[..|items| - 1][i] == items[i];
    }
  }

  /** The three groups `get_all_work_items` returns. */
  datatype Groups = Groups(epics: seq<Entry>, features: seq<Entry>, stories: seq<Entry>)

  const Epic: string := "Epic"
  const Feature: string := "Feature"
  const UserStory: string := "User Story"

  /** Items whose type is none of the three. */
  function Others(items: seq<DetailItem>): (n: nat)
    ensures n <= |items|
  {
    if |items| == 0 then 0
    else Others(items[..|items| - 1])
         + (if TypeOf(items[|items| - 1]) in {Epic, Feature, UserStory} then 0 else 1)
  }

  /** The classification loop of `get_all_work_items`: each item becomes an
      entry with missing fields read as "", appended to the group of its
      type; items of other types are dropped. */
  method Classify(items: seq<DetailItem>) returns (g: Groups)
    ensures g.epics == OfType(items, Epic)
    ensures g.features == OfType(items, Feature)
    ensures g.stories == OfType(items, UserStory)
    ensures |g.epics| + |g.features| + |g.stories| + Others(items) == |items|
  {
    var epics, features, stories := [], [], [];
    var i := 0;
    while i < |items|
      invariant 0 <= i <= |items|
      invariant epics == OfType(items[..i], Epic)
      invariant features == OfType(items[..i], Feature)
      invariant stories == OfType(items[..i], UserStory)
      invariant |epics| + |features| + |stories| + Others(items[..i]) == i
    {
      var item := items[i];
      assert items[..i + 1][..i] == items[..i];
      var entry := ToEntry(item);
      var wit := FieldOr(item.fields, TypeKey);
      if wit == Epic {
        epics := epics + [entry];
      } else if wit == Feature {
        features := features + [entry];
      } else if wit == UserStory {
        stories := stories + [entry];
      }
      i := i + 1;
    }
    assert items[..i] == items;
    g := Groups(epics, features, stories);
  }

  // ---------------------------------------------------------------------
  // Child lookup (`get_child_work_items`)

  /** The link targets that are children: present, non-zero (Python reads 0
      as false) and not the parent itself, in link order. */
  function ChildIds(targets: seq<Option<int>>, parent: int): (r: seq<int>)
    ensures forall t :: t in r ==> t != 0 && t != parent && Some(t) in targets
    ensures forall i :: (0 <= i < |targets| && targets[i].Some? && targets[i].value != 0
                         && targets[i].value != parent) ==> targets[i].value in r
  {
    if |targets| == 0 then []
    else
      var rest := ChildIds(targets[1..], parent);
      assert forall i :: 1 <= i < |targets| ==> targets[i] == targets[1..][i - 1];
      match targets[0]
      case Some(t) => if t != 0 && t != parent then [t] + rest else rest
      case None => rest
  }

  /** Child selection keeps the relation order: it commutes with concatenation. */
  lemma {:induction false} ChildIdsAppend(a: seq<Option<int>>, b: seq<Option<int>>, parent: int)
    ensures ChildIds(a + b, parent) == ChildIds(a, parent) + ChildIds(b, parent)
  {
    if |a| == 0 {
      assert a + b == b;
    } else {
      assert (a + b)[0] == a[0];
      assert (a + b)[1..] == a[1..] + b;
      ChildIdsAppend(a[1..], b, parent);
    }
  }

  /** `get_child_work_items`: no detail request when no child remains; else
      one unbatched request for all child ids. */
  function GetChildWorkItems(links: Result<seq<Option<int>>, ApiError>, parent: int,
                             fetch: seq<int> -> Result<seq<DetailItem>, ApiError>): (r: QueryRun)
    ensures links.Failure? ==> r == QueryRun([], Failure(links.error))
    ensures links.Success? && ChildIds(links.value, parent) == [] ==> r == QueryRun([], Success([]))
    ensures links.Success? && ChildIds(links.value, parent) != [] ==>
      r.calls == [ChildIds(links.value, parent)] && r.result == fetch(ChildIds(links.value, parent))
    ensures forall c :: c in r.calls ==> parent !in c
  {
    match links
    case Failure(e) => QueryRun([], Failure(e))
    case Success(targets) =>
      var ids := ChildIds(targets, parent);
      if ids == [] then QueryRun([], Success([]))
      else QueryRun([ids], fetch(ids))
  }
}
