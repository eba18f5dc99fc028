/** The effort breakdown (commands/breakdown_export.py): epics hold
    features, features hold stories, and each story carries day estimates
    per discipline. The export sums them per discipline, in total and per
    epic. Day counts are whole numbers here; a missing estimate is 0. */
module Breakdown {
  import opened Wrappers
  import opened Strings

  /** The acceptance criteria of a story as the documents carry them: one
      string (breakdown.json), a list of strings (push_ready.json), or any
      other JSON value. A missing value reads as the empty list. */
  datatype AcceptanceCriteria =
    | AcText(text: string)
    | AcItems(items: seq<string>)
    | AcOther

  /** A story node; `None` marks a key the document does not have. */
  datatype Story = Story(
    id: Option<string>,
    title: Option<string>,
    userStory: Option<string>,
    criteria: AcceptanceCriteria,
    feDays: Option<int>,
    beDays: Option<int>,
    devopsDays: Option<int>,
    designDays: Option<int>)

  datatype Feature = Feature(id: Option<string>, name: Option<string>, stories: seq<Story>)

  datatype Epic = Epic(id: Option<string>, name: Option<string>, description: Option<string>,
                       features: seq<Feature>)

  datatype Tree = Tree(epics: seq<Epic>)

  /** `fe + be + devops + design`, each read with default 0. */
  function Effort(s: Story): int {
    s.feDays.GetOr(0) + s.beDays.GetOr(0) + s.devopsDays.GetOr(0) + s.designDays.GetOr(0)
  }

  // ---------------------------------------------------------------------
  // The stories of a tree, in document order

  function FeatureStories(fs: seq<Feature>): seq<Story> {
    if |fs| == 0 then [] else FeatureStories(fs[..|fs| - 1]) + fs[|fs| - 1].stories
  }

  function EpicStories(e: Epic): seq<Story> {
    FeatureStories(e.features)
  }

  function AllStories(es: seq<Epic>): seq<Story> {
    if |es| == 0 then [] else AllStories(es[..|es| - 1]) + EpicStories(es[|es| - 1])
  }

  lemma {:induction false} AllStoriesAppend(a: seq<Epic>, b: seq<Epic>)
    ensures AllStories(a + b) == AllStories(a) + AllStories(b)
    decreases |b|
  {
    if |b| == 0 {
      assert a + b == a;
    } else {
      var init := b[..|b| - 1];
      assert (a + b)[..|a + b| - 1] == a + init;
      assert (a + b)[|a + b| - 1] == b[|b| - 1];
      AllStoriesAppend(a, init);
      ConcatAssoc(AllStories(a), AllStories(init), EpicStories(b[|b| - 1]));
    }
  }

  lemma {:induction false} FeatureStoriesAppend(a: seq<Feature>, b: seq<Feature>)
    ensures FeatureStories(a + b) == FeatureStories(a) + FeatureStories(b)
    decreases |b|
  {
    if |b| == 0 {
      assert a + b == a;
    } else {
      var init := b[..|b| - 1];
      assert (a + b)[..|a + b| - 1] == a + init;
      assert (a + b)[|a + b| - 1] == b[|b| - 1];
      FeatureStoriesAppend(a, init);
      ConcatAssoc(FeatureStories(a), FeatureStories(init), b[|b| - 1].stories);
    }
  }

  /** Read from the front: the first feature's stories, then the rest. */
  lemma {:induction false} FeatureStoriesCons(fs: seq<Feature>)
    requires |fs| > 0
    ensures FeatureStories(fs) == fs[0].stories + FeatureStories(fs[1..])
  {
    var head := [fs[0]];
    assert head[..0] == [];
    assert FeatureStories(head) == fs[0].stories;
    assert head + fs[1..] == fs;
    FeatureStoriesAppend(head, fs[1..]);
  }

  /** Read from the front: the first epic's stories, then the rest. */
  lemma {:induction false} AllStoriesCons(es: seq<Epic>)
    requires |es| > 0
    ensures AllStories(es) == EpicStories(es[0]) + AllStories(es[1..])
  {
    var head := [es[0]];
    assert head[..0] == [];
    assert AllStories(head) == EpicStories(es[0]);
    assert head + es[1..] == es;
    AllStoriesAppend(head, es[1..]);
  }

  // ---------------------------------------------------------------------
  // Totals (`_compute_totals`)

  /** The totals dictionary: days per discipline and the story count. */
  datatype Totals = Totals(fe: int, be: int, devops: int, design: int, stories: nat)

  /** The sum of each discipline over the stories, and their number. */
  function TotalsOf(ss: seq<Story>): (t: Totals)
    ensures t.stories == |ss|
  {
    if |ss| == 0 then Totals(0, 0, 0, 0, 0)
    else
      var t := TotalsOf(ss[..|ss| - 1]);
      var s := ss[|ss| - 1];
      Totals(t.fe + s.feDays.GetOr(0), t.be + s.beDays.GetOr(0), t.devops + s.devopsDays.GetOr(0),
             t.design + s.designDays.GetOr(0), t.stories + 1)
  }

  /** The totals of two runs of stories add up discipline by discipline,
      so they do not depend on how the stories are grouped into features
      and epics. */
  lemma {:induction false} TotalsOfAppend(a: seq<Story>, b: seq<Story>)
    ensures var ta, tb := TotalsOf(a), TotalsOf(b);
      TotalsOf(a + b) == Totals(ta.fe + tb.fe, ta.be + tb.be, ta.devops + tb.devops,
                                ta.design + tb.design, ta.stories + tb.stories)
    decreases |b|
  {
    if |b| == 0 {
      assert a + b == a;
    } else {
      assert (a + b)[..|a + b| - 1] == a + b[..|b| - 1];
      TotalsOfAppend(a, b[..|b| - 1]);
    }
  }

  /** The innermost loop of `_compute_totals`: one feature's stories added
      to totals that already cover `before`. */
  method AddStories(t0: Totals, ghost before: seq<Story>, stories: seq<Story>) returns (t: Totals)
    requires t0 == TotalsOf(before)
    ensures t == TotalsOf(before + stories)
  {
    t := t0;
    var k := 0;
    assert before + stories[..0] == before;
    while k < |stories|
      invariant 0 <= k <= |stories|
      invariant t == TotalsOf(before + stories[..k])
    {
      var s := stories[k];
      assert (before + stories[..k + 1])[..|before| + k] == before + stories[..k];
      t := Totals(t.fe + s.feDays.GetOr(0), t.be + s.beDays.GetOr(0),
                  t.devops + s.devopsDays.GetOr(0), t.design + s.designDays.GetOr(0),
                  t.stories + 1);
      k := k + 1;
    }
    assert stories[..k] == stories;
  }

  /** The middle loop of `_compute_totals`: one epic's features. */
  method AddFeatures(t0: Totals, ghost before: seq<Story>, features: seq<Feature>) returns (t: Totals)
    requires t0 == TotalsOf(before)
    ensures t == TotalsOf(before + FeatureStories(features))
  {
    t := t0;
    var j := 0;
    assert before + FeatureStories(features[..0]) == before;
    while j < |features|
      invariant 0 <= j <= |features|
      invariant t == TotalsOf(before + FeatureStories(features[..j]))
    {
      ghost var done := before + FeatureStories(features[..j]);
      t := AddStories(t, done, features[j].stories);
      assert features[..j + 1][..j] == features[..j];
      assert done + features[j].stories == before + FeatureStories(features[..j + 1]);
      j := j + 1;
    }
    assert features[..j] == features;
  }

  /** `_compute_totals`: the loops over epics, features and stories, adding
      every story's estimates to the running totals. */
  method ComputeTotals(tree: Tree) returns (t: Totals)
    ensures t == TotalsOf(AllStories(tree.epics))
    ensures t.stories == |AllStories(tree.epics)|
  {
    t := Totals(0, 0, 0, 0, 0);
    var epics := tree.epics;
    var i := 0;
    while i < |epics|
      invariant 0 <= i <= |epics|
      invariant t == TotalsOf(AllStories(epics[..i]))
    {
      t := AddFeatures(t, AllStories(epics[..i]), epics[i].features);
      assert epics[..i + 1][..i] == epics[..i];
      i := i + 1;
    }
    assert epics[..i] == epics;
  }

  /** `total_days`: the four discipline totals added up. */
  function TotalDays(t: Totals): int {
    t.fe + t.be + t.devops + t.design
  }

  /** The efforts of the stories, added up. */
  function SumEffort(ss: seq<Story>): int {
    if |ss| == 0 then 0 else SumEffort(ss[..|ss| - 1]) + Effort(ss[|ss| - 1])
  }

  lemma {:induction false} SumEffortAppend(a: seq<Story>, b: seq<Story>)
    ensures SumEffort(a + b) == SumEffort(a) + SumEffort(b)
    decreases |b|
  {
    if |b| == 0 {
      assert a + b == a;
    } else {
      assert (a + b)[..|a + b| - 1] == a + b[..|b| - 1];
      SumEffortAppend(a, b[..|b| - 1]);
    }
  }

  /** Total days over the disciplines is the sum of the stories' efforts:
      the figure the summary prints is the one push sends per story, added up. */
  lemma {:induction false} TotalDaysIsSumOfEfforts(ss: seq<Story>)
    ensures TotalDays(TotalsOf(ss)) == SumEffort(ss)
  {
    if |ss| > 0 {
      TotalDaysIsSumOfEfforts(ss[..|ss| - 1]);
    }
  }

  // ---------------------------------------------------------------------
  // Per-epic lines of `_print_summary`

  /** One "By epic" line: the name (default "?"), the story count and the days. */
  datatype EpicLine = EpicLine(name: string, stories: nat, days: int)

  function EpicSummary(e: Epic): (l: EpicLine)
    ensures l.stories == |EpicStories(e)|
    ensures l.days == SumEffort(EpicStories(e))
  {
    EpicLine(e.name.GetOr("?"), |EpicStories(e)|, SumEffort(EpicStories(e)))
  }

  function SumLineDays(es: seq<Epic>): int {
    if |es| == 0 then 0 else SumLineDays(es[..|es| - 1]) + EpicSummary(es[|es| - 1]).days
  }

  function SumLineStories(es: seq<Epic>): nat {
    if |es| == 0 then 0 else SumLineStories(es[..|es| - 1]) + EpicSummary(es[|es| - 1]).stories
  }

  /** Each epic counts only its own stories, so the epic lines add up to the
      grand totals. */
  lemma {:induction false} EpicLinesAddUp(es: seq<Epic>)
    ensures SumLineDays(es) == TotalDays(TotalsOf(AllStories(es)))
    ensures SumLineStories(es) == TotalsOf(AllStories(es)).stories
  {
    TotalDaysIsSumOfEfforts(AllStories(es));
    if |es| > 0 {
      EpicLinesAddUp(es[..|es| - 1]);
      TotalDaysIsSumOfEfforts(AllStories(es[..|es| - 1]));
      SumEffortAppend(AllStories(es[..|es| - 1]), EpicStories(es[|es| - 1]));
    }
  }

  // ---------------------------------------------------------------------
  // The counts push announces

  /** `total_stories` of push: per epic, per feature, the length of its story list. */
  function StoryCount(es: seq<Epic>): nat {
    if |es| == 0 then 0 else FeatureStoryCount(es[0].features) + StoryCount(es[1..])
  }

  function FeatureStoryCount(fs: seq<Feature>): nat {
    if |fs| == 0 then 0 else |fs[0].stories| + FeatureStoryCount(fs[1..])
  }

  /** `total_features` of push. */
  function FeatureCount(es: seq<Epic>): nat {
    if |es| == 0 then 0 else |es[0].features| + FeatureCount(es[1..])
  }

  lemma {:induction false} FeatureStoryCountIsLength(fs: seq<Feature>)
    ensures FeatureStoryCount(fs) == |FeatureStories(fs)|
  {
    if |fs| > 0 {
      FeatureStoryCountIsLength(fs[1..]);
      FeatureStoriesAppend([fs[0]], fs[1..]);
      assert [fs[0]] + fs[1..] == fs;
      assert FeatureStories([fs[0]]) == FeatureStories([]) + fs[0].stories;
    }
  }

  /** The count push announces is the number of stories the export totals. */
  lemma {:induction false} StoryCountIsTotal(es: seq<Epic>)
    ensures StoryCount(es) == |AllStories(es)|
    ensures StoryCount(es) == TotalsOf(AllStories(es)).stories
  {
    if |es| > 0 {
      StoryCountIsTotal(es[1..]);
      FeatureStoryCountIsLength(es[0].features);
      AllStoriesAppend([es[0]], es[1..]);
      assert [es[0]] + es[1..] == es;
      assert AllStories([es[0]]) == AllStories([]) + EpicStories(es[0]);
    }
  }

  // ---------------------------------------------------------------------
  // Loading (`_load_breakdown`)

  /** A JSON file on disk: absent, not parsable, or parsed into an object
      with the given top-level keys, read as a tree (a missing "epics" key
      reads as no epics). */
  datatype JsonFile =
    | Missing
    | Unparsable
    | Parsed(keys: set<string>, tree: Tree)

  /** `_load_breakdown`: the tree when the file exists, parses and has an
      "epics" key; `None` otherwise. */
  function LoadBreakdown(f: JsonFile): (r: Option<Tree>)
    ensures r.Some? <==> f.Parsed? && "epics" in f.keys
    ensures r.Some? ==> r.value == f.tree
  {
    match f
    case Parsed(keys, tree) => if "epics" in keys then Some(tree) else None
    case _ => None
  }
}
