/** `push.run` (commands/push.py): the breakdown tree is written to Azure
    DevOps depth first, left to right, one `create_work_item` call per epic,
    feature and story, each story followed by its discipline tasks; the ids
    the service returns link children to parents and fill the mapping file.

    The service is a parameter: `create(k)` is the outcome of the k-th create
    call (from 0) of the run. The console, the confirmation prompt and the
    file writes are left out; the confirmation is an input flag and the
    mapping is part of the result. */
module Push {
  import opened Wrappers
  import opened Strings
  import Transport
  import Patches
  import opened Breakdown

  // ---------------------------------------------------------------------
  // Requests

  datatype WorkItemType = EpicItem | FeatureItem | StoryItem | TaskItem

  /** The work item type as the service names it. */
  function TypeName(t: WorkItemType): string {
    match t
    case EpicItem => "Epic"
    case FeatureItem => "Feature"
    case StoryItem => "User Story"
    case TaskItem => "Task"
  }

  /** The arguments of one `create_work_item` call. */
  datatype Request = Request(
    wiType: WorkItemType,
    title: string,
    description: string,
    tags: string,
    parent: Option<int>,
    extra: seq<(string, Patches.FieldValue)>)

  /** The patch document the call sends. */
  function PatchOf(organization: string, r: Request): (ops: seq<Patches.PatchOp>)
    ensures |ops| == 1 + (if r.description != "" then 1 else 0) + (if r.tags != "" then 1 else 0)
                       + (if r.parent.Some? then 1 else 0) + |r.extra|
    ensures ops[0] == Patches.Add(Patches.TitlePath, Patches.Field(Patches.Text(r.title)))
  {
    Patches.CreatePatch(organization, r.title, r.description, r.tags, r.parent, r.extra)
  }

  /** What one create call produced: the new item's id (`result.get("id")`),
      or the error `_api_request` raised. */
  datatype Outcome = Created(id: Option<int>) | Failed(error: Transport.ApiError)

  function IdOf(o: Outcome): Option<int> {
    if o.Created? then o.id else None
  }

  const EffortField: string := "Microsoft.VSTS.Scheduling.Effort"
  const AcceptanceField: string := "Microsoft.VSTS.Common.AcceptanceCriteria"
  const PresalesTag: string := "presales"

  // ---------------------------------------------------------------------
  // Names, keys and defaults

  function EpicName(e: Epic): string { e.name.GetOr("Unknown Epic") }
  function FeatureName(f: Feature): string { f.name.GetOr("Unknown Feature") }
  function StoryTitle(s: Story): string { s.title.GetOr("Unknown Story") }

  /** Mapping keys: the node's id, or else its name. */
  function EpicKey(e: Epic): string { e.id.GetOr(EpicName(e)) }
  function FeatureKey(f: Feature): string { f.id.GetOr(FeatureName(f)) }

  /** A story's id: its own, or "US-" and its 1-based position in the walk,
      zero-padded to three digits. */
  function StoryId(s: Story, index: nat): string {
    match s.id
    case Some(id) => id
    case None => "US-" + PadLeft(NatToString(index), 3, '0')
  }

  /** A story keeps its own id; otherwise its id is "US-" and digits that
      read back as the running number, six characters below 1000. */
  lemma StoryIdFormat(s: Story, index: nat)
    ensures var r := StoryId(s, index);
      && (s.id.Some? ==> r == s.id.value)
      && (s.id.None? ==> StartsWith(r, "US-") && |r| >= 6 && AllDigits(r[3..]) && ParseNat(r[3..]) == index)
      && (s.id.None? && index < 1000 ==> |r| == 6)
  {
    if s.id.None? {
      var digits := NatToString(index);
      var padded := PadLeft(digits, 3, '0');
      var r := "US-" + padded;
      assert r[3..] == padded;
      PaddedDigits(digits, 3);
      ParseNatToString(index);
    }
  }


  /** Zero-padding keeps a decimal numeral's value. */
  lemma {:induction false} PaddedDigits(digits: string, width: nat)
    requires AllDigits(digits) && |digits| >= 1
    ensures AllDigits(PadLeft(digits, width, '0'))
    ensures ParseNat(PadLeft(digits, width, '0')) == ParseNat(digits)
    decreases width - |digits|
  {
    if |digits| < width {
      var longer := ['0'] + digits;
      assert longer[1..] == digits;
      LeadingZero(digits);
      PaddedDigits(longer, width);
    }
  }

  /** A leading zero does not change a numeral's value. */
  lemma {:induction false} LeadingZero(digits: string)
    requires |digits| >= 1 && AllDigits(digits)
    ensures AllDigits(['0'] + digits)
    ensures ParseNat(['0'] + digits) == ParseNat(digits)
    decreases |digits|
  {
    var z := ['0'] + digits;
    assert z[..|z| - 1] == ['0'] + digits[..|digits| - 1];
    assert z[|z| - 1] == digits[|digits| - 1];
    if |digits| > 1 {
      LeadingZero(digits[..|digits| - 1]);
    } else {
      assert z[..|z| - 1] == "0";
    }
  }

  /** The user story text: the story's own, or one derived from its title. */
  function UserStoryText(s: Story): string {
    s.userStory.GetOr("As a user, I want to " + LowerAscii(StoryTitle(s)) + ".")
  }

  // ---------------------------------------------------------------------
  // Tags

  /** "presales;" followed by the given parts, separated by ";". */
  function Tags(parts: seq<string>): (r: string)
    ensures StartsWith(r, PresalesTag)
  {
    Join([PresalesTag] + parts, ';')
  }

  /** The tag string splits back into "presales" and its parts when no part
      holds a ";". */
  lemma TagsSplit(parts: seq<string>)
    requires forall i :: 0 <= i < |parts| ==> ';' !in parts[i]
    ensures Split(Tags(parts), ';') == [PresalesTag] + parts
  {
    var all := [PresalesTag] + parts;
    forall i | 0 <= i < |all| ensures ';' !in all[i] {
      if i > 0 { assert all[i] == parts[i - 1]; }
    }
    SplitJoin(all, ';');
  }

  // ---------------------------------------------------------------------
  // HTML

  /** `"".join(f"<li>{x}</li>" for x in xs)` */
  function ListItems(xs: seq<string>): (r: string)
    ensures |xs| == 0 ==> r == ""
  {
    if |xs| == 0 then "" else "<li>" + xs[0] + "</li>" + ListItems(xs[1..])
  }

  /** Where the `i`-th element starts in the list of `xs`. */
  function ItemStart(xs: seq<string>, i: int): (n: nat)
    requires 0 <= i <= |xs|
    ensures n <= |ListItems(xs)|
  {
    ListItemsCut(xs, i);
    |ListItems(xs[..i])|
  }

  /** Where the `i`-th element ends: where the next one starts, an element
      of 9 characters more than its label, inside the list. */
  function ItemEnd(xs: seq<string>, i: int): (n: nat)
    requires 0 <= i < |xs|
    ensures n == ItemStart(xs, i + 1)
    ensures n == ItemStart(xs, i) + |xs[i]| + 9 && n <= |ListItems(xs)|
  {
    ListItemsSplit(xs, i);
    ListItemsOne(xs[i]);
    |ListItems(xs[..i + 1])|
  }

  lemma {:induction false} ListItemsAppend(xs: seq<string>, ys: seq<string>)
    ensures ListItems(xs + ys) == ListItems(xs) + ListItems(ys)
  {
    if |xs| > 0 {
      assert (xs + ys)[0] == xs[0];
      assert (xs + ys)[1..] == xs[1..] + ys;
      ListItemsAppend(xs[1..], ys);
    } else {
      assert xs + ys == ys;
    }
  }

  /** The list of `xs` cut before its `i`-th element. */
  lemma ListItemsCut(xs: seq<string>, i: int)
    requires 0 <= i <= |xs|
    ensures ListItems(xs) == ListItems(xs[..i]) + ListItems(xs[i..])
  {
    assert xs == xs[..i] + xs[i..];
    ListItemsAppend(xs[..i], xs[i..]);
  }

  lemma ListItemsOne(x: string)
    ensures ListItems([x]) == "<li>" + x + "</li>"
  {
    assert [x][1..] == [];
  }

  /** The list of `xs` cut around its `i`-th element. */
  lemma ListItemsSplit(xs: seq<string>, i: int)
    requires 0 <= i < |xs|
    ensures ListItems(xs[..i + 1]) == ListItems(xs[..i]) + ListItems([xs[i]])
    ensures ListItems(xs) == ListItems(xs[..i + 1]) + ListItems(xs[i + 1..])
  {
    TakeSnoc(xs, i);
    ListItemsAppend(xs[..i], [xs[i]]);
    ListItemsCut(xs, i + 1);
  }

  /** The `i`-th label, whatever it holds, fills its own `<li>` element,
      right after the elements of the labels before it. */
  lemma ListItemSlot(xs: seq<string>, i: int)
    requires 0 <= i < |xs|
    ensures ListItems(xs)[ItemStart(xs, i) .. ItemEnd(xs, i)] == "<li>" + xs[i] + "</li>"
  {
    ListItemsSplit(xs, i);
    ListItemsOne(xs[i]);
    var before, elem, after := ListItems(xs[..i]), ListItems([xs[i]]), ListItems(xs[i + 1..]);
    assert ListItems(xs) == before + elem + after;
    assert (before + elem + after)[|before| .. |before| + |elem|] == elem;
  }

  /** The list is the labels' elements one after the other, and nothing else. */
  lemma ListItemsSlots(xs: seq<string>)
    ensures ItemStart(xs, |xs|) == |ListItems(xs)|
    ensures forall i :: 0 <= i < |xs| ==>
      ListItems(xs)[ItemStart(xs, i) .. ItemEnd(xs, i)] == "<li>" + xs[i] + "</li>"
  {
    assert xs[..|xs|] == xs;
    forall i | 0 <= i < |xs|
      ensures ListItems(xs)[ItemStart(xs, i) .. ItemEnd(xs, i)] == "<li>" + xs[i] + "</li>"
    {
      ListItemSlot(xs, i);
    }
  }

  /** A label holding markup can pass for two: the list alone does not tell
      which labels built it, so it reads back only for labels without "<". */
  lemma ListItemsAmbiguous()
    ensures ListItems(["a</li><li>b"]) == ListItems(["a", "b"])
  {
    var one, two := ["a</li><li>b"], ["a", "b"];
    assert one[1..] == [] && two[1..] == ["b"] && two[1..][1..] == [];
  }

  /** The index of the first `c` in `s`, or `|s|`. */
  function IndexOf(s: string, c: char): (n: nat)
    ensures n <= |s|
    ensures c !in s[..n]
    ensures n < |s| ==> s[n] == c
  {
    if |s| == 0 then 0
    else if s[0] == c then 0
    else
      var n := IndexOf(s[1..], c);
      assert s[..n + 1] == [s[0]] + s[1..][..n];
      n + 1
  }

  /** Reads back a run of `<li>…</li>` elements whose contents hold no "<". */
  function ParseItems(s: string): Option<seq<string>>
    decreases |s|
  {
    if |s| == 0 then Some([])
    else if !StartsWith(s, "<li>") then None
    else
      var body := s[4..];
      var n := IndexOf(body, '<');
      if !StartsWith(body[n..], "</li>") then None
      else match ParseItems(body[n + 5..])
        case None => None
        case Some(rest) => Some([body[..n]] + rest)
  }

  lemma ParseItem(x: string, rest: string)
    requires '<' !in x
    ensures var body := ("<li>" + x + "</li>" + rest)[4..];
      && IndexOf(body, '<') == |x|
      && StartsWith(body[|x|..], "</li>")
      && body[..|x|] == x
      && body[|x| + 5..] == rest
  {
    var s := "<li>" + x + "</li>" + rest;
    var body := s[4..];
    assert body == x + "</li>" + rest;
    assert body[..|x|] == x;
    assert body[|x|] == '<';
  }

  /** One element at the front of a list reads back as its content. */
  lemma ParseItemsCons(x: string, rest: string)
    requires '<' !in x
    ensures ParseItems("<li>" + x + "</li>" + rest)
         == match ParseItems(rest) case None => None case Some(more) => Some([x] + more)
  {
    var s := "<li>" + x + "</li>" + rest;
    assert StartsWith(s, "<li>");
    ParseItem(x, rest);
  }

  /** The list items read back as the strings they were built from. */
  lemma {:induction false} ParseListItems(xs: seq<string>)
    requires forall i :: 0 <= i < |xs| ==> '<' !in xs[i]
    ensures ParseItems(ListItems(xs)) == Some(xs)
  {
    if |xs| > 0 {
      var rest := ListItems(xs[1..]);
      assert ListItems(xs) == "<li>" + xs[0] + "</li>" + rest;
      ParseListItems(xs[1..]);
      ParseItemsCons(xs[0], rest);
      assert [xs[0]] + xs[1..] == xs;
    }
  }

  /** The epic's description: its name, its description and the list of its
      feature names ("?" for a feature without one). */
  function EpicHtml(e: Epic): string {
    "<h3>" + EpicName(e) + "</h3>" + "<p>" + e.description.GetOr("") + "</p>"
    + "<p><b>Features:</b></p><ul>" + ListItems(FeatureLabels(e.features)) + "</ul>"
  }

  function FeatureLabels(fs: seq<Feature>): (r: seq<string>)
    ensures |r| == |fs|
    ensures forall i :: 0 <= i < |fs| ==> r[i] == fs[i].name.GetOr("?")
  {
    seq(|fs|, i requires 0 <= i < |fs| => fs[i].name.GetOr("?"))
  }

  /** The feature's description: its name and the list of its story titles
      ("?" for a story without one). */
  function FeatureHtml(f: Feature): string {
    "<h4>" + FeatureName(f) + "</h4>" + "<p><b>Stories:</b></p><ul>" + ListItems(StoryLabels(f.stories)) + "</ul>"
  }

  function StoryLabels(ss: seq<Story>): (r: seq<string>)
    ensures |r| == |ss|
    ensures forall i :: 0 <= i < |ss| ==> r[i] == ss[i].title.GetOr("?")
  {
    seq(|ss|, i requires 0 <= i < |ss| => ss[i].title.GetOr("?"))
  }

  /** Everything between a fixed opening and a fixed closing text. */
  function Between(s: string, open: string, close: string): (r: Option<string>)
    ensures r.Some? ==> s == open + r.value + close
  {
    if |open| + |close| <= |s| && s[..|open|] == open && s[|s| - |close|..] == close then
      var inner := s[|open| .. |s| - |close|];
      assert s == s[..|open|] + inner + s[|s| - |close|..];
      Some(inner)
    else None
  }

  lemma BetweenOf(open: string, inner: string, close: string)
    ensures Between(open + inner + close, open, close) == Some(inner)
  {
    var s := open + inner + close;
    assert s[..|open|] == open;
    assert s[|s| - |close|..] == close;
    assert s[|open| .. |s| - |close|] == inner;
  }

  /** The epic's description holds, between its header and "</ul>", one
      element per feature, in order, with the feature's name (or "?"),
      whatever the name holds; without a "<" in any name, the list reads
      back as exactly those names. */
  lemma EpicHtmlListsFeatures(e: Epic)
    ensures var head := "<h3>" + EpicName(e) + "</h3>" + "<p>" + e.description.GetOr("") + "</p>"
                        + "<p><b>Features:</b></p><ul>";
      var labels := FeatureLabels(e.features);
      && Between(EpicHtml(e), head, "</ul>") == Some(ListItems(labels))
      && (forall i :: 0 <= i < |e.features| ==>
            ListItems(labels)[ItemStart(labels, i) .. ItemEnd(labels, i)]
               == "<li>" + e.features[i].name.GetOr("?") + "</li>")
      && ((forall i :: 0 <= i < |e.features| ==> '<' !in e.features[i].name.GetOr("?"))
            ==> ParseItems(ListItems(labels)) == Some(labels))
  {
    var head := "<h3>" + EpicName(e) + "</h3>" + "<p>" + e.description.GetOr("") + "</p>"
                + "<p><b>Features:</b></p><ul>";
    var labels := FeatureLabels(e.features);
    BetweenOf(head, ListItems(labels), "</ul>");
    ListItemsSlots(labels);
    if forall i :: 0 <= i < |e.features| ==> '<' !in e.features[i].name.GetOr("?") {
      ParseListItems(labels);
    }
  }

  /** The feature's description holds, between its header and "</ul>", one
      element per story, in order, with the story's title (or "?"),
      whatever the title holds; without a "<" in any title, the list reads
      back as exactly those titles. */
  lemma FeatureHtmlListsStories(f: Feature)
    ensures var head := "<h4>" + FeatureName(f) + "</h4>" + "<p><b>Stories:</b></p><ul>";
      var labels := StoryLabels(f.stories);
      && Between(FeatureHtml(f), head, "</ul>") == Some(ListItems(labels))
      && (forall i :: 0 <= i < |f.stories| ==>
            ListItems(labels)[ItemStart(labels, i) .. ItemEnd(labels, i)]
               == "<li>" + f.stories[i].title.GetOr("?") + "</li>")
      && ((forall i :: 0 <= i < |f.stories| ==> '<' !in f.stories[i].title.GetOr("?"))
            ==> ParseItems(ListItems(labels)) == Some(labels))
  {
    var head := "<h4>" + FeatureName(f) + "</h4>" + "<p><b>Stories:</b></p><ul>";
    var labels := StoryLabels(f.stories);
    BetweenOf(head, ListItems(labels), "</ul>");
    ListItemsSlots(labels);
    if forall i :: 0 <= i < |f.stories| ==> '<' !in f.stories[i].title.GetOr("?") {
      ParseListItems(labels);
    }
  }

  const StoryHead: string := "<p><em>"
  const EpicRowHead: string := "</em></p>\n\n<table>\n<tr><td><b>Epic</b></td><td>"
  const FeatureRowHead: string := "</td></tr>\n<tr><td><b>Feature</b></td><td>"
  const StoryTail: string := "</td></tr>\n</table>"

  /** `_build_story_description`: the user story in emphasis, then a table
      naming the epic and the feature. The template starts with "<" and ends
      with ">", so the final `.strip()` removes nothing. */
  function StoryDescription(userStory: string, epic: string, feature: string): string {
    StoryHead + userStory + EpicRowHead + epic + FeatureRowHead + feature + StoryTail
  }

  /** The three values sit at fixed offsets: each can be read back. */
  lemma StoryDescriptionFields(userStory: string, epic: string, feature: string)
    ensures var d := StoryDescription(userStory, epic, feature);
      var a := |StoryHead|;
      var b := a + |userStory| + |EpicRowHead|;
      var c := b + |epic| + |FeatureRowHead|;
      && |d| == c + |feature| + |StoryTail|
      && d[a .. a + |userStory|] == userStory
      && d[b .. b + |epic|] == epic
      && d[c .. c + |feature|] == feature
      && StartsWith(d, StoryHead) && EndsWith(d, StoryTail)
  {
    var d := StoryDescription(userStory, epic, feature);
    var a := |StoryHead|;
    var b := a + |userStory| + |EpicRowHead|;
    var c := b + |epic| + |FeatureRowHead|;
    assert d == StoryHead + userStory + EpicRowHead + epic + FeatureRowHead + feature + StoryTail;
    assert d[a .. a + |userStory|] == userStory;
    assert d[b .. b + |epic|] == epic;
    assert d[c .. c + |feature|] == feature;
    assert d[..|StoryHead|] == StoryHead;
    assert d[|d| - |StoryTail|..] == StoryTail;
  }

  const Placeholder: string := "<p>To be defined when designs are ready.</p>"

  /** The non-empty strings of `xs`, in order. */
  function NonEmpty(xs: seq<string>): (r: seq<string>)
    ensures |r| <= |xs|
    ensures forall i :: 0 <= i < |r| ==> r[i] != "" && r[i] in xs
    ensures forall i :: 0 <= i < |xs| && xs[i] != "" ==> xs[i] in r
    ensures multiset(r) == multiset(xs)["" := 0]
  {
    if |xs| == 0 then []
    else
      var rest := NonEmpty(xs[1..]);
      assert forall i :: 1 <= i < |xs| ==> xs[i] == xs[1..][i - 1];
      assert xs == [xs[0]] + xs[1..];
      if xs[0] != "" then [xs[0]] + rest else rest
  }

  /** A single item is kept exactly when it is non-empty. */
  lemma NonEmptyOne(x: string)
    ensures NonEmpty([x]) == if x != "" then [x] else []
  {
  }

  /** The filter works item by item: the kept items of `a + b` are those
      of `a` followed by those of `b`, so order and repeats are kept. */
  lemma {:induction false} NonEmptyAppend(a: seq<string>, b: seq<string>)
    ensures NonEmpty(a + b) == NonEmpty(a) + NonEmpty(b)
    decreases |a|
  {
    if |a| > 0 {
      assert (a + b)[0] == a[0];
      assert (a + b)[1..] == a[1..] + b;
      NonEmptyAppend(a[1..], b);
    } else {
      assert a + b == b;
    }
  }

  /** With no empty item, nothing is dropped. */
  lemma {:induction false} NonEmptyKeepsAll(xs: seq<string>)
    requires forall i :: 0 <= i < |xs| ==> xs[i] != ""
    ensures NonEmpty(xs) == xs
    decreases |xs|
  {
    if |xs| > 0 {
      assert forall i :: 0 <= i < |xs| - 1 ==> xs[1..][i] == xs[i + 1];
      NonEmptyKeepsAll(xs[1..]);
      assert xs == [xs[0]] + xs[1..];
    }
  }

  /** `_build_ac_html` */
  function AcHtml(ac: AcceptanceCriteria): (r: string)
    ensures ac.AcText? ==> r == "<p>" + ac.text + "</p>"
    ensures ac.AcItems? && |ac.items| > 0 ==> r == "<ol>" + ListItems(NonEmpty(ac.items)) + "</ol>"
    ensures (ac.AcOther? || ac == AcItems([])) ==> r == Placeholder
  {
    match ac
    case AcText(t) => "<p>" + t + "</p>"
    case AcItems(items) => if |items| > 0 then "<ol>" + ListItems(NonEmpty(items)) + "</ol>" else Placeholder
    case AcOther => Placeholder
  }

  /** A non-empty list becomes, between "<ol>" and "</ol>", one element per
      non-empty item, in order, whatever the item holds; without a "<" in
      any item, the list reads back as exactly those items. */
  lemma AcHtmlItems(items: seq<string>)
    requires |items| > 0
    ensures var kept := NonEmpty(items);
      && Between(AcHtml(AcItems(items)), "<ol>", "</ol>") == Some(ListItems(kept))
      && (forall i :: 0 <= i < |kept| ==>
            ListItems(kept)[ItemStart(kept, i) .. ItemEnd(kept, i)] == "<li>" + kept[i] + "</li>")
      && ((forall i :: 0 <= i < |items| ==> '<' !in items[i])
            ==> ParseItems(ListItems(kept)) == Some(kept))
  {
    var kept := NonEmpty(items);
    BetweenOf("<ol>", ListItems(kept), "</ol>");
    ListItemsSlots(kept);
    if forall i :: 0 <= i < |items| ==> '<' !in items[i] {
      forall i | 0 <= i < |kept| ensures '<' !in kept[i] {
        var j :| 0 <= j < |items| && items[j] == kept[i];
      }
      ParseListItems(kept);
    }
  }

  // ---------------------------------------------------------------------
  // Tasks (`_create_tasks`)

  /** The disciplines that get a task, in order, with their days (default 0). */
  function Disciplines(s: Story): seq<(string, int)> {
    [("FE", s.feDays.GetOr(0)), ("BE", s.beDays.GetOr(0)), ("DevOps", s.devopsDays.GetOr(0))]
  }

  function TaskRequest(project: string, parent: Option<int>, title: string, prefix: string, days: int): Request {
    Request(TaskItem, "[" + prefix + "] " + title, "", Tags([project]), parent, [(EffortField, Patches.Number(days))])
  }

  /** One task per listed discipline with a positive number of days. */
  function TaskRequests(project: string, parent: Option<int>, title: string, ds: seq<(string, int)>): (r: seq<Request>)
    ensures |r| <= |ds|
  {
    if |ds| == 0 then []
    else
      (if ds[0].1 > 0 then [TaskRequest(project, parent, title, ds[0].0, ds[0].1)] else [])
      + TaskRequests(project, parent, title, ds[1..])
  }

  function When(b: bool, r: Request): seq<Request> {
    if b then [r] else []
  }

  /** `_create_tasks`: an FE, a BE and a DevOps task, in that order, each
      only when its days are positive; never one for design. Every task is a
      child of the story and carries its days as effort. */
  function CreateTasks(project: string, parent: Option<int>, s: Story): (r: seq<Request>)
    ensures r == When(s.feDays.GetOr(0) > 0, TaskRequest(project, parent, StoryTitle(s), "FE", s.feDays.GetOr(0)))
               + When(s.beDays.GetOr(0) > 0, TaskRequest(project, parent, StoryTitle(s), "BE", s.beDays.GetOr(0)))
               + When(s.devopsDays.GetOr(0) > 0, TaskRequest(project, parent, StoryTitle(s), "DevOps", s.devopsDays.GetOr(0)))
  {
    var ds := Disciplines(s);
    var title := StoryTitle(s);
    var fe := When(s.feDays.GetOr(0) > 0, TaskRequest(project, parent, title, "FE", s.feDays.GetOr(0)));
    var be := When(s.beDays.GetOr(0) > 0, TaskRequest(project, parent, title, "BE", s.beDays.GetOr(0)));
    var devops := When(s.devopsDays.GetOr(0) > 0, TaskRequest(project, parent, title, "DevOps", s.devopsDays.GetOr(0)));
    assert TaskRequests(project, parent, title, ds[1..][1..][1..]) == [];
    assert TaskRequests(project, parent, title, ds[1..][1..]) == devops;
    assert TaskRequests(project, parent, title, ds[1..]) == be + devops;
    TaskRequests(project, parent, title, ds)
  }

  /** Every task is a child of the story, tagged with the project only,
      and none is a design task. */
  lemma CreateTasksShape(project: string, parent: Option<int>, s: Story)
    ensures var r := CreateTasks(project, parent, s);
      forall i :: 0 <= i < |r| ==>
        && r[i].wiType == TaskItem && r[i].parent == parent && r[i].tags == Tags([project])
        && r[i].title != "[Design] " + StoryTitle(s)
  {
    var title := StoryTitle(s);
    var fe := When(s.feDays.GetOr(0) > 0, TaskRequest(project, parent, title, "FE", s.feDays.GetOr(0)));
    var be := When(s.beDays.GetOr(0) > 0, TaskRequest(project, parent, title, "BE", s.beDays.GetOr(0)));
    var devops := When(s.devopsDays.GetOr(0) > 0, TaskRequest(project, parent, title, "DevOps", s.devopsDays.GetOr(0)));
    var r := CreateTasks(project, parent, s);
    forall i | 0 <= i < |r|
      ensures r[i].wiType == TaskItem && r[i].parent == parent && r[i].tags == Tags([project])
      ensures r[i].title != "[Design] " + title
    {
      if i < |fe| {
        assert r[i] == fe[i];
        NotDesignTitle("FE", title);
      } else if i < |fe| + |be| {
        assert r[i] == be[i - |fe|];
        NotDesignTitle("BE", title);
      } else {
        assert r[i] == devops[i - |fe| - |be|];
        NotDesignTitle("DevOps", title);
      }
    }
  }


  lemma NotDesignTitle(prefix: string, title: string)
    requires prefix in ["FE", "BE", "DevOps"]
    ensures "[" + prefix + "] " + title != "[Design] " + title
  {
    assert ("[" + prefix + "] " + title)[3] != ("[Design] " + title)[3];
  }

  // ---------------------------------------------------------------------
  // The request plan: what a run asks for, before ids are known

  /** The request with its parent link removed. */
  function Unparent(r: Request): Request {
    r.(parent := None)
  }

  function Unparented(cs: seq<Request>): (r: seq<Request>)
    ensures |r| == |cs|
    ensures forall i :: 0 <= i < |cs| ==> r[i] == Unparent(cs[i])
  {
    if |cs| == 0 then [] else [Unparent(cs[0])] + Unparented(cs[1..])
  }

  lemma UnparentedAppend(a: seq<Request>, b: seq<Request>)
    ensures Unparented(a + b) == Unparented(a) + Unparented(b)
  {
  }

  function EpicRequest(project: string, e: Epic): Request {
    Request(EpicItem, EpicName(e), EpicHtml(e), Tags([project]), None, [])
  }

  function FeatureRequest(project: string, epicName: string, f: Feature): Request {
    Request(FeatureItem, FeatureName(f), FeatureHtml(f), Tags([project, epicName]), None, [])
  }

  /** The story call: its effort is the sum of the four disciplines and its
      acceptance criteria are rendered as HTML. */
  function StoryRequest(project: string, epicName: string, featureName: string, s: Story): (r: Request)
    ensures r.extra == [(EffortField, Patches.Number(Effort(s))), (AcceptanceField, Patches.Text(AcHtml(s.criteria)))]
  {
    Request(StoryItem, StoryTitle(s), StoryDescription(UserStoryText(s), epicName, featureName),
            Tags([project, epicName, featureName]), None,
            [(EffortField, Patches.Number(Effort(s))), (AcceptanceField, Patches.Text(AcHtml(s.criteria)))])
  }

  function PlanStory(project: string, epicName: string, featureName: string, s: Story): seq<Request> {
    [StoryRequest(project, epicName, featureName, s)] + CreateTasks(project, None, s)
  }

  function PlanStories(project: string, epicName: string, featureName: string, ss: seq<Story>): seq<Request> {
    if |ss| == 0 then []
    else PlanStory(project, epicName, featureName, ss[0]) + PlanStories(project, epicName, featureName, ss[1..])
  }

  function PlanFeature(project: string, epicName: string, f: Feature): seq<Request> {
    [FeatureRequest(project, epicName, f)] + PlanStories(project, epicName, FeatureName(f), f.stories)
  }

  function PlanFeatures(project: string, epicName: string, fs: seq<Feature>): seq<Request> {
    if |fs| == 0 then []
    else PlanFeature(project, epicName, fs[0]) + PlanFeatures(project, epicName, fs[1..])
  }

  function PlanEpic(project: string, e: Epic): seq<Request> {
    [EpicRequest(project, e)] + PlanFeatures(project, EpicName(e), e.features)
  }

  /** Every request of a full run, in order: depth first, left to right. */
  function PlanEpics(project: string, es: seq<Epic>): seq<Request> {
    if |es| == 0 then []
    else PlanEpic(project, es[0]) + PlanEpics(project, es[1..])
  }

  // ---------------------------------------------------------------------
  // The walk

  /** A created story as the mapping file records it. */
  datatype StoryEntry = StoryEntry(adoId: Option<int>, id: string, title: string, epic: string, feature: string)

  /** `created`: epic and feature keys to their new ids, and the stories. */
  datatype Mapping = Mapping(epics: map<string, Option<int>>, features: map<string, Option<int>>,
                             stories: seq<StoryEntry>)

  /** The calls made so far, the mapping and `story_index`. */
  datatype State = State(calls: seq<Request>, mapping: Mapping, storyIndex: nat)

  /** A walk goes on, or stops at the first epic, feature or story whose
      creation raised: that exception is not caught. */
  datatype Walk = Walking(st: State) | Aborted(failedCalls: seq<Request>, error: Transport.ApiError) {
    function Calls(): seq<Request> {
      if Walking? then st.calls else failedCalls
    }
  }

  /** The run's parameters: the project name, the dry-run flag and the
      outcome of each create call by its position in the run. */
  datatype Env = Env(project: string, dryRun: bool, create: nat -> Outcome)

  /** The id the latest call of type `t` returned, if there was such a call. */
  function LastId(calls: seq<Request>, create: nat -> Outcome, t: WorkItemType): Option<Option<int>> {
    if |calls| == 0 then None
    else if calls[|calls| - 1].wiType == t then Some(IdOf(create(|calls| - 1)))
    else LastId(calls[..|calls| - 1], create, t)
  }

  function ParentType(t: WorkItemType): Option<WorkItemType> {
    match t
    case EpicItem => None
    case FeatureItem => Some(EpicItem)
    case StoryItem => Some(FeatureItem)
    case TaskItem => Some(StoryItem)
  }

  /** A call is linked when its parent is the id the latest call of the
      parent type returned; an epic has no parent. */
  predicate ParentOk(before: seq<Request>, create: nat -> Outcome, r: Request) {
    match ParentType(r.wiType)
    case None => r.parent == None
    case Some(p) => LastId(before, create, p) == Some(r.parent)
  }

  /** Every call of the trace is linked. */
  ghost predicate Linked(calls: seq<Request>, create: nat -> Outcome) {
    |calls| == 0
    || (Linked(calls[..|calls| - 1], create) && ParentOk(calls[..|calls| - 1], create, calls[|calls| - 1]))
  }

  /** The recursive definition says what the quantified one would: each
      call is linked to the calls before it. */
  lemma {:induction false} LinkedAt(calls: seq<Request>, create: nat -> Outcome, k: nat)
    requires Linked(calls, create) && k < |calls|
    ensures ParentOk(calls[..k], create, calls[k])
  {
    if k < |calls| - 1 {
      LinkedAt(calls[..|calls| - 1], create, k);
      assert calls[..|calls| - 1][..k] == calls[..k];
    }
  }

  lemma LinkedSnoc(calls: seq<Request>, create: nat -> Outcome, r: Request)
    requires Linked(calls, create) && ParentOk(calls, create, r)
    ensures Linked(calls + [r], create)
  {
    assert (calls + [r])[..|calls|] == calls;
  }

  predicate NoneOf(cs: seq<Request>, t: WorkItemType) {
    forall i :: 0 <= i < |cs| ==> cs[i].wiType != t
  }

  /** Calls of other types do not change the latest id of type `t`. */
  lemma {:induction false} LastIdSkip(c: seq<Request>, d: seq<Request>, create: nat -> Outcome, t: WorkItemType)
    requires NoneOf(d, t)
    ensures LastId(c + d, create, t) == LastId(c, create, t)
    decreases |d|
  {
    if |d| == 0 {
      assert c + d == c;
    } else {
      assert (c + d)[..|c + d| - 1] == c + d[..|d| - 1];
      LastIdSkip(c, d[..|d| - 1], create, t);
    }
  }

  lemma {:induction false} LinkedTasks(c: seq<Request>, tasks: seq<Request>, create: nat -> Outcome, id: Option<int>)
    requires Linked(c, create) && LastId(c, create, StoryItem) == Some(id)
    requires forall i :: 0 <= i < |tasks| ==> tasks[i].wiType == TaskItem && tasks[i].parent == id
    ensures Linked(c + tasks, create)
    decreases |tasks|
  {
    if |tasks| == 0 {
      assert c + tasks == c;
    } else {
      LinkedSnoc(c, create, tasks[0]);
      LastIdSkip(c, [tasks[0]], create, StoryItem);
      LinkedTasks(c + [tasks[0]], tasks[1..], create, id);
      assert c + tasks == c + [tasks[0]] + tasks[1..];
    }
  }

  /** The calls a step added. */
  function Fresh(st: State, w: Walk): seq<Request>
    requires st.calls <= w.Calls()
  {
    w.Calls()[|st.calls|..]
  }

  /** What every step of the walk guarantees: calls are only appended and
      the trace stays linked; a dry run calls nothing; a finished step's
      calls, without their parent links, are the plan, and an aborted
      step's are a prefix of it, ending with the failed call, which is not
      a task; and the step creates no item of a `spared` type. */
  ghost predicate Step(env: Env, st: State, w: Walk, plan: seq<Request>, spared: set<WorkItemType>) {
    && st.calls <= w.Calls()
    && Linked(w.Calls(), env.create)
    && (env.dryRun ==> w.Walking? && w.st.calls == st.calls)
    && (w.Walking? && !env.dryRun ==> Unparented(Fresh(st, w)) == plan)
    && (w.Aborted? ==>
          && !env.dryRun
          && |w.failedCalls| > |st.calls|
          && env.create(|w.failedCalls| - 1) == Failed(w.error)
          && w.failedCalls[|w.failedCalls| - 1].wiType != TaskItem
          && Unparented(Fresh(st, w)) <= plan)
    && (forall t :: t in spared ==> NoneOf(Fresh(st, w), t))
  }

  lemma PrefixAppend<T>(a: seq<T>, p: seq<T>, b: seq<T>, q: seq<T>)
    requires a == p && b <= q
    ensures a + b <= p + q
  {
    assert (p + q)[..|a + b|] == p + q[..|b|];
  }

  lemma PrefixExtend<T>(a: seq<T>, p: seq<T>, q: seq<T>)
    requires a <= p
    ensures a <= p + q
  {
    assert (p + q)[..|a|] == p[..|a|];
  }

  /** Two steps in a row: the second starts where the first ended. */
  lemma StepThen(env: Env, st: State, st1: State, w: Walk, plan1: seq<Request>, plan2: seq<Request>,
                 spared: set<WorkItemType>)
    requires Step(env, st, Walking(st1), plan1, spared) && Step(env, st1, w, plan2, spared)
    ensures Step(env, st, w, plan1 + plan2, spared)
  {
    var a, b, c := st.calls, st1.calls, w.Calls();
    FreshSplit(a, b, c);
    UnparentedAppend(b[|a|..], c[|b|..]);
    forall t | t in spared ensures NoneOf(c[|a|..], t) {
      NoneOfAppend(b[|a|..], c[|b|..], t);
    }
    if w.Aborted? {
      PrefixAppend(Unparented(b[|a|..]), plan1, Unparented(c[|b|..]), plan2);
    }
  }

  lemma FreshSplit<T>(a: seq<T>, b: seq<T>, c: seq<T>)
    requires a <= b && b <= c
    ensures a <= c && c[|a|..] == b[|a|..] + c[|b|..]
  {
    assert c[..|a|] == b[..|a|];
  }

  lemma NoneOfAppend(x: seq<Request>, y: seq<Request>, t: WorkItemType)
    requires NoneOf(x, t) && NoneOf(y, t)
    ensures NoneOf(x + y, t)
  {
    forall i | 0 <= i < |x + y| ensures (x + y)[i].wiType != t {
      if i >= |x| { assert (x + y)[i] == y[i - |x|]; }
    }
  }

  /** A step that aborted still follows any longer plan. */
  lemma StepAborted(env: Env, st: State, w: Walk, plan: seq<Request>, more: seq<Request>,
                    spared: set<WorkItemType>)
    requires w.Aborted? && Step(env, st, w, plan, spared)
    ensures Step(env, st, w, plan + more, spared)
  {
    PrefixExtend(Unparented(Fresh(st, w)), plan, more);
  }

  /** A step from the same calls (as in a dry run, where only the mapping
      moves) makes the same guarantees, for fewer spared types. */
  lemma StepFrom(env: Env, st: State, st1: State, w: Walk, plan: seq<Request>,
                 spared: set<WorkItemType>, fewer: set<WorkItemType>)
    requires st1.calls == st.calls && Step(env, st1, w, plan, spared) && fewer <= spared
    ensures Step(env, st, w, plan, fewer)
  {
  }

  /** A step that creates no item of type `t` keeps the latest id of that type. */
  lemma StepKeepsLastId(env: Env, st: State, st1: State, plan: seq<Request>, spared: set<WorkItemType>,
                        t: WorkItemType)
    requires Step(env, st, Walking(st1), plan, spared) && t in spared
    ensures LastId(st1.calls, env.create, t) == LastId(st.calls, env.create, t)
  {
    assert st1.calls == st.calls + Fresh(st, Walking(st1));
    LastIdSkip(st.calls, Fresh(st, Walking(st1)), env.create, t);
  }

  /** One create call that went through: it is linked, and it becomes the
      latest of its type. */
  lemma CallCreated(env: Env, st: State, req: Request, st1: State, spared: set<WorkItemType>)
    requires !env.dryRun && Linked(st.calls, env.create) && ParentOk(st.calls, env.create, req)
    requires req.wiType !in spared && st1.calls == st.calls + [req]
    ensures Step(env, st, Walking(st1), [Unparent(req)], spared)
    ensures LastId(st1.calls, env.create, req.wiType) == Some(IdOf(env.create(|st.calls|)))
  {
    LinkedSnoc(st.calls, env.create, req);
    assert Fresh(st, Walking(st1)) == [req];
  }

  /** One create call that raised: the walk stops there. */
  lemma CallFailed(env: Env, st: State, req: Request, e: Transport.ApiError, more: seq<Request>,
                   spared: set<WorkItemType>)
    requires !env.dryRun && Linked(st.calls, env.create) && ParentOk(st.calls, env.create, req)
    requires req.wiType !in spared && req.wiType != TaskItem
    requires env.create(|st.calls|) == Failed(e)
    ensures Step(env, st, Aborted(st.calls + [req], e), [Unparent(req)] + more, spared)
  {
    LinkedSnoc(st.calls, env.create, req);
    assert Fresh(st, Aborted(st.calls + [req], e)) == [req];
    PrefixExtend([Unparent(req)], [Unparent(req)], more);
  }

  /** Without their parent, a story's task requests are the planned ones. */
  lemma UnparentTasks(project: string, id: Option<int>, s: Story)
    ensures Unparented(CreateTasks(project, id, s)) == CreateTasks(project, None, s)
  {
    var title := StoryTitle(s);
    var fe := s.feDays.GetOr(0) > 0;
    var be := s.beDays.GetOr(0) > 0;
    var dv := s.devopsDays.GetOr(0) > 0;
    UnparentedAppend(When(fe, TaskRequest(project, id, title, "FE", s.feDays.GetOr(0))),
                     When(be, TaskRequest(project, id, title, "BE", s.beDays.GetOr(0))));
    UnparentedAppend(When(fe, TaskRequest(project, id, title, "FE", s.feDays.GetOr(0)))
                     + When(be, TaskRequest(project, id, title, "BE", s.beDays.GetOr(0))),
                     When(dv, TaskRequest(project, id, title, "DevOps", s.devopsDays.GetOr(0))));
  }

  /** A story's tasks, created under the story: a failing task is reported
      and skipped, so the walk goes on. */
  lemma TasksCreated(env: Env, st: State, st1: State, project: string, id: Option<int>, s: Story,
                     spared: set<WorkItemType>)
    requires !env.dryRun && Linked(st.calls, env.create)
    requires LastId(st.calls, env.create, StoryItem) == Some(id)
    requires TaskItem !in spared && st1.calls == st.calls + CreateTasks(project, id, s)
    ensures Step(env, st, Walking(st1), CreateTasks(project, None, s), spared)
  {
    var tasks := CreateTasks(project, id, s);
    CreateTasksShape(project, id, s);
    LinkedTasks(st.calls, tasks, env.create, id);
    assert Fresh(st, Walking(st1)) == tasks;
    UnparentTasks(project, id, s);
  }

  /** The mapping entry of a created story. */
  function Entry(adoId: Option<int>, s: Story, index: nat, epicName: string, featureName: string): StoryEntry {
    StoryEntry(adoId, StoryId(s, index), StoryTitle(s), epicName, featureName)
  }

  /** The spared types of a story step, and of a feature step. */
  const NotAbove: set<WorkItemType> := {EpicItem, FeatureItem}
  const NotEpic: set<WorkItemType> := {EpicItem}

  /** One story: `story_index` moves on; outside a dry run the story is
      created under the feature, its tasks follow, and its entry is
      appended to the mapping. */
  function PushStory(env: Env, epicName: string, featureName: string, featureId: Option<int>,
                     s: Story, st: State): (w: Walk)
    ensures env.dryRun ==> w == Walking(st.(storyIndex := st.storyIndex + 1))
    ensures w.Walking? ==>
      && w.st.storyIndex == st.storyIndex + 1
      && w.st.mapping.epics == st.mapping.epics
      && w.st.mapping.features == st.mapping.features
      && w.st.mapping.stories == st.mapping.stories
           + (if env.dryRun then []
              else [Entry(IdOf(env.create(|st.calls|)), s, st.storyIndex + 1, epicName, featureName)])
  {
    var index := st.storyIndex + 1;
    if env.dryRun then Walking(st.(storyIndex := index))
    else
      var req := StoryRequest(env.project, epicName, featureName, s).(parent := featureId);
      match env.create(|st.calls|)
      case Failed(e) => Aborted(st.calls + [req], e)
      case Created(id) =>
        Walking(State(st.calls + [req] + CreateTasks(env.project, id, s),
                      st.mapping.(stories := st.mapping.stories + [Entry(id, s, index, epicName, featureName)]),
                      index))
  }

  /** A story step is linked under the feature created last, and its calls
      are the story's plan: the story, then its tasks. */
  lemma PushStoryAdvances(env: Env, epicName: string, featureName: string, featureId: Option<int>,
                          s: Story, st: State)
    requires Linked(st.calls, env.create)
    requires !env.dryRun ==> LastId(st.calls, env.create, FeatureItem) == Some(featureId)
    ensures Step(env, st, PushStory(env, epicName, featureName, featureId, s, st),
                 PlanStory(env.project, epicName, featureName, s), NotAbove)
  {
    if !env.dryRun {
      var req := StoryRequest(env.project, epicName, featureName, s).(parent := featureId);
      var tasks := CreateTasks(env.project, None, s);
      match env.create(|st.calls|)
      case Failed(e) =>
        CallFailed(env, st, req, e, tasks, NotAbove);
      case Created(id) =>
        var st1 := st.(calls := st.calls + [req]);
        var w := PushStory(env, epicName, featureName, featureId, s, st);
        CallCreated(env, st, req, st1, NotAbove);
        TasksCreated(env, st1, w.st, env.project, id, s, NotAbove);
        StepThen(env, st, st1, w, [Unparent(req)], tasks, NotAbove);
    }
  }

  /** The stories of one feature, in order, each numbered by the running
      `story_index`. */
  function PushStories(env: Env, epicName: string, featureName: string, featureId: Option<int>,
                       ss: seq<Story>, st: State): (w: Walk)
    ensures env.dryRun ==> w == Walking(st.(storyIndex := st.storyIndex + |ss|))
    ensures w.Walking? ==>
      && w.st.storyIndex == st.storyIndex + |ss|
      && w.st.mapping.epics == st.mapping.epics
      && w.st.mapping.features == st.mapping.features
      && st.mapping.stories <= w.st.mapping.stories
      && |w.st.mapping.stories| == |st.mapping.stories| + (if env.dryRun then 0 else |ss|)
    decreases |ss|
  {
    if |ss| == 0 then Walking(st)
    else
      match PushStory(env, epicName, featureName, featureId, ss[0], st)
      case Aborted(c, e) => Aborted(c, e)
      case Walking(st1) =>
        var w := PushStories(env, epicName, featureName, featureId, ss[1..], st1);
        assert w.Walking? ==> st.mapping.stories <= st1.mapping.stories <= w.st.mapping.stories;
        w
  }

  lemma {:induction false} PushStoriesAdvances(env: Env, epicName: string, featureName: string,
                                               featureId: Option<int>, ss: seq<Story>, st: State)
    requires Linked(st.calls, env.create)
    requires !env.dryRun ==> LastId(st.calls, env.create, FeatureItem) == Some(featureId)
    ensures Step(env, st, PushStories(env, epicName, featureName, featureId, ss, st),
                 PlanStories(env.project, epicName, featureName, ss), NotAbove)
    decreases |ss|
  {
    if |ss| > 0 {
      var w1 := PushStory(env, epicName, featureName, featureId, ss[0], st);
      var plan1 := PlanStory(env.project, epicName, featureName, ss[0]);
      var plan2 := PlanStories(env.project, epicName, featureName, ss[1..]);
      PushStoryAdvances(env, epicName, featureName, featureId, ss[0], st);
      if w1.Aborted? {
        StepAborted(env, st, w1, plan1, plan2, NotAbove);
      } else {
        StepKeepsLastId(env, st, w1.st, plan1, NotAbove, FeatureItem);
        PushStoriesAdvances(env, epicName, featureName, featureId, ss[1..], w1.st);
        StepThen(env, st, w1.st, PushStories(env, epicName, featureName, featureId, ss[1..], w1.st),
                 plan1, plan2, NotAbove);
      }
    }
  }

  // ---------------------------------------------------------------------
  // The story entries of the mapping

  /** A mapping entry without the id the service returned. */
  function Label(e: StoryEntry): StoryEntry { e.(adoId := None) }

  function Labels(es: seq<StoryEntry>): (r: seq<StoryEntry>)
    ensures |r| == |es|
  {
    if |es| == 0 then [] else [Label(es[0])] + Labels(es[1..])
  }

  lemma {:induction false} LabelsAppend(a: seq<StoryEntry>, b: seq<StoryEntry>)
    ensures Labels(a + b) == Labels(a) + Labels(b)
  {
    if |a| == 0 {
      assert a + b == b;
    } else {
      assert (a + b)[1..] == a[1..] + b;
      LabelsAppend(a[1..], b);
    }
  }

  /** A finished step appended entries whose labels are `entries`. */
  ghost predicate Records(st: State, w: Walk, entries: seq<StoryEntry>) {
    w.Walking? ==> Labels(w.st.mapping.stories) == Labels(st.mapping.stories) + entries
  }

  lemma RecordsThen(st: State, st1: State, w: Walk, e1: seq<StoryEntry>, e2: seq<StoryEntry>)
    requires Records(st, Walking(st1), e1) && Records(st1, w, e2)
    ensures Records(st, w, e1 + e2)
  {
  }

  /** The entries a run records for a feature's stories, numbered from
      `index + 1` on. */
  function PlannedEntries(ss: seq<Story>, index: nat, epicName: string, featureName: string): seq<StoryEntry> {
    if |ss| == 0 then []
    else [Entry(None, ss[0], index + 1, epicName, featureName)]
         + PlannedEntries(ss[1..], index + 1, epicName, featureName)
  }

  /** A finished non-dry run records one entry per story, in order, with
      the id `US-NNN` from its running number when it has none, its title
      and its epic and feature names. */
  lemma {:induction false} PushStoriesEntries(env: Env, epicName: string, featureName: string,
                                              featureId: Option<int>, ss: seq<Story>, st: State)
    requires !env.dryRun
    ensures Records(st, PushStories(env, epicName, featureName, featureId, ss, st),
                    PlannedEntries(ss, st.storyIndex, epicName, featureName))
    decreases |ss|
  {
    if |ss| > 0 {
      var w1 := PushStory(env, epicName, featureName, featureId, ss[0], st);
      if w1.Walking? {
        var st1 := w1.st;
        var e0 := Entry(IdOf(env.create(|st.calls|)), ss[0], st.storyIndex + 1, epicName, featureName);
        LabelsAppend(st.mapping.stories, [e0]);
        PushStoriesEntries(env, epicName, featureName, featureId, ss[1..], st1);
        RecordsThen(st, st1, PushStories(env, epicName, featureName, featureId, ss[1..], st1),
                    [Label(e0)], PlannedEntries(ss[1..], st1.storyIndex, epicName, featureName));
      }
    }
  }

  // ---------------------------------------------------------------------
  // Features and epics

  /** `after` is `before` with the given keys assigned: nothing else
      changes, and in a dry run every assigned id is `None`. */
  ghost predicate Assigns(before: map<string, Option<int>>, after: map<string, Option<int>>,
                          keys: set<string>, dryRun: bool) {
    && after.Keys == before.Keys + keys
    && (forall k :: k in before && k !in keys ==> after[k] == before[k])
    && (dryRun ==> forall k :: k in keys ==> after[k] == None)
  }

  lemma AssignsOne(m: map<string, Option<int>>, k: string, v: Option<int>, dryRun: bool)
    requires dryRun ==> v == None
    ensures Assigns(m, m[k := v], {k}, dryRun)
  {
  }

  lemma AssignsThen(a: map<string, Option<int>>, b: map<string, Option<int>>, c: map<string, Option<int>>,
                    k1: set<string>, k2: set<string>, dryRun: bool)
    requires Assigns(a, b, k1, dryRun) && Assigns(b, c, k2, dryRun)
    ensures Assigns(a, c, k1 + k2, dryRun)
  {
    if dryRun {
      forall k | k in k1 + k2 ensures c[k] == None {
        if k !in k2 {
          assert c[k] == b[k];
        }
      }
    }
  }

  function FeatureKeys(fs: seq<Feature>): set<string> {
    if |fs| == 0 then {} else {FeatureKey(fs[0])} + FeatureKeys(fs[1..])
  }

  function EpicKeys(es: seq<Epic>): set<string> {
    if |es| == 0 then {} else {EpicKey(es[0])} + EpicKeys(es[1..])
  }

  function AllFeatureKeys(es: seq<Epic>): set<string> {
    if |es| == 0 then {} else FeatureKeys(es[0].features) + AllFeatureKeys(es[1..])
  }

  /** One feature: outside a dry run it is created under the epic; its id
      (`None` in a dry run) is recorded under its key, then its stories follow. */
  function PushFeature(env: Env, epicName: string, epicId: Option<int>, f: Feature, st: State): (w: Walk)
    ensures env.dryRun ==> w.Walking?
    ensures w.Walking? ==>
      && w.st.storyIndex == st.storyIndex + |f.stories|
      && w.st.mapping.epics == st.mapping.epics
      && w.st.mapping.features
         == st.mapping.features[FeatureKey(f) := if env.dryRun then None else IdOf(env.create(|st.calls|))]
      && st.mapping.stories <= w.st.mapping.stories
      && |w.st.mapping.stories| == |st.mapping.stories| + (if env.dryRun then 0 else |f.stories|)
  {
    var key := FeatureKey(f);
    if env.dryRun then
      PushStories(env, epicName, FeatureName(f), None, f.stories,
                  st.(mapping := st.mapping.(features := st.mapping.features[key := None])))
    else
      var req := FeatureRequest(env.project, epicName, f).(parent := epicId);
      match env.create(|st.calls|)
      case Failed(e) => Aborted(st.calls + [req], e)
      case Created(id) =>
        PushStories(env, epicName, FeatureName(f), id, f.stories,
                    State(st.calls + [req], st.mapping.(features := st.mapping.features[key := id]), st.storyIndex))
  }

  lemma PushFeatureAdvances(env: Env, epicName: string, epicId: Option<int>, f: Feature, st: State)
    requires Linked(st.calls, env.create)
    requires !env.dryRun ==> LastId(st.calls, env.create, EpicItem) == Some(epicId)
    ensures Step(env, st, PushFeature(env, epicName, epicId, f, st), PlanFeature(env.project, epicName, f), NotEpic)
  {
    var key := FeatureKey(f);
    var plan2 := PlanStories(env.project, epicName, FeatureName(f), f.stories);
    if env.dryRun {
      var st1 := st.(mapping := st.mapping.(features := st.mapping.features[key := None]));
      PushStoriesAdvances(env, epicName, FeatureName(f), None, f.stories, st1);
      StepFrom(env, st, st1, PushFeature(env, epicName, epicId, f, st), plan2, NotAbove, NotEpic);
    } else {
      var req := FeatureRequest(env.project, epicName, f).(parent := epicId);
      match env.create(|st.calls|)
      case Failed(e) =>
        CallFailed(env, st, req, e, plan2, NotEpic);
      case Created(id) =>
        var st1 := State(st.calls + [req], st.mapping.(features := st.mapping.features[key := id]), st.storyIndex);
        var w := PushStories(env, epicName, FeatureName(f), id, f.stories, st1);
        CallCreated(env, st, req, st1, NotEpic);
        PushStoriesAdvances(env, epicName, FeatureName(f), id, f.stories, st1);
        StepFrom(env, st1, st1, w, plan2, NotAbove, NotEpic);
        StepThen(env, st, st1, w, [Unparent(req)], plan2, NotEpic);
    }
  }

  /** A finished non-dry feature records its stories' entries in order. */
  lemma PushFeatureEntries(env: Env, epicName: string, epicId: Option<int>, f: Feature, st: State)
    requires !env.dryRun
    ensures Records(st, PushFeature(env, epicName, epicId, f, st),
                    PlannedEntries(f.stories, st.storyIndex, epicName, FeatureName(f)))
  {
    var req := FeatureRequest(env.project, epicName, f).(parent := epicId);
    match env.create(|st.calls|)
    case Failed(e) =>
    case Created(id) =>
      var st1 := State(st.calls + [req], st.mapping.(features := st.mapping.features[FeatureKey(f) := id]), st.storyIndex);
      PushStoriesEntries(env, epicName, FeatureName(f), id, f.stories, st1);
  }

  /** The features of one epic, in order. */
  function PushFeatures(env: Env, epicName: string, epicId: Option<int>, fs: seq<Feature>, st: State): (w: Walk)
    ensures env.dryRun ==> w.Walking?
    ensures w.Walking? ==> w.st.storyIndex == st.storyIndex + FeatureStoryCount(fs)
    decreases |fs|
  {
    if |fs| == 0 then Walking(st)
    else
      match PushFeature(env, epicName, epicId, fs[0], st)
      case Aborted(c, e) => Aborted(c, e)
      case Walking(st1) => PushFeatures(env, epicName, epicId, fs[1..], st1)
  }

  /** What the features of an epic leave in the mapping: the epics are
      untouched, each feature key is assigned (to `None` in a dry run), and
      one story entry is appended per story outside a dry run. */
  lemma {:induction false} PushFeaturesMapping(env: Env, epicName: string, epicId: Option<int>,
                                               fs: seq<Feature>, st: State)
    ensures var w := PushFeatures(env, epicName, epicId, fs, st);
      w.Walking? ==>
        && w.st.mapping.epics == st.mapping.epics
        && Assigns(st.mapping.features, w.st.mapping.features, FeatureKeys(fs), env.dryRun)
        && st.mapping.stories <= w.st.mapping.stories
        && |w.st.mapping.stories| == |st.mapping.stories| + (if env.dryRun then 0 else FeatureStoryCount(fs))
    decreases |fs|
  {
    var w := PushFeatures(env, epicName, epicId, fs, st);
    if |fs| > 0 && w.Walking? {
      var w1 := PushFeature(env, epicName, epicId, fs[0], st);
      var st1 := w1.st;
      PushFeaturesMapping(env, epicName, epicId, fs[1..], st1);
      AssignsOne(st.mapping.features, FeatureKey(fs[0]),
                 if env.dryRun then None else IdOf(env.create(|st.calls|)), env.dryRun);
      AssignsThen(st.mapping.features, st1.mapping.features, w.st.mapping.features,
                  {FeatureKey(fs[0])}, FeatureKeys(fs[1..]), env.dryRun);
    } else if |fs| == 0 {
      assert Assigns(st.mapping.features, w.st.mapping.features, {}, env.dryRun);
    }
  }

  lemma {:induction false} PushFeaturesAdvances(env: Env, epicName: string, epicId: Option<int>,
                                                fs: seq<Feature>, st: State)
    requires Linked(st.calls, env.create)
    requires !env.dryRun ==> LastId(st.calls, env.create, EpicItem) == Some(epicId)
    ensures Step(env, st, PushFeatures(env, epicName, epicId, fs, st),
                 PlanFeatures(env.project, epicName, fs), NotEpic)
    decreases |fs|
  {
    if |fs| > 0 {
      var w1 := PushFeature(env, epicName, epicId, fs[0], st);
      var plan1 := PlanFeature(env.project, epicName, fs[0]);
      var plan2 := PlanFeatures(env.project, epicName, fs[1..]);
      PushFeatureAdvances(env, epicName, epicId, fs[0], st);
      if w1.Aborted? {
        StepAborted(env, st, w1, plan1, plan2, NotEpic);
      } else {
        StepKeepsLastId(env, st, w1.st, plan1, NotEpic, EpicItem);
        PushFeaturesAdvances(env, epicName, epicId, fs[1..], w1.st);
        StepThen(env, st, w1.st, PushFeatures(env, epicName, epicId, fs[1..], w1.st), plan1, plan2, NotEpic);
      }
    }
  }

  /** The entries of every feature's stories, numbered from `index + 1` on. */
  function FeaturesEntries(fs: seq<Feature>, index: nat, epicName: string): seq<StoryEntry> {
    if |fs| == 0 then []
    else PlannedEntries(fs[0].stories, index, epicName, FeatureName(fs[0]))
         + FeaturesEntries(fs[1..], index + |fs[0].stories|, epicName)
  }

  /** A finished non-dry run of an epic's features records their stories'
      entries in order. */
  lemma {:induction false} PushFeaturesEntries(env: Env, epicName: string, epicId: Option<int>,
                                               fs: seq<Feature>, st: State)
    requires !env.dryRun
    ensures Records(st, PushFeatures(env, epicName, epicId, fs, st), FeaturesEntries(fs, st.storyIndex, epicName))
    decreases |fs|
  {
    if |fs| > 0 {
      var w1 := PushFeature(env, epicName, epicId, fs[0], st);
      if w1.Walking? {
        FeaturesEntriesStep(env, epicName, epicId, fs, st, w1.st);
      }
    }
  }

  /** The step case: the first feature went through, the rest follow. */
  lemma {:induction false} FeaturesEntriesStep(env: Env, epicName: string, epicId: Option<int>,
                                               fs: seq<Feature>, st: State, st1: State)
    requires !env.dryRun && |fs| > 0 && PushFeature(env, epicName, epicId, fs[0], st) == Walking(st1)
    ensures Records(st, PushFeatures(env, epicName, epicId, fs, st), FeaturesEntries(fs, st.storyIndex, epicName))
    decreases |fs|, 0
  {
    var rest := PushFeatures(env, epicName, epicId, fs[1..], st1);
    var mine := PlannedEntries(fs[0].stories, st.storyIndex, epicName, FeatureName(fs[0]));
    var later := FeaturesEntries(fs[1..], st1.storyIndex, epicName);
    PushFeatureEntries(env, epicName, epicId, fs[0], st);
    PushFeaturesEntries(env, epicName, epicId, fs[1..], st1);
    RecordsThen(st, st1, rest, mine, later);
    PushFeaturesCons(env, epicName, epicId, fs, st, st1);
    FeaturesEntriesCons(fs, st.storyIndex, st1.storyIndex, epicName);
    RecordsSame(st, rest, PushFeatures(env, epicName, epicId, fs, st), mine + later,
                FeaturesEntries(fs, st.storyIndex, epicName));
  }

  lemma PushFeaturesCons(env: Env, epicName: string, epicId: Option<int>, fs: seq<Feature>, st: State, st1: State)
    requires |fs| > 0 && PushFeature(env, epicName, epicId, fs[0], st) == Walking(st1)
    ensures PushFeatures(env, epicName, epicId, fs, st) == PushFeatures(env, epicName, epicId, fs[1..], st1)
  {
  }

  lemma FeaturesEntriesCons(fs: seq<Feature>, index: nat, next: nat, epicName: string)
    requires |fs| > 0 && next == index + |fs[0].stories|
    ensures FeaturesEntries(fs, index, epicName)
         == PlannedEntries(fs[0].stories, index, epicName, FeatureName(fs[0]))
            + FeaturesEntries(fs[1..], next, epicName)
  {
  }

  /** One epic: outside a dry run it is created, with no parent; its id
      (`None` in a dry run) is recorded under its key, then its features follow. */
  function PushEpic(env: Env, e: Epic, st: State): (w: Walk)
    ensures env.dryRun ==> w.Walking?
    ensures w.Walking? ==> w.st.storyIndex == st.storyIndex + FeatureStoryCount(e.features)
  {
    var key := EpicKey(e);
    if env.dryRun then
      PushFeatures(env, EpicName(e), None, e.features,
                   st.(mapping := st.mapping.(epics := st.mapping.epics[key := None])))
    else
      var req := EpicRequest(env.project, e);
      match env.create(|st.calls|)
      case Failed(err) => Aborted(st.calls + [req], err)
      case Created(id) =>
        PushFeatures(env, EpicName(e), id, e.features,
                     State(st.calls + [req], st.mapping.(epics := st.mapping.epics[key := id]), st.storyIndex))
  }

  /** What an epic leaves in the mapping: its key is assigned its id
      (`None` in a dry run), its features' keys are assigned, and its
      stories' entries are appended outside a dry run. */
  lemma PushEpicMapping(env: Env, e: Epic, st: State)
    ensures var w := PushEpic(env, e, st);
      w.Walking? ==>
        && w.st.mapping.epics
           == st.mapping.epics[EpicKey(e) := if env.dryRun then None else IdOf(env.create(|st.calls|))]
        && Assigns(st.mapping.features, w.st.mapping.features, FeatureKeys(e.features), env.dryRun)
        && st.mapping.stories <= w.st.mapping.stories
        && |w.st.mapping.stories| == |st.mapping.stories| + (if env.dryRun then 0 else FeatureStoryCount(e.features))
  {
    var key := EpicKey(e);
    if env.dryRun {
      PushFeaturesMapping(env, EpicName(e), None, e.features,
                          st.(mapping := st.mapping.(epics := st.mapping.epics[key := None])));
    } else {
      var req := EpicRequest(env.project, e);
      match env.create(|st.calls|)
      case Failed(err) =>
      case Created(id) =>
        PushFeaturesMapping(env, EpicName(e), id, e.features,
                            State(st.calls + [req], st.mapping.(epics := st.mapping.epics[key := id]), st.storyIndex));
    }
  }

  lemma PushEpicAdvances(env: Env, e: Epic, st: State)
    requires Linked(st.calls, env.create)
    ensures Step(env, st, PushEpic(env, e, st), PlanEpic(env.project, e), {})
  {
    var key := EpicKey(e);
    var plan2 := PlanFeatures(env.project, EpicName(e), e.features);
    if env.dryRun {
      var st1 := st.(mapping := st.mapping.(epics := st.mapping.epics[key := None]));
      PushFeaturesAdvances(env, EpicName(e), None, e.features, st1);
      StepFrom(env, st, st1, PushEpic(env, e, st), plan2, NotEpic, {});
    } else {
      var req := EpicRequest(env.project, e);
      assert Unparent(req) == req;
      match env.create(|st.calls|)
      case Failed(err) =>
        CallFailed(env, st, req, err, plan2, {});
      case Created(id) =>
        var st1 := State(st.calls + [req], st.mapping.(epics := st.mapping.epics[key := id]), st.storyIndex);
        var w := PushFeatures(env, EpicName(e), id, e.features, st1);
        CallCreated(env, st, req, st1, {});
        PushFeaturesAdvances(env, EpicName(e), id, e.features, st1);
        StepFrom(env, st1, st1, w, plan2, NotEpic, {});
        StepThen(env, st, st1, w, [req], plan2, {});
    }
  }

  lemma PushEpicEntries(env: Env, e: Epic, st: State)
    requires !env.dryRun
    ensures Records(st, PushEpic(env, e, st), FeaturesEntries(e.features, st.storyIndex, EpicName(e)))
  {
    var req := EpicRequest(env.project, e);
    match env.create(|st.calls|)
    case Failed(err) =>
    case Created(id) =>
      var st1 := State(st.calls + [req], st.mapping.(epics := st.mapping.epics[EpicKey(e) := id]), st.storyIndex);
      PushFeaturesEntries(env, EpicName(e), id, e.features, st1);
  }

  /** The loop over the epics, in document order. */
  function PushEpics(env: Env, es: seq<Epic>, st: State): (w: Walk)
    ensures env.dryRun ==> w.Walking?
    ensures w.Walking? ==> w.st.storyIndex == st.storyIndex + StoryCount(es)
    decreases |es|
  {
    if |es| == 0 then Walking(st)
    else
      match PushEpic(env, es[0], st)
      case Aborted(c, e) => Aborted(c, e)
      case Walking(st1) => PushEpics(env, es[1..], st1)
  }

  /** What the walk leaves in the mapping: every epic key and every feature
      key is assigned (to `None` in a dry run), nothing else changes, and one
      story entry is appended per story outside a dry run. */
  lemma {:induction false} PushEpicsMapping(env: Env, es: seq<Epic>, st: State)
    ensures var w := PushEpics(env, es, st);
      w.Walking? ==>
        && Assigns(st.mapping.epics, w.st.mapping.epics, EpicKeys(es), env.dryRun)
        && Assigns(st.mapping.features, w.st.mapping.features, AllFeatureKeys(es), env.dryRun)
        && st.mapping.stories <= w.st.mapping.stories
        && |w.st.mapping.stories| == |st.mapping.stories| + (if env.dryRun then 0 else StoryCount(es))
    decreases |es|
  {
    var w := PushEpics(env, es, st);
    if |es| > 0 && w.Walking? {
      var w1 := PushEpic(env, es[0], st);
      var st1 := w1.st;
      PushEpicMapping(env, es[0], st);
      PushEpicsMapping(env, es[1..], st1);
      AssignsOne(st.mapping.epics, EpicKey(es[0]),
                 if env.dryRun then None else IdOf(env.create(|st.calls|)), env.dryRun);
      AssignsThen(st.mapping.epics, st1.mapping.epics, w.st.mapping.epics,
                  {EpicKey(es[0])}, EpicKeys(es[1..]), env.dryRun);
      AssignsThen(st.mapping.features, st1.mapping.features, w.st.mapping.features,
                  FeatureKeys(es[0].features), AllFeatureKeys(es[1..]), env.dryRun);
    } else if |es| == 0 {
      assert Assigns(st.mapping.epics, w.st.mapping.epics, {}, env.dryRun);
      assert Assigns(st.mapping.features, w.st.mapping.features, {}, env.dryRun);
    }
  }

  lemma {:induction false} PushEpicsAdvances(env: Env, es: seq<Epic>, st: State)
    requires Linked(st.calls, env.create)
    ensures Step(env, st, PushEpics(env, es, st), PlanEpics(env.project, es), {})
    decreases |es|
  {
    if |es| > 0 {
      var w1 := PushEpic(env, es[0], st);
      var plan1 := PlanEpic(env.project, es[0]);
      var plan2 := PlanEpics(env.project, es[1..]);
      PushEpicAdvances(env, es[0], st);
      if w1.Aborted? {
        StepAborted(env, st, w1, plan1, plan2, {});
      } else {
        PushEpicsAdvances(env, es[1..], w1.st);
        StepThen(env, st, w1.st, PushEpics(env, es[1..], w1.st), plan1, plan2, {});
      }
    }
  }

  /** The entries of every story of the document, numbered from `index + 1` on. */
  function EpicsEntries(es: seq<Epic>, index: nat): seq<StoryEntry> {
    if |es| == 0 then []
    else FeaturesEntries(es[0].features, index, EpicName(es[0]))
         + EpicsEntries(es[1..], index + FeatureStoryCount(es[0].features))
  }

  lemma {:induction false} PushEpicsEntries(env: Env, es: seq<Epic>, st: State)
    requires !env.dryRun
    ensures Records(st, PushEpics(env, es, st), EpicsEntries(es, st.storyIndex))
    decreases |es|
  {
    if |es| > 0 {
      var w1 := PushEpic(env, es[0], st);
      if w1.Walking? {
        EpicsEntriesStep(env, es, st, w1.st);
      }
    }
  }

  /** The step case: the first epic went through, the rest follow. */
  lemma {:induction false} EpicsEntriesStep(env: Env, es: seq<Epic>, st: State, st1: State)
    requires !env.dryRun && |es| > 0 && PushEpic(env, es[0], st) == Walking(st1)
    ensures Records(st, PushEpics(env, es, st), EpicsEntries(es, st.storyIndex))
    decreases |es|, 0
  {
    var rest := PushEpics(env, es[1..], st1);
    var mine := FeaturesEntries(es[0].features, st.storyIndex, EpicName(es[0]));
    var later := EpicsEntries(es[1..], st1.storyIndex);
    PushEpicEntries(env, es[0], st);
    PushEpicsEntries(env, es[1..], st1);
    RecordsThen(st, st1, rest, mine, later);
    PushEpicsCons(env, es, st, st1);
    EpicsEntriesCons(es, st.storyIndex, st1.storyIndex);
    RecordsSame(st, rest, PushEpics(env, es, st), mine + later, EpicsEntries(es, st.storyIndex));
  }

  lemma RecordsSame(st: State, w: Walk, w': Walk, e: seq<StoryEntry>, e': seq<StoryEntry>)
    requires Records(st, w, e) && w == w' && e == e'
    ensures Records(st, w', e')
  {
  }

  lemma PushEpicsCons(env: Env, es: seq<Epic>, st: State, st1: State)
    requires |es| > 0 && PushEpic(env, es[0], st) == Walking(st1)
    ensures PushEpics(env, es, st) == PushEpics(env, es[1..], st1)
  {
  }

  lemma EpicsEntriesCons(es: seq<Epic>, index: nat, next: nat)
    requires |es| > 0 && next == index + FeatureStoryCount(es[0].features)
    ensures EpicsEntries(es, index)
         == FeaturesEntries(es[0].features, index, EpicName(es[0])) + EpicsEntries(es[1..], next)
  {
  }

  // ---------------------------------------------------------------------
  // The ids the mapping records

  /** The ids the service returned to the user-story create calls, in
      call order. */
  function StoryIds(calls: seq<Request>, create: nat -> Outcome): seq<Option<int>> {
    if |calls| == 0 then []
    else StoryIds(calls[..|calls| - 1], create)
         + (if calls[|calls| - 1].wiType == StoryItem then [IdOf(create(|calls| - 1))] else [])
  }

  /** The `ado_id` of each mapping entry, in order. */
  function AdoIds(es: seq<StoryEntry>): (r: seq<Option<int>>)
    ensures |r| == |es|
  {
    if |es| == 0 then [] else AdoIds(es[..|es| - 1]) + [es[|es| - 1].adoId]
  }

  /** Entry by entry, the recorded ids are those returned to the story calls. */
  ghost predicate Synced(env: Env, st: State) {
    AdoIds(st.mapping.stories) == StoryIds(st.calls, env.create)
  }

  /** Calls of other types add no story id. */
  lemma {:induction false} StoryIdsSkip(c: seq<Request>, d: seq<Request>, create: nat -> Outcome)
    requires NoneOf(d, StoryItem)
    ensures StoryIds(c + d, create) == StoryIds(c, create)
    decreases |d|
  {
    if |d| == 0 {
      assert c + d == c;
    } else {
      assert (c + d)[..|c + d| - 1] == c + d[..|d| - 1];
      StoryIdsSkip(c, d[..|d| - 1], create);
    }
  }

  lemma StoryIdsOne(c: seq<Request>, r: Request, create: nat -> Outcome)
    ensures StoryIds(c + [r], create)
         == StoryIds(c, create) + (if r.wiType == StoryItem then [IdOf(create(|c|))] else [])
  {
    assert (c + [r])[..|c|] == c;
  }

  lemma AdoIdsSnoc(es: seq<StoryEntry>, e: StoryEntry)
    ensures AdoIds(es + [e]) == AdoIds(es) + [e.adoId]
  {
    assert (es + [e])[..|es|] == es;
  }

  /** A created epic or feature leaves the ids in step. */
  lemma SyncedCall(env: Env, st: State, req: Request, st1: State)
    requires Synced(env, st) && req.wiType != StoryItem
    requires st1.calls == st.calls + [req] && st1.mapping.stories == st.mapping.stories
    ensures Synced(env, st1)
  {
    StoryIdsOne(st.calls, req, env.create);
  }

  /** A story records the id its own create call returned; its tasks add
      no story id. */
  lemma PushStorySynced(env: Env, epicName: string, featureName: string, featureId: Option<int>,
                        s: Story, st: State)
    requires Synced(env, st)
    ensures var w := PushStory(env, epicName, featureName, featureId, s, st);
      w.Walking? ==> Synced(env, w.st)
  {
    if !env.dryRun {
      var req := StoryRequest(env.project, epicName, featureName, s).(parent := featureId);
      match env.create(|st.calls|)
      case Failed(e) =>
      case Created(id) =>
        var tasks := CreateTasks(env.project, id, s);
        CreateTasksShape(env.project, id, s);
        StoryIdsOne(st.calls, req, env.create);
        StoryIdsSkip(st.calls + [req], tasks, env.create);
        AdoIdsSnoc(st.mapping.stories, Entry(id, s, st.storyIndex + 1, epicName, featureName));
    }
  }

  /** The stories of a feature keep the recorded ids in step with the
      story calls. */
  lemma {:induction false} PushStoriesSynced(env: Env, epicName: string, featureName: string,
                                             featureId: Option<int>, ss: seq<Story>, st: State)
    requires Synced(env, st)
    ensures var w := PushStories(env, epicName, featureName, featureId, ss, st);
      w.Walking? ==> Synced(env, w.st)
    decreases |ss|
  {
    if |ss| > 0 {
      var w1 := PushStory(env, epicName, featureName, featureId, ss[0], st);
      PushStorySynced(env, epicName, featureName, featureId, ss[0], st);
      if w1.Walking? {
        PushStoriesSynced(env, epicName, featureName, featureId, ss[1..], w1.st);
      }
    }
  }

  lemma PushFeatureSynced(env: Env, epicName: string, epicId: Option<int>, f: Feature, st: State)
    requires Synced(env, st)
    ensures var w := PushFeature(env, epicName, epicId, f, st);
      w.Walking? ==> Synced(env, w.st)
  {
    var key := FeatureKey(f);
    if env.dryRun {
      var st1 := st.(mapping := st.mapping.(features := st.mapping.features[key := None]));
      PushStoriesSynced(env, epicName, FeatureName(f), None, f.stories, st1);
    } else {
      var req := FeatureRequest(env.project, epicName, f).(parent := epicId);
      match env.create(|st.calls|)
      case Failed(e) =>
      case Created(id) =>
        var st1 := State(st.calls + [req], st.mapping.(features := st.mapping.features[key := id]), st.storyIndex);
        SyncedCall(env, st, req, st1);
        PushStoriesSynced(env, epicName, FeatureName(f), id, f.stories, st1);
    }
  }

  lemma {:induction false} PushFeaturesSynced(env: Env, epicName: string, epicId: Option<int>,
                                              fs: seq<Feature>, st: State)
    requires Synced(env, st)
    ensures var w := PushFeatures(env, epicName, epicId, fs, st);
      w.Walking? ==> Synced(env, w.st)
    decreases |fs|
  {
    if |fs| > 0 {
      var w1 := PushFeature(env, epicName, epicId, fs[0], st);
      PushFeatureSynced(env, epicName, epicId, fs[0], st);
      if w1.Walking? {
        PushFeaturesSynced(env, epicName, epicId, fs[1..], w1.st);
        PushFeaturesCons(env, epicName, epicId, fs, st, w1.st);
      }
    }
  }

  lemma PushEpicSynced(env: Env, e: Epic, st: State)
    requires Synced(env, st)
    ensures var w := PushEpic(env, e, st);
      w.Walking? ==> Synced(env, w.st)
  {
    var key := EpicKey(e);
    if env.dryRun {
      var st1 := st.(mapping := st.mapping.(epics := st.mapping.epics[key := None]));
      PushFeaturesSynced(env, EpicName(e), None, e.features, st1);
    } else {
      var req := EpicRequest(env.project, e);
      match env.create(|st.calls|)
      case Failed(err) =>
      case Created(id) =>
        var st1 := State(st.calls + [req], st.mapping.(epics := st.mapping.epics[key := id]), st.storyIndex);
        SyncedCall(env, st, req, st1);
        PushFeaturesSynced(env, EpicName(e), id, e.features, st1);
    }
  }

  /** The whole walk keeps the recorded ids in step with the story calls. */
  lemma {:induction false} PushEpicsSynced(env: Env, es: seq<Epic>, st: State)
    requires Synced(env, st)
    ensures var w := PushEpics(env, es, st);
      w.Walking? ==> Synced(env, w.st)
    decreases |es|
  {
    if |es| > 0 {
      var w1 := PushEpic(env, es[0], st);
      PushEpicSynced(env, es[0], st);
      if w1.Walking? {
        PushEpicsSynced(env, es[1..], w1.st);
        PushEpicsCons(env, es, st, w1.st);
      }
    }
  }

  // ---------------------------------------------------------------------
  // A run of the push command

  /** `_load_data`: push_ready.json when it parses and has "epics", else
      breakdown.json under the same condition, else nothing; with the name
      of the file used. */
  function LoadData(pushReady: JsonFile, breakdown: JsonFile): (r: Option<(Tree, string)>)
    ensures pushReady.Parsed? && "epics" in pushReady.keys ==> r == Some((pushReady.tree, "push_ready.json"))
    ensures (!(pushReady.Parsed? && "epics" in pushReady.keys) && breakdown.Parsed? && "epics" in breakdown.keys)
              ==> r == Some((breakdown.tree, "breakdown.json"))
    ensures r.None? <==> !(pushReady.Parsed? && "epics" in pushReady.keys) && !(breakdown.Parsed? && "epics" in breakdown.keys)
  {
    match LoadBreakdown(pushReady)
    case Some(tree) => Some((tree, "push_ready.json"))
    case None =>
      match LoadBreakdown(breakdown)
      case Some(tree) => Some((tree, "breakdown.json"))
      case None => None
  }

  /** How a run ends: without a data source, without credentials, without
      a connection, declined at the prompt, crashed by a create call that
      raised, or completed with the mapping file written. */
  datatype RunOutcome =
    | NoSource
    | NotConfigured
    | ConnectionFailed
    | Declined
    | Crashed(calls: seq<Request>, error: Transport.ApiError)
    | Completed(source: string, calls: seq<Request>, mapping: Mapping, storyIndex: nat)

  /** `run`: load the data, then (outside a dry run) read the connection
      settings, test the connection and ask for confirmation, then walk the
      epics. `connection` is the answer to the test request and `confirmed`
      the answer at the prompt; `create` answers each create call in turn. */
  function Run(project: string, dryRun: bool, pushReady: JsonFile, breakdown: JsonFile,
               organization: string, adoProject: string, pat: string,
               connection: Result<Transport.Json, Transport.ApiError>, confirmed: bool,
               create: nat -> Outcome): (r: RunOutcome)
    ensures r.NoSource? <==> LoadData(pushReady, breakdown).None?
    ensures r.Crashed? || r.Completed? ==>
      dryRun || (organization != "" && adoProject != "" && pat != ""
                 && Transport.TestConnection(connection) && confirmed)
    ensures r.Completed? ==> LoadData(pushReady, breakdown).Some? && r.source == LoadData(pushReady, breakdown).value.1
  {
    match LoadData(pushReady, breakdown)
    case None => NoSource
    case Some((tree, source)) =>
      if !dryRun && Transport.FromProject(organization, adoProject, pat).None? then NotConfigured
      else if !dryRun && !Transport.TestConnection(connection) then ConnectionFailed
      else if !dryRun && !confirmed then Declined
      else
        match PushEpics(Env(project, dryRun, create), tree.epics, State([], Mapping(map[], map[], []), 0))
        case Aborted(calls, e) => Crashed(calls, e)
        case Walking(st) => Completed(source, st.calls, st.mapping, st.storyIndex)
  }

  /** No work item is created unless a data source was found and, outside a
      dry run, the settings are complete, the connection test passed and the
      user confirmed; a run stopped by a check has made no call. */
  lemma RunChecksFirst(project: string, dryRun: bool, pushReady: JsonFile, breakdown: JsonFile,
                       organization: string, adoProject: string, pat: string,
                       connection: Result<Transport.Json, Transport.ApiError>, confirmed: bool,
                       create: nat -> Outcome)
    ensures var o := Run(project, dryRun, pushReady, breakdown, organization, adoProject, pat,
                         connection, confirmed, create);
      && (o.Crashed? || o.Completed? ==>
            && LoadData(pushReady, breakdown).Some?
            && (dryRun || (organization != "" && adoProject != "" && pat != ""
                           && Transport.TestConnection(connection) && confirmed)))
      && (o.NoSource? <==> LoadData(pushReady, breakdown).None?)
      && (o.Crashed? ==> !dryRun)
  {
    var o := Run(project, dryRun, pushReady, breakdown, organization, adoProject, pat,
                 connection, confirmed, create);
    match LoadData(pushReady, breakdown)
    case None =>
    case Some((tree, source)) =>
      if dryRun {
        assert PushEpics(Env(project, dryRun, create), tree.epics, State([], Mapping(map[], map[], []), 0)).Walking?;
      }
  }

  /** A dry run makes no call, counts every story, records no story and
      maps every epic and feature key to no id. */
  lemma RunDry(project: string, pushReady: JsonFile, breakdown: JsonFile,
               organization: string, adoProject: string, pat: string,
               connection: Result<Transport.Json, Transport.ApiError>, confirmed: bool,
               create: nat -> Outcome)
    requires LoadData(pushReady, breakdown).Some?
    ensures var o := Run(project, true, pushReady, breakdown, organization, adoProject, pat,
                         connection, confirmed, create);
      var es := LoadData(pushReady, breakdown).value.0.epics;
      && o.Completed?
      && o.calls == []
      && o.storyIndex == StoryCount(es)
      && o.mapping.stories == []
      && o.mapping.epics.Keys == EpicKeys(es)
      && (forall k :: k in o.mapping.epics ==> o.mapping.epics[k] == None)
      && o.mapping.features.Keys == AllFeatureKeys(es)
      && (forall k :: k in o.mapping.features ==> o.mapping.features[k] == None)
  {
    var es := LoadData(pushReady, breakdown).value.0.epics;
    var env := Env(project, true, create);
    var st := State([], Mapping(map[], map[], []), 0);
    PushEpicsAdvances(env, es, st);
    PushEpicsMapping(env, es, st);
  }

  /** A completed run made exactly the planned calls, in plan order, each
      linked to the id of the latest item of its parent type. */
  lemma RunCompleted(project: string, pushReady: JsonFile, breakdown: JsonFile,
                     organization: string, adoProject: string, pat: string,
                     connection: Result<Transport.Json, Transport.ApiError>, confirmed: bool,
                     create: nat -> Outcome)
    ensures var o := Run(project, false, pushReady, breakdown, organization, adoProject, pat,
                         connection, confirmed, create);
      o.Completed? ==>
        && Unparented(o.calls) == PlanEpics(project, LoadData(pushReady, breakdown).value.0.epics)
        && Linked(o.calls, create)
  {
    var o := Run(project, false, pushReady, breakdown, organization, adoProject, pat,
                 connection, confirmed, create);
    if o.Completed? {
      var es := LoadData(pushReady, breakdown).value.0.epics;
      var st := State([], Mapping(map[], map[], []), 0);
      PushEpicsAdvances(Env(project, false, create), es, st);
      assert st.calls == [];
    }
  }

  /** The mapping file of a completed run: every story counted, one entry
      per story in document order, every epic and feature key mapped. */
  lemma RunCompletedMapping(project: string, pushReady: JsonFile, breakdown: JsonFile,
                            organization: string, adoProject: string, pat: string,
                            connection: Result<Transport.Json, Transport.ApiError>, confirmed: bool,
                            create: nat -> Outcome)
    ensures var o := Run(project, false, pushReady, breakdown, organization, adoProject, pat,
                         connection, confirmed, create);
      o.Completed? ==>
        var es := LoadData(pushReady, breakdown).value.0.epics;
        && o.storyIndex == StoryCount(es)
        && |o.mapping.stories| == StoryCount(es)
        && Labels(o.mapping.stories) == EpicsEntries(es, 0)
        && AdoIds(o.mapping.stories) == StoryIds(o.calls, create)
        && o.mapping.epics.Keys == EpicKeys(es)
        && o.mapping.features.Keys == AllFeatureKeys(es)
  {
    var o := Run(project, false, pushReady, breakdown, organization, adoProject, pat,
                 connection, confirmed, create);
    if o.Completed? {
      var es := LoadData(pushReady, breakdown).value.0.epics;
      var env := Env(project, false, create);
      var st := State([], Mapping(map[], map[], []), 0);
      PushEpicsMapping(env, es, st);
      PushEpicsEntries(env, es, st);
      PushEpicsSynced(env, es, st);
    }
  }

  /** A crashed run made a prefix of the planned calls, linked as in a
      completed run, and the last of them is the create call that raised;
      it is an epic, feature or story, since a failing task does not stop
      the run. */
  lemma RunCrashed(project: string, dryRun: bool, pushReady: JsonFile, breakdown: JsonFile,
                   organization: string, adoProject: string, pat: string,
                   connection: Result<Transport.Json, Transport.ApiError>, confirmed: bool,
                   create: nat -> Outcome)
    ensures var o := Run(project, dryRun, pushReady, breakdown, organization, adoProject, pat,
                         connection, confirmed, create);
      o.Crashed? ==>
        var es := LoadData(pushReady, breakdown).value.0.epics;
        && !dryRun
        && Unparented(o.calls) <= PlanEpics(project, es)
        && Linked(o.calls, create)
        && |o.calls| > 0
        && create(|o.calls| - 1) == Failed(o.error)
        && o.calls[|o.calls| - 1].wiType != TaskItem
  {
    var o := Run(project, dryRun, pushReady, breakdown, organization, adoProject, pat,
                 connection, confirmed, create);
    if o.Crashed? {
      var es := LoadData(pushReady, breakdown).value.0.epics;
      var env := Env(project, dryRun, create);
      var st := State([], Mapping(map[], map[], []), 0);
      PushEpicsAdvances(env, es, st);
      assert st.calls == [];
    }
  }

  // ---------------------------------------------------------------------
  // What the plan adds up to

  /** How many requests have type `t`. */
  function CountType(cs: seq<Request>, t: WorkItemType): nat {
    if |cs| == 0 then 0 else (if cs[0].wiType == t then 1 else 0) + CountType(cs[1..], t)
  }

  lemma {:induction false} CountTypeAppend(a: seq<Request>, b: seq<Request>, t: WorkItemType)
    ensures CountType(a + b, t) == CountType(a, t) + CountType(b, t)
  {
    if |a| == 0 {
      assert a + b == b;
    } else {
      assert (a + b)[0] == a[0];
      assert (a + b)[1..] == a[1..] + b;
      CountTypeAppend(a[1..], b, t);
    }
  }

  lemma {:induction false} CountTypeNone(cs: seq<Request>, t: WorkItemType)
    requires NoneOf(cs, t)
    ensures CountType(cs, t) == 0
  {
    if |cs| > 0 {
      CountTypeNone(cs[1..], t);
    }
  }

  /** The effort a story request carries; 0 for any other request. */
  function StoryEffortOf(r: Request): int {
    if r.wiType == StoryItem && |r.extra| > 0 && r.extra[0].1.Number? then r.extra[0].1.n else 0
  }

  function StoryEfforts(cs: seq<Request>): int {
    if |cs| == 0 then 0 else StoryEffortOf(cs[0]) + StoryEfforts(cs[1..])
  }

  lemma {:induction false} StoryEffortsAppend(a: seq<Request>, b: seq<Request>)
    ensures StoryEfforts(a + b) == StoryEfforts(a) + StoryEfforts(b)
  {
    if |a| == 0 {
      assert a + b == b;
    } else {
      assert (a + b)[0] == a[0];
      assert (a + b)[1..] == a[1..] + b;
      StoryEffortsAppend(a[1..], b);
    }
  }

  lemma StoryEffortsOne(r: Request)
    ensures StoryEfforts([r]) == StoryEffortOf(r)
  {
    assert [r][1..] == [];
  }

  lemma {:induction false} TaskEffortsZero(tasks: seq<Request>)
    requires forall i :: 0 <= i < |tasks| ==> tasks[i].wiType == TaskItem
    ensures StoryEfforts(tasks) == 0
  {
    if |tasks| > 0 {
      TaskEffortsZero(tasks[1..]);
    }
  }

  /** A story's plan: one story request, carrying the story's effort, and
      tasks only. */
  lemma PlanStoryCounts(project: string, epicName: string, featureName: string, s: Story, t: WorkItemType)
    requires t != TaskItem
    ensures CountType(PlanStory(project, epicName, featureName, s), t) == (if t == StoryItem then 1 else 0)
  {
    var r := StoryRequest(project, epicName, featureName, s);
    var tasks := CreateTasks(project, None, s);
    CreateTasksShape(project, None, s);
    CountTypeAppend([r], tasks, t);
    CountTypeNone(tasks, t);
  }

  lemma PlanStoryEffort(project: string, epicName: string, featureName: string, s: Story)
    ensures StoryEfforts(PlanStory(project, epicName, featureName, s)) == Effort(s)
  {
    var r := StoryRequest(project, epicName, featureName, s);
    var tasks := CreateTasks(project, None, s);
    CreateTasksShape(project, None, s);
    StoryEffortsAppend([r], tasks);
    TaskEffortsZero(tasks);
  }

  lemma {:induction false} PlanStoriesCounts(project: string, epicName: string, featureName: string,
                                             ss: seq<Story>, t: WorkItemType)
    requires t != TaskItem
    ensures CountType(PlanStories(project, epicName, featureName, ss), t) == (if t == StoryItem then |ss| else 0)
  {
    if |ss| > 0 {
      PlanStoryCounts(project, epicName, featureName, ss[0], t);
      PlanStoriesCounts(project, epicName, featureName, ss[1..], t);
      CountTypeAppend(PlanStory(project, epicName, featureName, ss[0]),
                      PlanStories(project, epicName, featureName, ss[1..]), t);
    }
  }

  lemma {:induction false} PlanStoriesEffort(project: string, epicName: string, featureName: string, ss: seq<Story>)
    ensures StoryEfforts(PlanStories(project, epicName, featureName, ss)) == SumEffort(ss)
  {
    if |ss| > 0 {
      PlanStoryEffort(project, epicName, featureName, ss[0]);
      PlanStoriesEffort(project, epicName, featureName, ss[1..]);
      StoryEffortsAppend(PlanStory(project, epicName, featureName, ss[0]),
                         PlanStories(project, epicName, featureName, ss[1..]));
      SumEffortAppend([ss[0]], ss[1..]);
      assert [ss[0]] + ss[1..] == ss;
      assert SumEffort([ss[0]]) == SumEffort([]) + Effort(ss[0]);
    }
  }

  lemma {:induction false} PlanFeaturesCounts(project: string, epicName: string, fs: seq<Feature>, t: WorkItemType)
    requires t != TaskItem
    ensures CountType(PlanFeatures(project, epicName, fs), t)
            == (if t == FeatureItem then |fs| else if t == StoryItem then FeatureStoryCount(fs) else 0)
  {
    if |fs| > 0 {
      var f := fs[0];
      var r := FeatureRequest(project, epicName, f);
      var stories := PlanStories(project, epicName, FeatureName(f), f.stories);
      PlanStoriesCounts(project, epicName, FeatureName(f), f.stories, t);
      PlanFeaturesCounts(project, epicName, fs[1..], t);
      CountTypeAppend([r], stories, t);
      CountTypeAppend([r] + stories, PlanFeatures(project, epicName, fs[1..]), t);
    }
  }

  lemma {:induction false} PlanFeaturesEffort(project: string, epicName: string, fs: seq<Feature>)
    ensures StoryEfforts(PlanFeatures(project, epicName, fs)) == SumEffort(FeatureStories(fs))
  {
    if |fs| > 0 {
      var f := fs[0];
      var r := FeatureRequest(project, epicName, f);
      var stories := PlanStories(project, epicName, FeatureName(f), f.stories);
      PlanStoriesEffort(project, epicName, FeatureName(f), f.stories);
      PlanFeaturesEffort(project, epicName, fs[1..]);
      StoryEffortsOne(r);
      StoryEffortsAppend([r], stories);
      StoryEffortsAppend([r] + stories, PlanFeatures(project, epicName, fs[1..]));
      FeatureStoriesCons(fs);
      SumEffortAppend(f.stories, FeatureStories(fs[1..]));
    }
  }

  lemma {:induction false} PlanEpicsCounts(project: string, es: seq<Epic>, t: WorkItemType)
    requires t != TaskItem
    ensures CountType(PlanEpics(project, es), t)
            == (if t == EpicItem then |es| else if t == FeatureItem then FeatureCount(es) else StoryCount(es))
  {
    if |es| > 0 {
      var e := es[0];
      var r := EpicRequest(project, e);
      var features := PlanFeatures(project, EpicName(e), e.features);
      PlanFeaturesCounts(project, EpicName(e), e.features, t);
      PlanEpicsCounts(project, es[1..], t);
      CountTypeAppend([r], features, t);
      CountTypeAppend([r] + features, PlanEpics(project, es[1..]), t);
    }
  }

  lemma {:induction false} PlanEpicsEffort(project: string, es: seq<Epic>)
    ensures StoryEfforts(PlanEpics(project, es)) == SumEffort(AllStories(es))
  {
    if |es| > 0 {
      var e := es[0];
      var r := EpicRequest(project, e);
      var features := PlanFeatures(project, EpicName(e), e.features);
      PlanFeaturesEffort(project, EpicName(e), e.features);
      PlanEpicsEffort(project, es[1..]);
      StoryEffortsOne(r);
      StoryEffortsAppend([r], features);
      StoryEffortsAppend([r] + features, PlanEpics(project, es[1..]));
      AllStoriesCons(es);
      SumEffortAppend(EpicStories(e), AllStories(es[1..]));
    }
  }

  /** What push announces before asking: a full run creates as many epics,
      features and stories as it counted, and the efforts it sends on the
      stories add up to the total days of the breakdown export. */
  lemma PlanMatchesAnnouncement(project: string, es: seq<Epic>)
    ensures var p := PlanEpics(project, es);
      && CountType(p, EpicItem) == |es|
      && CountType(p, FeatureItem) == FeatureCount(es)
      && CountType(p, StoryItem) == StoryCount(es) == TotalsOf(AllStories(es)).stories
      && StoryEfforts(p) == TotalDays(TotalsOf(AllStories(es)))
  {
    PlanEpicsCounts(project, es, EpicItem);
    PlanEpicsCounts(project, es, FeatureItem);
    PlanEpicsCounts(project, es, StoryItem);
    PlanEpicsEffort(project, es);
    StoryCountIsTotal(es);
    TotalDaysIsSumOfEfforts(AllStories(es));
  }
}
