/** The viewer's project data layer (viewer/src/lib/projects.ts): reading
    optional JSON/YAML documents, project summaries, the merged timeline,
    the parsed sources and the communications list. The file system is
    replaced by the values the functions read from it: file contents,
    directory listings and modification times (as integer timestamps). */
module Viewer {
  import opened Wrappers
  import opened Strings
  import Sorting
  import Transport

  // ---------------------------------------------------------------------
  // Optional documents (`readJsonIfExists`, `getProjectConfig`)

  /** A document read from a file that may be absent. `content` is the
      file's text (`None` when it cannot be read) and `parse` the parser
      (`None` when it throws). */
  function ReadParsed<T>(content: Option<string>, parse: string -> Option<T>): (r: Option<T>)
    ensures r.None? <==> content.None? || content.value == "" || parse(content.value).None?
    ensures r.Some? ==> r == parse(content.value)
  {
    match content
    case None => None
    case Some(text) => if text == "" then None else parse(text)
  }

  // ---------------------------------------------------------------------
  // Project configuration and summaries (`listProjects`)

  /** A change request recorded in project.yaml; `date` is its timestamp. */
  datatype ChangeRecord = ChangeRecord(id: string, date: int, summary: string, classification: string,
                                       approved: Option<bool>)

  /** The project.yaml keys the viewer reads. */
  datatype ProjectConfig = ProjectConfig(status: Option<string>, adoProject: Option<string>,
                                         adoOrg: Option<string>, changes: Option<seq<ChangeRecord>>)

  /** One entry of the projects directory, with what the summary reads
      from it: the parsed config (`None` when absent or unparsable), the
      manifest's `summary.successful`, the length of the mapping's
      `stories`, and whether the overview and breakdown exist. */
  datatype ProjectDir = ProjectDir(name: string, isDirectory: bool, config: Option<ProjectConfig>,
                                   successful: Option<int>, storiesLength: Option<nat>,
                                   hasOverview: bool, hasBreakdown: bool)

  datatype ProjectSummary = ProjectSummary(name: string, status: string, adoProject: Option<string>,
                                           adoOrg: Option<string>, filesIngested: int, storiesPushed: int,
                                           changesProcessed: int, hasOverview: bool, hasBreakdown: bool)

  const NewStatus: string := "new"

  /** `x || 0` for an optional number. */
  function OrZero(x: Option<int>): int {
    x.GetOr(0)
  }

  /** `x || "new"` for an optional status. */
  function StatusOr(status: Option<string>): string {
    if status.None? || status.value == "" then NewStatus else status.value
  }

  function Summarize(d: ProjectDir): ProjectSummary
    requires d.config.Some?
  {
    var c := d.config.value;
    ProjectSummary(d.name, StatusOr(c.status), c.adoProject, c.adoOrg,
                   OrZero(d.successful), OrZero(d.storiesLength),
                   OrZero(match c.changes case Some(cs) => Some(|cs|) case None => None),
                   d.hasOverview, d.hasBreakdown)
  }

  /** Summary defaults: the status is the configured one, or "new" when it
      is missing or empty, so it is never empty; the counts are the
      manifest's successful files, the mapping's stories and the config's
      changes, each 0 when missing. */
  lemma SummarizeDefaults(d: ProjectDir)
    requires d.config.Some?
    ensures var s := Summarize(d);
      && s.status != ""
      && (d.config.value.status.Some? && d.config.value.status.value != "" ==> s.status == d.config.value.status.value)
      && (d.config.value.status.None? ==> s.status == NewStatus)
      && s.storiesPushed >= 0
      && (d.storiesLength.Some? ==> s.storiesPushed == d.storiesLength.value)
      && (d.storiesLength.None? ==> s.storiesPushed == 0)
      && (d.successful.Some? ==> s.filesIngested == d.successful.value)
      && (d.successful.None? ==> s.filesIngested == 0)
      && s.changesProcessed == (if d.config.value.changes.Some? then |d.config.value.changes.value| else 0)
      && s.name == d.name
      && s.adoProject == d.config.value.adoProject && s.adoOrg == d.config.value.adoOrg
      && s.hasOverview == d.hasOverview && s.hasBreakdown == d.hasBreakdown
  {
  }

  predicate Listed(d: ProjectDir) {
    d.isDirectory && d.config.Some?
  }

  /** `listProjects`: `root` is the listing of the projects directory
      (`None` when it does not exist). Entries that are not directories or
      have no readable config are skipped; the others are summarised in
      listing order. */
  function ListProjects(root: Option<seq<ProjectDir>>): (r: seq<ProjectSummary>)
    ensures root.None? ==> r == []
  {
    match root
    case None => []
    case Some(entries) => Summaries(entries)
  }

  function Summaries(entries: seq<ProjectDir>): (r: seq<ProjectSummary>)
    ensures |r| <= |entries|
  {
    if |entries| == 0 then []
    else (if Listed(entries[0]) then [Summarize(entries[0])] else []) + Summaries(entries[1..])
  }

  /** A summary is listed exactly when it summarises a configured directory. */
  lemma {:induction false} SummariesMember(entries: seq<ProjectDir>, s: ProjectSummary)
    ensures s in Summaries(entries) <==> exists d :: d in entries && Listed(d) && s == Summarize(d)
  {
    if |entries| > 0 {
      SummariesMember(entries[1..], s);
      assert forall d :: d in entries <==> d == entries[0] || d in entries[1..];
    }
  }

  /** Listing order is kept. */
  lemma {:induction false} SummariesAppend(a: seq<ProjectDir>, b: seq<ProjectDir>)
    ensures Summaries(a + b) == Summaries(a) + Summaries(b)
  {
    if |a| == 0 {
      assert a + b == b;
    } else {
      assert (a + b)[0] == a[0];
      assert (a + b)[1..] == a[1..] + b;
      SummariesAppend(a[1..], b);
    }
  }

  // ---------------------------------------------------------------------
  // Timeline (`getTimeline`, `deriveEventsFromFiles`)

  datatype EventData =
    | NoData
    | ChangeData(id: string, summary: string, classification: string, approved: Option<bool>)
    | Logged(json: Transport.Json)

  datatype Event = Event(eventType: string, timestamp: int, data: EventData)

  const ChangeRequest: string := "change_request"

  /** The files whose existence marks a pipeline step, in the order they
      are checked, with the event each one stands for. */
  const Milestones: seq<(string, string)> := [
    ("project.yaml", "project_created"),
    ("output/requirements_manifest.json", "files_ingested"),
    ("output/overview.md", "overview_generated"),
    ("output/questions.txt", "questions_generated"),
    ("output/breakdown.json", "breakdown_generated"),
    ("output/breakdown.xlsx", "breakdown_exported"),
    ("output/push_ready.json", "push_ready_generated"),
    ("output/ado_mapping.json", "pushed_to_ado")
  ]

  /** One event per existing file (`mtimes` maps the existing paths to
      their modification times), in check order. */
  function FileEvents(checks: seq<(string, string)>, mtimes: map<string, int>): (r: seq<Event>)
    ensures |r| <= |checks|
    ensures forall e :: e in r ==> e.data == NoData && exists c :: c in checks && c.1 == e.eventType
  {
    if |checks| == 0 then []
    else
      var (path, eventType) := checks[0];
      (if path in mtimes then [Event(eventType, mtimes[path], NoData)] else [])
      + FileEvents(checks[1..], mtimes)
  }

  function ChangeEvents(changes: seq<ChangeRecord>): (r: seq<Event>)
    ensures |r| == |changes|
    ensures forall i :: 0 <= i < |r| ==>
      r[i] == Event(ChangeRequest, changes[i].date,
                    ChangeData(changes[i].id, changes[i].summary, changes[i].classification, changes[i].approved))
  {
    if |changes| == 0 then []
    else [Event(ChangeRequest, changes[0].date,
                ChangeData(changes[0].id, changes[0].summary, changes[0].classification, changes[0].approved))]
         + ChangeEvents(changes[1..])
  }

  /** `deriveEventsFromFiles`: the milestone events, then one
      change-request event per change in the config. */
  function DerivedEvents(mtimes: map<string, int>, config: Option<ProjectConfig>): seq<Event> {
    FileEvents(Milestones, mtimes)
    + (if config.Some? && config.value.changes.Some? then ChangeEvents(config.value.changes.value) else [])
  }

  /** The derived change requests are exactly those of the config. */
  lemma DerivedChangeRequests(mtimes: map<string, int>, config: Option<ProjectConfig>, e: Event)
    requires e in DerivedEvents(mtimes, config) && e.eventType == ChangeRequest
    ensures config.Some? && config.value.changes.Some?
    ensures exists c :: c in config.value.changes.value && e.timestamp == c.date
  {
    var files := FileEvents(Milestones, mtimes);
    assert forall c :: c in Milestones ==> c.1 != ChangeRequest;
    assert e !in files;
    var cs := config.value.changes.value;
    var i :| 0 <= i < |ChangeEvents(cs)| && ChangeEvents(cs)[i] == e;
    assert cs[i] in cs;
  }

  function Types(events: seq<Event>): set<string> {
    set e | e in events :: e.eventType
  }

  /** The supplemental events whose type no explicit event has. */
  function Unseen(supplemental: seq<Event>, seen: set<string>): (r: seq<Event>)
    ensures forall e :: e in r <==> e in supplemental && e.eventType !in seen
  {
    if |supplemental| == 0 then []
    else
      assert forall e :: e in supplemental <==> e == supplemental[0] || e in supplemental[1..];
      (if supplemental[0].eventType in seen then [] else [supplemental[0]]) + Unseen(supplemental[1..], seen)
  }

  /** The explicit events, then the unseen supplemental ones. */
  function Merged(events: seq<Event>, supplemental: seq<Event>): seq<Event> {
    events + Unseen(supplemental, Types(events))
  }

  /** The comparator `timestamp(a) - timestamp(b)`. */
  predicate EarlierOrSame(a: Event, b: Event) {
    a.timestamp <= b.timestamp
  }

  lemma EarlierOrSameIsTotalPreorder()
    ensures Sorting.TotalPreorder(EarlierOrSame)
  {
  }

  /** `getTimeline`: `explicit` is events.json (`None` when it could not
      be read), `supplemental` the derived events. */
  function GetTimeline(explicit: Option<seq<Event>>, supplemental: seq<Event>): (r: seq<Event>)
    ensures Sorting.SortedBy(r, EarlierOrSame)
    ensures multiset(r) == multiset(Merged(explicit.GetOr([]), supplemental))
  {
    EarlierOrSameIsTotalPreorder();
    Sorting.Sort(Merged(explicit.GetOr([]), supplemental), EarlierOrSame)
  }

  /** Every explicit event is kept; a supplemental one is kept exactly
      when no explicit event has its type. */
  lemma TimelineMember(explicit: Option<seq<Event>>, supplemental: seq<Event>, e: Event)
    ensures var events := explicit.GetOr([]);
      e in GetTimeline(explicit, supplemental) <==>
        e in events || (e in supplemental && e.eventType !in Types(events))
  {
    var events := explicit.GetOr([]);
    var merged := Merged(events, supplemental);
    assert e in GetTimeline(explicit, supplemental) <==> e in multiset(merged);
  }

  /** Events with the same timestamp keep their merged order. */
  lemma TimelineStable(explicit: Option<seq<Event>>, supplemental: seq<Event>)
    ensures Sorting.Stable(Merged(explicit.GetOr([]), supplemental), GetTimeline(explicit, supplemental), EarlierOrSame)
  {
    EarlierOrSameIsTotalPreorder();
    Sorting.SortIsStable(Merged(explicit.GetOr([]), supplemental), EarlierOrSame);
  }

  /** One logged change request hides every change request derived from
      the config; the same holds for every other event type. */
  lemma ExplicitChangeRequestWins(explicit: seq<Event>, mtimes: map<string, int>, config: Option<ProjectConfig>)
    requires exists x :: x in explicit && x.eventType == ChangeRequest
    ensures forall e :: e in GetTimeline(Some(explicit), DerivedEvents(mtimes, config)) && e.eventType == ChangeRequest
                        ==> e in explicit
  {
    var x :| x in explicit && x.eventType == ChangeRequest;
    assert ChangeRequest in Types(explicit);
    forall e | e in GetTimeline(Some(explicit), DerivedEvents(mtimes, config)) && e.eventType == ChangeRequest
      ensures e in explicit
    {
      TimelineMember(Some(explicit), DerivedEvents(mtimes, config), e);
    }
  }

  // ---------------------------------------------------------------------
  // Sources (`getSources`)

  /** The manifest entry keys the viewer reads. */
  datatype ManifestFile = ManifestFile(filename: string, format: string, parsedFile: Option<string>,
                                       estimatedTokens: Option<int>, change: Option<string>)

  datatype SourceFile = SourceFile(filename: string, parsedFile: string, content: string,
                                   format: Option<string>, estimatedTokens: Option<int>, change: Option<string>)

  const MdSuffix: string := ".md"

  /** `files.find(mf => mf.parsed_file === f)`: the first entry for `f`. */
  function FindEntry(files: seq<ManifestFile>, f: string): (r: Option<ManifestFile>)
    ensures r.None? <==> forall m :: m in files ==> m.parsedFile != Some(f)
    ensures r.Some? ==> exists i :: 0 <= i < |files| && files[i] == r.value && r.value.parsedFile == Some(f)
                                    && forall j :: 0 <= j < i ==> files[j].parsedFile != Some(f)
  {
    if |files| == 0 then None
    else if files[0].parsedFile == Some(f) then Some(files[0])
    else
      var r := FindEntry(files[1..], f);
      assert forall m :: m in files <==> m == files[0] || m in files[1..];
      if r.Some? then
        var i :| 0 <= i < |files[1..]| && files[1..][i] == r.value && r.value.parsedFile == Some(f)
                 && forall j :: 0 <= j < i ==> files[1..][j].parsedFile != Some(f);
        assert files[i + 1] == r.value;
        r
      else r
  }

  /** `f.replace(/\.md$/, "")` */
  function StripMd(f: string): (r: string)
    ensures EndsWith(f, MdSuffix) ==> r + MdSuffix == f
    ensures !EndsWith(f, MdSuffix) ==> r == f
  {
    if EndsWith(f, MdSuffix) then
      assert f[..|f| - |MdSuffix|] + f[|f| - |MdSuffix|..] == f;
      f[..|f| - |MdSuffix|]
    else f
  }

  /** The ".md" names of a listing, in listing order. */
  function MdFiles(listing: seq<string>): (r: seq<string>)
    ensures forall f :: f in r <==> f in listing && EndsWith(f, MdSuffix)
  {
    if |listing| == 0 then []
    else
      assert forall f :: f in listing <==> f == listing[0] || f in listing[1..];
      (if EndsWith(listing[0], MdSuffix) then [listing[0]] else []) + MdFiles(listing[1..])
  }

  /** One source: the manifest entry's filename when it has one, else the
      parsed name without ".md"; format, tokens and change from the entry. */
  function SourceOf(f: string, content: string -> string, manifest: Option<seq<ManifestFile>>): SourceFile {
    var entry := if manifest.Some? then FindEntry(manifest.value, f) else None;
    var filename := if entry.Some? && entry.value.filename != "" then entry.value.filename else StripMd(f);
    SourceFile(filename, f, content(f),
               if entry.Some? then Some(entry.value.format) else None,
               if entry.Some? then entry.value.estimatedTokens else None,
               if entry.Some? then entry.value.change else None)
  }

  function SourcesOf(files: seq<string>, content: string -> string, manifest: Option<seq<ManifestFile>>): (r: seq<SourceFile>)
    ensures |r| == |files|
    ensures forall i :: 0 <= i < |files| ==> r[i] == SourceOf(files[i], content, manifest)
  {
    if |files| == 0 then [] else [SourceOf(files[0], content, manifest)] + SourcesOf(files[1..], content, manifest)
  }

  /** `getSources`: `listing` is the parsed directory (`None` when it does
      not exist), `content` the text of each file and `manifest` the
      manifest's `files` (`None` when absent). */
  function GetSources(listing: Option<seq<string>>, content: string -> string,
                      manifest: Option<seq<ManifestFile>>): (r: seq<SourceFile>)
    ensures listing.None? ==> r == []
    ensures listing.Some? ==> |r| == |MdFiles(listing.value)|
  {
    match listing
    case None => []
    case Some(names) => SourcesOf(Sorting.SortStrings(MdFiles(names)), content, manifest)
  }

  /** The sources are the ".md" files of the directory, each once per
      listing, in ascending name order. */
  lemma SourcesSortedMarkdown(names: seq<string>, content: string -> string, manifest: Option<seq<ManifestFile>>)
    ensures var r := GetSources(Some(names), content, manifest);
      var parsed := seq(|r|, i requires 0 <= i < |r| => r[i].parsedFile);
      && Sorting.SortedBy(parsed, Sorting.LexLe)
      && multiset(parsed) == multiset(MdFiles(names))
      && forall i :: 0 <= i < |r| ==> EndsWith(r[i].parsedFile, MdSuffix)
  {
    var sorted := Sorting.SortStrings(MdFiles(names));
    var r := GetSources(Some(names), content, manifest);
    var parsed := seq(|r|, i requires 0 <= i < |r| => r[i].parsedFile);
    assert parsed == sorted;
    forall i | 0 <= i < |r| ensures EndsWith(r[i].parsedFile, MdSuffix) {
      assert sorted[i] in multiset(MdFiles(names));
    }
  }

  /** A source's display name: the filename of the first manifest entry
      for its parsed file when that is non-empty, otherwise the parsed
      name with its ".md" taken off. */
  lemma SourceFilename(f: string, content: string -> string, manifest: Option<seq<ManifestFile>>)
    requires EndsWith(f, MdSuffix)
    ensures var s := SourceOf(f, content, manifest);
      if manifest.Some? && FindEntry(manifest.value, f).Some? && FindEntry(manifest.value, f).value.filename != ""
      then s.filename == FindEntry(manifest.value, f).value.filename
      else s.filename + MdSuffix == f
  {
  }

  // ---------------------------------------------------------------------
  // Communications (`getCommunications`)

  datatype CommType = Questions | Answer | ChangeRequestFile

  datatype Communication = Communication(commType: CommType, filename: string, content: string, date: int)

  /** A file of the answers or changes directory: its name, its text
      (`None` when it cannot be read) and its modification time. */
  datatype DirFile = DirFile(name: string, content: Option<string>, mtime: int)

  const QuestionsFile: string := "questions.txt"
  const BinaryPlaceholder: string := "(binary file)"

  /** `readFileIfExists(full) || "(binary file)"` */
  function TextOr(content: Option<string>): (r: string)
    ensures r != ""
  {
    if content.Some? && content.value != "" then content.value else BinaryPlaceholder
  }

  /** The files of a directory not starting with '.', in listing order. */
  function Visible(files: seq<DirFile>, kind: CommType): (r: seq<Communication>)
    ensures |r| <= |files|
    ensures forall c :: c in r ==> c.commType == kind && !StartsWith(c.filename, ".") && c.content != ""
  {
    if |files| == 0 then []
    else
      (if StartsWith(files[0].name, ".") then []
       else [Communication(kind, files[0].name, TextOr(files[0].content), files[0].mtime)])
      + Visible(files[1..], kind)
  }

  predicate DateLe(a: Communication, b: Communication) {
    a.date <= b.date
  }

  lemma DateLeIsTotalPreorder()
    ensures Sorting.TotalPreorder(DateLe)
  {
  }

  /** The communications before sorting: the questions when the file has
      text, then the answers, then the change requests. */
  function Unsorted(questions: Option<DirFile>, answers: Option<seq<DirFile>>,
                    changes: Option<seq<DirFile>>): seq<Communication> {
    (if questions.Some? && questions.value.content.Some? && questions.value.content.value != ""
     then [Communication(Questions, QuestionsFile, questions.value.content.value, questions.value.mtime)]
     else [])
    + (if answers.Some? then Visible(answers.value, Answer) else [])
    + (if changes.Some? then Visible(changes.value, ChangeRequestFile) else [])
  }

  /** `getCommunications`: `questions` is output/questions.txt, `answers`
      and `changes` the two directories (`None` when absent). */
  function GetCommunications(questions: Option<DirFile>, answers: Option<seq<DirFile>>,
                             changes: Option<seq<DirFile>>): (r: seq<Communication>)
    ensures Sorting.SortedBy(r, DateLe)
    ensures multiset(r) == multiset(Unsorted(questions, answers, changes))
  {
    DateLeIsTotalPreorder();
    Sorting.Sort(Unsorted(questions, answers, changes), DateLe)
  }

  /** Communications with the same date keep their collection order. */
  lemma CommunicationsStable(questions: Option<DirFile>, answers: Option<seq<DirFile>>,
                             changes: Option<seq<DirFile>>)
    ensures Sorting.Stable(Unsorted(questions, answers, changes), GetCommunications(questions, answers, changes), DateLe)
  {
    DateLeIsTotalPreorder();
    Sorting.SortIsStable(Unsorted(questions, answers, changes), DateLe);
  }

  /** No hidden file shows up, and nothing is shown without content. */
  lemma CommunicationsVisible(questions: Option<DirFile>, answers: Option<seq<DirFile>>,
                              changes: Option<seq<DirFile>>, c: Communication)
    requires c in GetCommunications(questions, answers, changes)
    ensures c.content != ""
    ensures c.commType == Questions ==> c.filename == QuestionsFile
    ensures c.commType != Questions ==> !StartsWith(c.filename, ".")
  {
    assert c in multiset(Unsorted(questions, answers, changes));
  }
}
