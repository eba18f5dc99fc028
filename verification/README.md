# presales-pipeline work-item sync, modelled in Dafny

This project models the part of presales-pipeline that talks to Azure DevOps (ADO) and the helpers around it. Its parts:

- **The ADO client (core/ado.py)**:
  - the retry loop of `_api_request`;
  - the Basic authorisation header;
  - the JSON-Patch documents of `create_work_item` and `update_work_item`;
  - the 200-id batched read of `get_work_items_by_query`;
  - the classification in `get_all_work_items`;
  - the child filter of `get_child_work_items`;
  - `test_connection`.
- **The push command (commands/push.py)**:
  - the depth-first creation of epics, features, user stories and discipline tasks;
  - the id mapping it writes and the dry-run behaviour;
  - the HTML it builds and the data-source choice.
- **The enrich and validate commands (commands/enrich.py, commands/validate.py)**:
  - Figma file-key extraction and frame collection;
  - the 50-frame image batches and screenshot file names;
  - the reuse of screenshots already on disk;
  - the six-key story records read back from ADO, with the acceptance-criteria fallback and enrich's id filter.
- **The breakdown export (commands/breakdown_export.py)**:
  - the discipline totals;
  - the per-epic summary lines;
  - the `breakdown.json` acceptance rule.
- **The viewer's data layer (viewer/src/lib/projects.ts)**:
  - optional documents and project summaries;
  - the de-duplicated, time-sorted timeline;
  - parsed sources and sorted communications.

Everything is a pure function over immutable datatypes. The network, the file system and the user are replaced by inputs:

- **Create calls**: `create: nat -> Outcome` gives the result of the n-th create call of a push run.
- **HTTP attempts**: `respond: nat -> Response` gives the response to the n-th attempt of one API request.
- **Figma**: the file document per key, the image URLs per slice of 50 frames, and whether a download succeeded.
- **ADO reads**: the WIQL answer and the outcome of each detail batch. The bundles' stories are derived from these through the batched read and the classification, as written, so every story in a written bundle has empty acceptance criteria. The runs over the corrected read, which keeps the criteria, are named separately (`Bundles.EnrichRunKept`, `Bundles.ValidateRunKept`; see "## Findings").
- **Disk and clock**: directory listings, file contents and modification times (integers).
- **The user**: confirmation is a boolean.

Modules, one per file:

- **Wrappers**: `Option` and `Result`.
- **Strings**: prefixes and suffixes, decimal rendering and parsing, split and join, padding, replacement, ASCII lower-casing.
- **Sorting**: a stable insertion sort over a total preorder, used for Python's `sorted` and JavaScript's `Array.prototype.sort`.
- **Utf8** and **Base64**: `str.encode()` and section 4 of RFC 4648, each with its round trip.
- **Transport**: responses, the retry loop, `AdoConfig`, `from_project`, `auth_header`, `test_connection`.
- **Patches**: create and update documents.
- **Query**: batched reads, classification, child lookup.
- **Breakdown**: the effort tree, totals and summaries, `_load_breakdown`.
- **Push**: HTML builders, tasks, the create walk, the mapping, `_load_data` and `run`.
- **Figma**: file keys, frames, batches, file names, reuse.
- **Stories**: ADO story records for enrich and validate.
- **Bundles**: the two commands end to end.
- **Viewer**: projects.ts.

## Model

| member | source | states |
|---|---|---|
| Strings.PadLeft | commands/push.py:124 | The `:03d` padding keeps the digits as the suffix, fills only the missing width, and never shortens. |
| Strings.NatToString | commands/push.py:124 | `str(n)` is all digits, has no leading zero, and has one, two or three digits below 10, 100 and 1000. |
| Strings.ParseNatToString | commands/push.py:124 | Reading back the rendering of a number gives the number: the running story number survives formatting. |
| Strings.NatToStringInjective | commands/enrich.py:187-188 | Distinct non-negative ids have distinct `str` forms, so the id filter cannot confuse two stories. |
| Strings.IntToString | commands/enrich.py:187-188 | `str(i)` of a negative id is a minus sign followed by the rendering of its magnitude. |
| Strings.ReplaceChar | commands/enrich.py:83 | `replace("_", " ")` keeps the length and changes exactly the underscores. |
| Strings.LowerAscii | commands/push.py:130 | `.lower()` maps each capital ASCII letter to its small letter, leaves no capital ASCII letter and keeps every other character. |
| Strings.SplitJoin | commands/push.py:85 | Joining parts with ";" and splitting again gives the parts back when none contains ";". |
| Strings.ConcatAppend | commands/push.py:72 | `"".join` over two lists is the join of the first followed by the join of the second. |
| Sorting.Sort | viewer/src/lib/projects.ts:113-115 | The sort returns a permutation of its input, ordered by the comparator. |
| Sorting.SortIsStable | viewer/src/lib/projects.ts:113-115 | Elements the comparator cannot tell apart keep their input order. |
| Sorting.SortTiedWith | viewer/src/lib/projects.ts:253-256 | For every key, the elements tied with it appear in the same order before and after sorting. |
| Sorting.LexLeIsTotalPreorder | commands/enrich.py:80 | Code-point order on names is total and transitive, so `sorted` is well defined on file names. |
| Sorting.LexLeAntisymmetric | commands/enrich.py:80 | Two names that sort before each other are equal, so the sorted order of distinct names is unique. |
| Sorting.SortStrings | viewer/src/lib/projects.ts:176-179 | `.sort()` of file names returns the same names, in ascending code-point order. |
| Utf8.EncodeChar | core/ado.py:31 | A character encodes to one to four bytes, a single byte exactly for ASCII, and continuation bytes after the first. |
| Utf8.Encode | core/ado.py:31 | An encoded string is at least as long as the string, and exactly as long when the string is ASCII. |
| Utf8.DecodeFirstEncodeChar | core/ado.py:31 | Decoding starts by recovering the first character and its byte length from its encoding. |
| Utf8.DecodeEncode | core/ado.py:31 | Decoding the UTF-8 bytes of a string gives the string back. |
| Base64.CharSextet | core/ado.py:31 | A character has a 6-bit value exactly when it is in the RFC 4648 alphabet, and that value maps back to it. |
| Base64.Encode | core/ado.py:31 | `b64encode` yields 4 characters per started 3-byte group. |
| Base64.EncodeAlphabet | core/ado.py:31 | Every character of the encoding is from the alphabet or '=', and '=' only fills the last two places. |
| Base64.DecodeGroup | core/ado.py:31 | A full 3-byte group decodes back from its four characters, whatever follows. |
| Base64.DecodeQuad | core/ado.py:31 | A group of four characters stands for one to three bytes, and fewer than three only when it is the padded last group. |
| Base64.DecodeEncode | core/ado.py:31 | Decoding the base 64 text of any bytes gives the bytes back. |
| Transport.ApiRequest | core/ado.py:351-400 | At most three attempts are made. Every attempt but the last was retryable. The call fails with "after 3 retries" exactly when all three attempts were retryable, and then all three were made. Otherwise the last attempt was not retryable. The delays are the back-offs of the retried attempts. |
| Transport.FinalAttemptDecides | core/ado.py:371-398 | Success, a non-retryable HTTP error (with at most 500 body characters) or an unhandled exception ends the call with that outcome. |
| Transport.AlwaysRateLimited | core/ado.py:384-388 | A permanently rate-limited endpoint is tried three times, waiting 2, 4 and 8 seconds, then fails. |
| Transport.RateLimitedOnceThenOk | core/ado.py:384-388 | One 429 followed by a success succeeds on the second attempt after 2 seconds. |
| Transport.ServerErrorEveryTime | core/ado.py:389-398 | Server errors are retried after 1 and 2 seconds, and the third is reported as an API error. |
| Transport.ClientErrorFailsFast | core/ado.py:393-398 | Any other HTTP error fails on its first attempt, without a back-off. |
| Transport.FromProject | core/ado.py:35-46 | A configuration exists exactly when organisation, project and token are all non-empty, and it carries them. |
| Transport.AuthHeader | core/ado.py:29-32 | The header is "Basic " followed by base 64 text that decodes, as UTF-8, to ":" and the token. |
| Transport.TestConnection | core/ado.py:235-245 | The test passes only when the request succeeded. It then passes exactly when the answer is an object with an "id" key, a list holding the string "id", or a string containing "id". A number, boolean or null answer never passes. |
| Patches.NormalizePath | core/ado.py:105-109 | A field path always starts with "/fields/", and the prefix is added only when missing. |
| Patches.NormalizePathIdempotent | core/ado.py:133-137 | Normalising an already normalised path changes nothing. |
| Patches.FieldOpsAt | core/ado.py:105-109 | The i-th extra field becomes the i-th operation, with its path normalised and its value unchanged. |
| Patches.CreatePatch | core/ado.py:77-109 | The document starts with the title. Description, tags and parent link each add one operation only when present. Then one operation per extra field, in order. |
| Patches.CreatePatchHead | core/ado.py:77-103 | Before the extra fields there is exactly one title operation, at most one description and one tags operation, and at most one relation. |
| Patches.CreatePatchParentLink | core/ado.py:95-103 | A relation is added exactly when a parent id is given, and it is a reverse-hierarchy link to that parent's URL. |
| Patches.UpdatePatch | core/ado.py:133-137 | An update sends exactly one operation per field, in order, with normalised paths. |
| Patches.UpdatePatchStable | core/ado.py:133-137 | Re-sending an update built from its own normalised paths produces the same document. |
| Query.Chunks | core/ado.py:164-165 | The slices of `range(0, len, n)` concatenate back to the list; none is empty, none exceeds n, and all but the last are full. |
| Query.ChunksCount | core/ado.py:164-165 | The number of slices is the ceiling of the length divided by the batch size. |
| Query.FlattenAppend | core/ado.py:172 | Extending with each batch's records keeps the batches' order. |
| Query.FetchBatches | core/ado.py:164-173 | Batches are requested in order. The read succeeds exactly when every batch does, with the records gathered batch by batch. A failing batch stops the loop and no later batch is requested. |
| Query.GetWorkItemsByQuery | core/ado.py:143-174 | A failed query makes no detail request. An empty result returns [] without one. Otherwise the detail requests are consecutive slices of at most 200 query ids, in order, and success returns all their records. |
| Query.BatchedRead | core/ado.py:164-174 | Over consecutive batches of at most 200 ids, the requests made are a prefix of the batches. Success means all ceil(n/200) batches were requested and every record gathered; a failure carries the last request's error. |
| Query.FieldOr | core/ado.py:215-223 | A missing field reads as "". |
| Query.OfTypeAppend | core/ado.py:214-230 | Selecting one type commutes with concatenation, so each group keeps the incoming order. |
| Query.OfTypeMember | core/ado.py:214-230 | An item's entry is in the group of its own type, and in no other. |
| Query.Classify | core/ado.py:214-232 | The three groups are exactly the epic, feature and user-story entries in incoming order. With the dropped items, they account for every item once. |
| Query.ChildIds | core/ado.py:329-334 | A kept target is present, non-zero and not the parent. Every such target is kept. |
| Query.ChildIdsAppend | core/ado.py:329-334 | The child filter keeps relation order. |
| Query.GetChildWorkItems | core/ado.py:316-346 | A failed link query, or no remaining child, makes no detail request. Otherwise one request carries exactly the children, and the parent id is never requested. |
| Breakdown.TotalsOf | commands/breakdown_export.py:30-41 | The story count of the totals is the number of stories. |
| Breakdown.TotalsOfAppend | commands/breakdown_export.py:33-40 | The totals of two runs of stories add up discipline by discipline, so they do not depend on how the stories are grouped. |
| Breakdown.AddStories | commands/breakdown_export.py:35-40 | The innermost loop adds one feature's stories to the running totals. |
| Breakdown.AddFeatures | commands/breakdown_export.py:34-40 | The middle loop adds the stories of an epic's features, in order. |
| Breakdown.ComputeTotals | commands/breakdown_export.py:30-41 | The three loops compute the per-discipline sums and the number of stories over every epic and feature. |
| Breakdown.TotalDaysIsSumOfEfforts | commands/breakdown_export.py:46 | Total days, the sum of the four discipline totals, equals the sum of each story's four-discipline effort. |
| Breakdown.EpicSummary | commands/breakdown_export.py:59-67 | An epic's line counts its own stories and their days. |
| Breakdown.EpicLinesAddUp | commands/breakdown_export.py:59-67 | The per-epic lines add up to the grand total days and the total story count. |
| Breakdown.StoryCountIsTotal | commands/push.py:46-50 | The count push announces equals the number of stories the export totals. |
| Breakdown.FeatureStoriesCons | commands/breakdown_export.py:34-35 | An epic's stories read from the front: the first feature's stories, then the rest. |
| Breakdown.LoadBreakdown | commands/breakdown_export.py:154-170 | The tree is returned exactly when the file exists, parses and has an "epics" key. |
| Push.PatchOf | core/ado.py:77-109 | Each create call sends the title first, plus one operation per present description, tags, parent and extra field. |
| Push.StoryIdFormat | commands/push.py:124 | A story keeps its own id. Otherwise the id is "US-" followed by digits that read back as the running number, six characters below 1000. |
| Push.PaddedDigits | commands/push.py:124 | Zero-padding digits keeps them digits and keeps their value. |
| Push.Tags | commands/push.py:85 | Tags are "presales" followed by the given parts, separated by ";". |
| Push.TagsSplit | commands/push.py:85 | Splitting the tags on ";" gives back "presales" and the parts when no part contains ";". |
| Push.ParseListItems | commands/push.py:72 | A list of `<li>` items reads back as the labels that built it. |
| Push.FeatureLabels | commands/push.py:67 | The epic's feature list names each feature in order, "?" for a missing name. |
| Push.StoryLabels | commands/push.py:96 | The feature's story list names each story in order, "?" for a missing title. |
| Push.EpicHtmlListsFeatures | commands/push.py:67-74 | Between its header and the first "</ul>", the epic's HTML holds one `<li>` item per feature, in order, each holding that feature's name or "?". When no name contains "<", the items read back to exactly the names. |
| Push.FeatureHtmlListsStories | commands/push.py:96-102 | Between its header and the first "</ul>", the feature's HTML holds one `<li>` item per story, in order, each holding that story's title or "?". When no title contains "<", the items read back to exactly the titles. |
| Push.StoryDescriptionFields | commands/push.py:214-221 | The user story, the epic and the feature sit at fixed offsets of the description and can be read back. |
| Push.NonEmpty | commands/push.py:230 | The truthy items are kept, and only those, each as often as it occurs. |
| Push.NonEmptyOne | commands/push.py:230 | One item is kept exactly when it is truthy. |
| Push.NonEmptyAppend | commands/push.py:230 | The filter goes item by item: the kept items of two lists in a row are those of the first followed by those of the second, so order and repeats are kept. |
| Push.NonEmptyKeepsAll | commands/push.py:230 | A list with no empty item is kept whole. |
| Push.AcHtml | commands/push.py:224-233 | A string, even empty, becomes one paragraph. A non-empty list becomes an ordered list of its truthy entries. Anything else becomes the placeholder. |
| Push.AcHtmlItems | commands/push.py:229-231 | A non-empty list becomes an ordered list with one `<li>` item per entry of `Push.NonEmpty` of the list (the truthy entries, in order and with repeats, by `Push.NonEmptyAppend`), whatever the entries hold. When no entry contains "<", the items read back to exactly those entries. |
| Push.ListItemsSlots | commands/push.py:72 | In a run of list items, the i-th `<li>`…`</li>` slot holds exactly the i-th string. |
| Push.ListItemsAmbiguous | commands/push.py:72 | Names are not escaped: a name holding "</li><li>" renders exactly like two names. |
| Push.TaskRequests | commands/push.py:197-209 | At most one task per listed discipline. |
| Push.CreateTasks | commands/push.py:189-211 | FE, BE and DevOps tasks, in that order, each only when its days are positive, titled "[prefix] title" and carrying its days as effort. |
| Push.CreateTasksShape | commands/push.py:192-209 | Every task is a Task under the story, tagged with the project, and never a design task. |
| Push.StoryRequest | commands/push.py:134-157 | The story's Effort field is fe+be+devops+design, missing values as 0, and its acceptance criteria are the rendered HTML. |
| Push.Unparented | commands/push.py:62-171 | Dropping parent ids keeps every request's other arguments, one for one. |
| Push.LinkedAt | commands/push.py:114-153 | In a linked call sequence, every call's parent is the id the latest call of the parent type returned. |
| Push.LinkedTasks | commands/push.py:163-204 | Tasks created under the latest story keep the call sequence linked. |
| Push.LastIdSkip | commands/push.py:62-171 | Calls of other types do not change the latest id of a type. |
| Push.CallFailed | commands/push.py:82-87 | A failing epic, feature or story call ends the walk right after that call. |
| Push.TasksCreated | commands/push.py:163 | A story's tasks are created right after it. A failing task is swallowed and the rest are still tried. |
| Push.PushStory | commands/push.py:121-171 | A story advances `story_index` by one, also in a dry run. Outside a dry run it appends exactly one mapping entry. The epic and feature maps are untouched. |
| Push.PushStoryAdvances | commands/push.py:121-171 | A story's calls are the story under its feature's id, then its tasks under the story's id. A dry run calls nothing. |
| Push.PushStories | commands/push.py:121-171 | A feature's stories advance the index by their number and append one entry each outside a dry run. |
| Push.PushStoriesAdvances | commands/push.py:121-171 | The stories' calls are their planned requests, in order, each linked to the right parent. |
| Push.PushStoriesEntries | commands/push.py:165-171 | Each created story appends an entry with its id, title, epic and feature, in order, with "US-NNN" from its running number when it has no id. |
| Push.PushStorySynced | commands/push.py:149-171 | A created story's entry records, as `ado_id`, the id its create call returned, so the entries' ids stay the ids returned to the story calls. |
| Push.PushStoriesSynced | commands/push.py:121-171 | Over a feature's stories, the entries' `ado_id`s stay the ids returned to the story create calls, in order. |
| Push.PushEpicsSynced | commands/push.py:62-171 | Over the whole walk, the entries' `ado_id`s stay the ids returned to the story create calls, in order; epic, feature and task calls add none. |
| Push.AssignsThen | commands/push.py:90-119 | Writing keys one after another assigns the union of the keys and keeps the other entries. |
| Push.PushFeature | commands/push.py:92-119 | A feature's key maps to its created id, or None in a dry run. Later duplicates overwrite earlier ones. |
| Push.PushFeatureAdvances | commands/push.py:92-119 | The feature is created under its epic's id, followed by its stories' calls. |
| Push.PushFeatures | commands/push.py:92-171 | An epic's features advance the story index by their story count. |
| Push.PushFeaturesMapping | commands/push.py:92-119 | The feature map gains exactly the features' keys, all None in a dry run. The epic map is unchanged. |
| Push.PushFeaturesAdvances | commands/push.py:92-171 | The features' calls follow the depth-first plan, in order, each linked to its parent. |
| Push.PushFeaturesEntries | commands/push.py:92-171 | The mapping gains the stories' entries feature by feature. |
| Push.PushEpic | commands/push.py:62-171 | An epic advances the story index by its story count. |
| Push.PushEpicMapping | commands/push.py:62-119 | The epic's key maps to its id (None in a dry run), and its features' keys are assigned. |
| Push.PushEpicAdvances | commands/push.py:62-171 | The epic is created without a parent, then its features in plan order. |
| Push.PushEpicEntries | commands/push.py:62-171 | The epic's stories' entries are recorded in order. |
| Push.PushEpics | commands/push.py:62-171 | The whole walk advances the story index by the total story count. |
| Push.PushEpicsMapping | commands/push.py:62-119 | The epic and feature maps gain exactly the tree's keys, all None in a dry run, and the stories list grows by the story count outside one. |
| Push.PushEpicsAdvances | commands/push.py:62-171 | The walk's calls are the depth-first plan, left to right, and every call is linked to its parent's id. |
| Push.PushEpicsEntries | commands/push.py:62-171 | The stories list of a non-dry walk is the tree's entries in traversal order. |
| Push.LoadData | commands/push.py:236-263 | `push_ready.json` wins when it parses and has "epics". Otherwise `breakdown.json` is used under the same test. There is no source exactly when neither passes. |
| Push.Run | commands/push.py:17-56 | There is no source exactly when loading found none. A run that reaches the walk had, outside a dry run, a complete configuration, a passing connection test and the user's confirmation. A completed run reports the source the data came from. |
| Push.RunChecksFirst | commands/push.py:17-56 | No create call happens before a source is found. Outside a dry run it also needs a complete configuration, a passing connection test and the user's confirmation. Only a non-dry run can crash. |
| Push.RunDry | commands/push.py:78-80 | A dry run makes no call. Every epic and feature key maps to None, the stories list is empty, and the index counts every story. |
| Push.RunCompleted | commands/push.py:62-171 | A completed run made exactly the planned calls, in depth-first order, each linked to its parent's returned id. |
| Push.RunCompletedMapping | commands/push.py:165-184 | A completed run's mapping has one story entry per story, in order, with the tree's epic and feature keys. The entries' `ado_id`s are the ids returned to the story create calls, in order. `story_index` equals `total_stories`. |
| Push.RunCrashed | commands/push.py:82-87 | A crash happens only outside a dry run, on a failed epic, feature or story call (never a task). The calls before it are a prefix of the plan, and no mapping is written. |
| Push.PlanMatchesAnnouncement | commands/push.py:45-54 | The plan creates as many epics, features and stories as announced, and its story efforts add up to the export's total days. |
| Push.PlanEpicsCounts | commands/push.py:46-52 | The plan has one request per epic, per feature and per story. |
| Push.PlanEpicsEffort | commands/push.py:134-157 | The stories' Effort fields add up to the sum of all story efforts. Tasks add nothing. |
| Figma.AlnumRun | commands/enrich.py:225 | The key is the longest alphanumeric prefix after the match. |
| Figma.IsKeyIsAlnumRun | commands/enrich.py:225 | The regex group `[a-zA-Z0-9]+` matches exactly the non-empty maximal alphanumeric run. |
| Figma.MatchAtIsKeyAt | commands/enrich.py:225 | The computed match at a position is exactly the declarative regex match there. |
| Figma.FirstMatch | commands/enrich.py:225 | `re.search` finds the leftmost position where the pattern matches, and none before it. |
| Figma.ExtractFileKey | commands/enrich.py:223-226 | An extracted key is non-empty and alphanumeric. |
| Figma.ExtractFileKeyLeftmost | commands/validate.py:79-83 | None means no match anywhere. Otherwise the key is the one matched at the leftmost "figma.com/design/" or "figma.com/file/". |
| Figma.DesignLinkKey | commands/enrich.py:223-226 | A design link yields its key, up to the first non-alphanumeric character. |
| Figma.PageFrames | commands/enrich.py:107-113 | A page contributes exactly its direct FRAME children, named "Untitled" when unnamed, tagged with the page name. |
| Figma.CollectFramesMember | commands/validate.py:96-110 | A frame is collected exactly when it is a FRAME child of some page. |
| Figma.CollectFramesAppend | commands/enrich.py:103-113 | Collection keeps page-then-child order. |
| Figma.Sanitize | commands/enrich.py:146 | Every character outside `[\w\-.]` becomes "_", every other is kept, and the length is unchanged. |
| Figma.SanitizeIdempotent | commands/validate.py:142 | Sanitising a sanitised name changes nothing. |
| Figma.ScreenshotFileName | commands/enrich.py:146-147 | The file name ends in ".png" and has a non-empty stem. |
| Figma.FileNameHasNoColon | commands/validate.py:142-143 | The node id's ":" is rewritten, so no file name contains ":". |
| Figma.BatchScreens | commands/enrich.py:133-144 | A failed image request skips the whole batch. Otherwise at most one screen per frame. |
| Figma.ScreenshotsFromFrames | commands/enrich.py:140-157 | Every screen comes from a collected frame, with its name, node id and page. |
| Figma.SliceScreensPerFrame | commands/enrich.py:124-159 | Processing slices of 50 equals processing each frame with the image answer of its own slice. |
| Figma.FetchScreenshots | commands/validate.py:86-157 | Nothing is returned exactly when the file request failed or the file has no frames. |
| Figma.FetchScreenshotsPerFrame | commands/validate.py:118-157 | With frames, the screens are those of the per-frame rule over 50-frame slices. |
| Figma.ScreenshotsMember | commands/validate.py:140-155 | A frame whose URL exists and whose download succeeded has its screen in the result. |
| Figma.BeforeLast | commands/enrich.py:83 | `rsplit("_", 1)[0]` is the text before the last "_", or the whole text when there is none. |
| Figma.RecoverScreenshotName | commands/enrich.py:83 | For a node id without "_", the recovered name is the sanitised name with "_" read as spaces. |
| Figma.RecoverPlainName | commands/enrich.py:83 | Names of letters, digits, "-", "." and spaces are recovered exactly. |
| Figma.Pngs | commands/enrich.py:76 | The glob keeps exactly the ".png" names. |
| Figma.Reused | commands/enrich.py:79-87 | One screen per file, with empty node id and page, the file's path, and the recovered name. |
| Figma.GetScreenshots | commands/enrich.py:70-92 | Existing screenshots are reused when there are any. Otherwise they are fetched. |
| Figma.ReusedInNameOrder | commands/enrich.py:75-88 | Reused screens come one per ".png" file, in sorted file-name order. |
| Stories.AcFallback | commands/validate.py:195-207 | The criteria are the flattened key when it has text, else the raw field, else "". They are empty exactly when both are. |
| Stories.AdoId | commands/enrich.py:203 | `ado_id` is set exactly when the story has a numeric id. |
| Stories.IdText | commands/enrich.py:188 | The stringified id is empty exactly when the story has no id. |
| Stories.IdTextInjective | commands/enrich.py:187-188 | Two non-negative ids have the same string form only when equal. |
| Stories.ShapeAll | commands/validate.py:182-191 | One six-key record per story, in order. |
| Stories.Requested | commands/enrich.py:187-188 | A story is kept exactly when its stringified id is requested. |
| Stories.RequestedAppend | commands/enrich.py:188 | The filter keeps the original order. |
| Stories.FetchAdoStories | commands/enrich.py:165-210 | None is reserved for a configuration or fetch failure. An empty ADO read gives []. |
| Stories.FetchAdoStoriesSelects | commands/enrich.py:180-210 | Whenever the read succeeds, the records are those of the selected stories, in order, including the early [] returns. |
| Stories.FetchAdoStoriesMember | commands/enrich.py:186-209 | With requested ids, every requested story has its record. Without them, every story does. |
| Stories.FetchAdoStoriesOrigin | commands/enrich.py:186-209 | Every record comes from a story that was requested, or from any story when none were. |
| Stories.FetchAllStories | commands/validate.py:160-192 | None exactly on a configuration or fetch failure. Otherwise one record per story, in order. |
| Stories.ValidateIsUnfilteredEnrich | commands/validate.py:160-192 | Validate's read is enrich's read without requested ids. |
| Stories.AcLostInClassification | core/ado.py:214-225 | As written, a story read through `get_all_work_items` always has empty criteria. |
| Stories.AcLostExample | commands/enrich.py:196-201 | A work item whose criteria field has text still yields a record with none. |
| Stories.AcKeptFromDetail | commands/validate.py:195-207 | With the raw fields kept, the record carries the work item's criteria, and every other key is as before. |
| Stories.StoryDicts | core/ado.py:214-230 | As written, one story dict per user-story item, in read order. |
| Stories.StoryDictsClassified | core/ado.py:214-230 | The story dicts are exactly those of the story group that the classification loop returns. None of them carries acceptance criteria. |
| Stories.StoryDictsKept | core/ado.py:214-225 | The corrected story group: one dict per user-story item, each keeping its item's raw fields. |
| Stories.StoryDictsKeptDiffer | commands/enrich.py:196-209 | When the raw fields are kept, each dict has the same id, and its record equals the record as written except that its criteria come from its work item's criteria field. |
| Stories.AdoRead | core/ado.py:191-232 | The stories read through `get_all_work_items`, as written. The read fails exactly when the query or a detail request fails, with the query's error when the query failed. An empty query reads no stories. Otherwise there is one dict per user story read, and none carries criteria. |
| Stories.AdoReadKept | core/ado.py:191-232 | The same read with the raw fields kept: the same failures and the same number of stories. |
| Stories.AdoReadPaired | core/ado.py:191-232 | The read as written and the corrected read succeed together, and then pair up story by story: same id, same record apart from the criteria. |
| Stories.RequestedPaired | commands/enrich.py:187-188 | Filtering two paired reads by the same requested ids keeps them paired. |
| Stories.FetchAdoStoriesPaired | commands/enrich.py:165-210 | Enrich's read of two paired story lists gives records for both or for neither, and the records then differ at most in their criteria. |
| Stories.FetchAdoStoriesNoCriteria | commands/enrich.py:186-209 | When no story read carries criteria, no record enrich builds carries any. |
| Bundles.Enrich | commands/enrich.py:20-67 | Over any story read: no bundle without a Figma token or a file key. |
| Bundles.Validate | commands/validate.py:20-65 | Over any story read: no bundle without a Figma token or a file key. |
| Bundles.EnrichPaired | commands/enrich.py:20-67 | Two story reads that succeed together and differ at most in criteria make enrich write for both or for neither, with the same key and screens and stories differing only in criteria. |
| Bundles.EnrichRun | commands/enrich.py:20-67 | No bundle without a Figma token or a file key. Every story in a written bundle has empty acceptance criteria. |
| Bundles.ValidateRun | commands/validate.py:20-65 | No bundle without a Figma token or a file key. Every story in a written bundle has empty acceptance criteria. |
| Bundles.EnrichWritesBundle | commands/enrich.py:20-67 | The bundle is written exactly when every step succeeds. It then holds the link's key and the stories read. |
| Bundles.ValidateWritesBundle | commands/validate.py:20-65 | The bundle is written exactly when every step succeeds and the file has frames. Its stories are the records of the user stories the ADO read returned, as written, one per story, in order. |
| Bundles.EnrichWithoutReuseIsValidate | commands/enrich.py:43-51 | With no screenshots directory and no requested ids, enrich writes the same bundle as validate. |
| Bundles.EnrichRunKept | commands/enrich.py:20-67 | enrich over the corrected read: no bundle without a Figma token or a file key. |
| Bundles.ValidateRunKept | commands/validate.py:20-65 | validate over the corrected read: no bundle without a Figma token or a file key. |
| Bundles.EnrichKeptDiffers | commands/enrich.py:20-67 | Keeping the criteria changes neither whether enrich writes a bundle nor its key, screens or stories, apart from the stories' criteria. |
| Bundles.ValidateKeptDiffers | commands/validate.py:20-65 | The same for validate. |
| Viewer.ReadParsed | viewer/src/lib/projects.ts:27-35 | A document is null exactly when the file is missing, empty or unparsable. Otherwise it is the parse. |
| Viewer.SummarizeDefaults | viewer/src/lib/projects.ts:65-75 | Status defaults to "new". Files ingested is the manifest's count, stories pushed the mapping's length, and changes processed the number of change records. Each is 0 when missing. The ADO fields and the two flags are copied over. |
| Viewer.ListProjects | viewer/src/lib/projects.ts:39-40 | No projects directory means no projects. |
| Viewer.SummariesMember | viewer/src/lib/projects.ts:42-76 | A summary is listed exactly for a directory entry that has a readable configuration. |
| Viewer.SummariesAppend | viewer/src/lib/projects.ts:48-76 | Summaries follow the directory order. |
| Viewer.FileEvents | viewer/src/lib/projects.ts:121-144 | Every file event carries no data and has one of the checked types. |
| Viewer.ChangeEvents | viewer/src/lib/projects.ts:146-161 | One change_request event per recorded change, at its date, with its data. |
| Viewer.DerivedChangeRequests | viewer/src/lib/projects.ts:118-164 | A derived change_request comes from a change recorded in the configuration, at its date. |
| Viewer.Unseen | viewer/src/lib/projects.ts:107-111 | A supplemental event is kept exactly when its type is not among the explicit types. |
| Viewer.GetTimeline | viewer/src/lib/projects.ts:95-116 | The timeline is sorted by timestamp and is a permutation of the explicit events followed by the unseen supplemental ones. |
| Viewer.TimelineMember | viewer/src/lib/projects.ts:106-111 | An event is in the timeline exactly when it is explicit, or supplemental with a type no explicit event has. |
| Viewer.TimelineStable | viewer/src/lib/projects.ts:113-115 | Events with equal timestamps keep their merged order. |
| Viewer.ExplicitChangeRequestWins | viewer/src/lib/projects.ts:107-111 | One explicit change_request suppresses every change_request derived from the configuration. |
| Viewer.FindEntry | viewer/src/lib/projects.ts:183-185 | The manifest lookup finds the first entry for the file, and none exactly when no entry names it. |
| Viewer.StripMd | viewer/src/lib/projects.ts:188 | A trailing ".md" is removed, and anything else is kept. |
| Viewer.MdFiles | viewer/src/lib/projects.ts:176-178 | Exactly the ".md" names are kept. |
| Viewer.GetSources | viewer/src/lib/projects.ts:168-196 | No parsed directory means no sources. Otherwise there is one source per ".md" file. |
| Viewer.SourcesSortedMarkdown | viewer/src/lib/projects.ts:176-194 | Sources come in sorted file-name order, one per ".md" file. |
| Viewer.SourceFilename | viewer/src/lib/projects.ts:187-189 | The shown name is the manifest entry's non-empty filename, else the parsed name without ".md". |
| Viewer.TextOr | viewer/src/lib/projects.ts:224 | An unreadable or empty file shows "(binary file)", so content is never empty. |
| Viewer.Visible | viewer/src/lib/projects.ts:219-250 | Dot-files are skipped, and every listed communication has content. |
| Viewer.GetCommunications | viewer/src/lib/projects.ts:200-257 | The communications are sorted by date and are a permutation of questions, answers and change files. |
| Viewer.CommunicationsStable | viewer/src/lib/projects.ts:253-256 | Equal dates keep their collection order. |
| Viewer.CommunicationsVisible | viewer/src/lib/projects.ts:204-251 | Questions come from questions.txt, other files are never dot-files, and content is never empty. |

## Left out

- **Network.** HTTP requests, headers, `urlopen`, Figma's `_figma_get` and `_download_file` are out. Their results are oracle parameters (per attempt, per create call, per image slice, per download, and for ADO reads the WIQL answer and each detail batch).
- **`upload_attachment`.** It only uploads bytes and sends a patch.
- **WIQL strings.** The query text of `get_all_stories` and the other WIQL strings are out. The reads start from the ids a query returned.
- **`base_url` and the `urllib.parse.quote` encoding.** URLs are not modelled beyond the parent link.
- **Sleeps.** The `time.sleep` calls and the 0.3-second `RATE_LIMIT_DELAY` are out. A trace lists only the back-off seconds, as integers.
- **Console and prompt.** Click printing and colours are out. `click.confirm` is the boolean `confirmed`.
- **JSON and YAML.** Parsing, serialisation and the writes of the mapping and bundles are out. Documents are datatypes, and a parse failure is `None`.
- Breakdown.LoadBreakdown: the document is taken to be an object. A top-level number, boolean or null makes `"epics" in data` raise TypeError, a crash in `_load_breakdown` (commands/breakdown_export.py:164) and `_load_data` (commands/push.py:244, 255). A top-level list or string turns the test into membership or substring search. Neither is modelled.
- **Criteria list entries.** A list of acceptance criteria holds strings only. The source renders any truthy entry with `str()` and drops falsy ones such as `0`, `False` and `None` (commands/push.py:230). Non-string entries are not modelled.
- Breakdown.ComputeTotals: a missing estimate counts as 0. An estimate present as null makes `+= None` raise TypeError in `_compute_totals`. The model has no null estimate, so that crash is not represented.
- **Excel and print formatting.** `_write_excel` and the `6.1f` formatting are out. Day counts are integers, so fractional days are not modelled.
- **Regex `\w`.** Python's Unicode-aware `\w` is restricted to ASCII letters, digits and "_". `.lower()` lower-cases ASCII letters only.
- **Text encodings.** JavaScript sorts strings by UTF-16 code units. The model compares characters by code point, which agrees for characters below U+10000.
- **Viewer file system.** It is replaced by listings, contents and modification times. `new Date(...)` parsing is out and timestamps are integers.
- Viewer.GetTimeline: a change request whose date is missing or invalid makes `new Date(cr.date).toISOString()` (viewer/src/lib/projects.ts:152) throw a RangeError, so `getTimeline` fails. The model's dates are integers and cannot represent that.
- **Viewer reads.** `getOverview` is a plain file read. `getProjectConfig` and `readFileIfExists` appear only through `Viewer.ReadParsed`.
- **Screenshot globs.** Node ids are assumed present; a frame without an id makes the source's `",".join` raise, and the model does not represent that. Pathlib glob details are out: directories named `*.png` and case rules.
- **External helpers.** `get_output_path`, `update_state`, `invalidate_downstream`, `core.config` and `core.context` are not part of this model.
- **UI.** The React components and viewer/src/lib/types.ts carry no data logic.
- Push.StoryRequest: an estimate present as null makes `fe + be + devops + design` (commands/push.py:134-138) raise TypeError, in a dry run too. The push then stops after the creates already made and writes no mapping. The model's estimates cannot be null, so that crash is not represented.
- Push.RunCrashed: an exception inside `_create_tasks` is swallowed as in the source. An exception from any other call is a crash, and the partial run's mapping is not returned.
- Query.GetWorkItemsByQuery: the detail request's `$expand=relations` and `api-version` parameters are not modelled. A read only records the id batches it asked for.
- Figma.RecoverScreenshotName: the recovery is stated for node ids without "_". Figma ids hold digits and ":", which the file name turns into "-".
- Viewer.GetTimeline: `Array.prototype.sort` is modelled as a stable sort, which ECMAScript 2019 and later require.

## Findings

| source | as written | input that shows it | evidently intended | confidence | as-written member | corrected member |
|---|---|---|---|---|---|---|
| core/ado.py:214-225 | The story dicts of `get_all_work_items` carry neither an "acceptance_criteria" key nor the raw "fields". So `_get_ac_field` and enrich's fallback (commands/enrich.py:198-201) always yield "". | A detail item with id 7, type "User Story" and `Microsoft.VSTS.Common.AcceptanceCriteria` = "<p>Given</p>". Its record's `acceptance_criteria` is "". | The record carries the work item's acceptance-criteria field, as the fallback's comment expects. | medium, not executed | Stories.StoryDicts, Stories.StoryDictsClassified, Stories.AcLostExample, Stories.AdoRead, Bundles.EnrichRun, Bundles.ValidateRun | Stories.StoryDictsKept, Stories.StoryDictsKeptDiffer, Stories.AcKeptFromDetail, Stories.AdoReadKept, Bundles.EnrichRunKept, Bundles.ValidateRunKept, Bundles.EnrichKeptDiffers, Bundles.ValidateKeptDiffers |
