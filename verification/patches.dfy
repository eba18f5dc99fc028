/** The JSON-Patch style documents `create_work_item` and `update_work_item`
    send (core/ado.py): a list of "add" operations against field paths, plus
    a reverse-hierarchy relation that links a new item to its parent. */
module Patches {
  import opened Wrappers
  import opened Strings

  /** A field value: the source sends strings (title, HTML, tags) and
      numbers (effort). */
  datatype FieldValue = Text(text: string) | Number(n: int)

  /** The value of one "add" operation. */
  datatype PatchValue =
    | Field(value: FieldValue)
    | Relation(rel: string, url: string)

  /** `{"op": "add", "path": path, "value": value}` */
  datatype PatchOp = Add(path: string, value: PatchValue)

  const FieldsPrefix: string := "/fields/"
  const TitlePath: string := "/fields/System.Title"
  const DescriptionPath: string := "/fields/System.Description"
  const TagsPath: string := "/fields/System.Tags"
  const RelationsPath: string := "/relations/-"
  const ParentLinkType: string := "System.LinkTypes.Hierarchy-Reverse"

  /** A field path with "/fields/" put in front unless it is already there. */
  function NormalizePath(path: string): (r: string)
    ensures StartsWith(r, FieldsPrefix)
    ensures StartsWith(path, FieldsPrefix) ==> r == path
    ensures !StartsWith(path, FieldsPrefix) ==> r == FieldsPrefix + path
  {
    if StartsWith(path, FieldsPrefix) then path else FieldsPrefix + path
  }

  /** Normalising twice is normalising once. */
  lemma NormalizePathIdempotent(path: string)
    ensures NormalizePath(NormalizePath(path)) == NormalizePath(path)
  {
  }

  /** The work-item URL a parent link points at. */
  function ParentUrl(organization: string, parentId: int): string {
    "https://dev.azure.com/" + organization + "/_apis/wit/workItems/" + IntToString(parentId)
  }

  /** One "add" operation per (path, value) pair, in order, with each path normalised. */
  function FieldOps(fields: seq<(string, FieldValue)>): (r: seq<PatchOp>)
    ensures |r| == |fields|
    ensures forall i :: 0 <= i < |r| ==> StartsWith(r[i].path, FieldsPrefix) && r[i].value.Field?
  {
    if |fields| == 0 then []
    else [Add(NormalizePath(fields[0].0), Field(fields[0].1))] + FieldOps(fields[1..])
  }

  lemma {:induction false} FieldOpsAt(fields: seq<(string, FieldValue)>, i: nat)
    requires i < |fields|
    ensures FieldOps(fields)[i] == Add(NormalizePath(fields[i].0), Field(fields[i].1))
  {
    if i > 0 {
      FieldOpsAt(fields[1..], i - 1);
    }
  }

  /** The operations `create_work_item` adds before the extra fields: the
      title, then the description and tags when non-empty, then the parent
      link when there is a parent id. */
  function HeadOps(organization: string, title: string, description: string, tags: string,
                   parentId: Option<int>): seq<PatchOp>
  {
    [Add(TitlePath, Field(Text(title)))]
    + (if description != "" then [Add(DescriptionPath, Field(Text(description)))] else [])
    + (if tags != "" then [Add(TagsPath, Field(Text(tags)))] else [])
    + (match parentId
       case Some(id) => [Add(RelationsPath, Relation(ParentLinkType, ParentUrl(organization, id)))]
       case None => [])
  }

  function CountPath(ops: seq<PatchOp>, path: string): (n: nat)
    ensures n <= |ops|
  {
    if |ops| == 0 then 0 else (if ops[0].path == path then 1 else 0) + CountPath(ops[1..], path)
  }

  lemma {:induction false} CountPathAppend(a: seq<PatchOp>, b: seq<PatchOp>, path: string)
    ensures CountPath(a + b, path) == CountPath(a, path) + CountPath(b, path)
  {
    if |a| > 0 {
      assert (a + b)[0] == a[0];
      assert (a + b)[1..] == a[1..] + b;
      CountPathAppend(a[1..], b, path);
    } else {
      assert a + b == b;
    }
  }

  lemma HeadOpsCounts(organization: string, title: string, description: string, tags: string,
                      parentId: Option<int>, path: string)
    ensures var head := HeadOps(organization, title, description, tags, parentId);
      CountPath(head, path)
      == (if path == TitlePath then 1 else 0)
       + (if description != "" && path == DescriptionPath then 1 else 0)
       + (if tags != "" && path == TagsPath then 1 else 0)
       + (if parentId.Some? && path == RelationsPath then 1 else 0)
  {
    var t: seq<PatchOp> := [Add(TitlePath, Field(Text(title)))];
    var d: seq<PatchOp> := if description != "" then [Add(DescriptionPath, Field(Text(description)))] else [];
    var g: seq<PatchOp> := if tags != "" then [Add(TagsPath, Field(Text(tags)))] else [];
    var p: seq<PatchOp> := match parentId
       case Some(id) => [Add(RelationsPath, Relation(ParentLinkType, ParentUrl(organization, id)))]
       case None => [];
    assert HeadOps(organization, title, description, tags, parentId) == t + d + g + p;
    CountPathAppend(t + d + g, p, path);
    CountPathAppend(t + d, g, path);
    CountPathAppend(t, d, path);
  }

  /** The patch document of `create_work_item`: the title first, then
      optional description, tags and parent link, then one operation per
      extra field in the given order. */
  function CreatePatch(organization: string, title: string, description: string, tags: string,
                       parentId: Option<int>, extra: seq<(string, FieldValue)>): (r: seq<PatchOp>)
    ensures |r| == 1 + (if description != "" then 1 else 0) + (if tags != "" then 1 else 0)
                     + (if parentId.Some? then 1 else 0) + |extra|
    ensures r[0] == Add(TitlePath, Field(Text(title)))
    ensures forall i :: 0 <= i < |extra| ==>
      r[|r| - |extra| + i] == Add(NormalizePath(extra[i].0), Field(extra[i].1))
  {
    var head := HeadOps(organization, title, description, tags, parentId);
    var r := head + FieldOps(extra);
    forall i | 0 <= i < |extra|
      ensures r[|r| - |extra| + i] == Add(NormalizePath(extra[i].0), Field(extra[i].1))
    {
      FieldOpsAt(extra, i);
    }
    r
  }

  /** Before the extra fields, a create document holds exactly one title
      operation, a description operation exactly when the description is
      non-empty, a tags operation exactly when the tags are non-empty, a
      relation exactly when there is a parent id, and nothing else. */
  lemma CreatePatchHead(organization: string, title: string, description: string, tags: string,
                        parentId: Option<int>, extra: seq<(string, FieldValue)>)
    ensures var r := CreatePatch(organization, title, description, tags, parentId, extra);
      var head := r[..|r| - |extra|];
      && CountPath(head, TitlePath) == 1
      && CountPath(head, DescriptionPath) == (if description != "" then 1 else 0)
      && CountPath(head, TagsPath) == (if tags != "" then 1 else 0)
      && CountPath(head, RelationsPath) == (if parentId.Some? then 1 else 0)
      && |head| == CountPath(head, TitlePath) + CountPath(head, DescriptionPath)
                   + CountPath(head, TagsPath) + CountPath(head, RelationsPath)
  {
    var r := CreatePatch(organization, title, description, tags, parentId, extra);
    var head := HeadOps(organization, title, description, tags, parentId);
    assert r[..|r| - |extra|] == head;
    HeadOpsCounts(organization, title, description, tags, parentId, TitlePath);
    HeadOpsCounts(organization, title, description, tags, parentId, DescriptionPath);
    HeadOpsCounts(organization, title, description, tags, parentId, TagsPath);
    HeadOpsCounts(organization, title, description, tags, parentId, RelationsPath);
  }

  /** The only relation a create document carries is the reverse-hierarchy
      link to the parent, and it is there whenever a parent id is given. */
  lemma CreatePatchParentLink(organization: string, title: string, description: string, tags: string,
                              parentId: Option<int>, extra: seq<(string, FieldValue)>)
    ensures var r := CreatePatch(organization, title, description, tags, parentId, extra);
      && (parentId.Some? ==>
            Add(RelationsPath, Relation(ParentLinkType, ParentUrl(organization, parentId.value))) in r)
      && (forall op :: op in r && op.value.Relation? ==>
            parentId.Some? && op == Add(RelationsPath, Relation(ParentLinkType, ParentUrl(organization, parentId.value))))
  {
    var head := HeadOps(organization, title, description, tags, parentId);
    var r := CreatePatch(organization, title, description, tags, parentId, extra);
    assert r == head + FieldOps(extra);
  }

  /** The patch document of `update_work_item`: one operation per field, in
      order, each path normalised. */
  function UpdatePatch(fields: seq<(string, FieldValue)>): (r: seq<PatchOp>)
    ensures |r| == |fields|
    ensures forall i :: 0 <= i < |fields| ==> r[i] == Add(NormalizePath(fields[i].0), Field(fields[i].1))
  {
    forall i | 0 <= i < |fields|
      ensures FieldOps(fields)[i] == Add(NormalizePath(fields[i].0), Field(fields[i].1))
    {
      FieldOpsAt(fields, i);
    }
    FieldOps(fields)
  }

  /** Re-sending an update document's own paths produces the same document. */
  lemma UpdatePatchStable(fields: seq<(string, FieldValue)>)
    ensures var r := UpdatePatch(fields);
      UpdatePatch(seq(|r|, i requires 0 <= i < |r| => (r[i].path, r[i].value.value))) == r
  {
    var r := UpdatePatch(fields);
    var again := seq(|r|, i requires 0 <= i < |r| => (r[i].path, r[i].value.value));
    forall i | 0 <= i < |r| ensures UpdatePatch(again)[i] == r[i] {
      NormalizePathIdempotent(fields[i].0);
    }
  }
}
