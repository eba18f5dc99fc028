/** The Figma read path shared by the enrich and validate commands
    (commands/enrich.py, commands/validate.py): the file key in a design
    link, the top-level frames of a file, screenshot requests in slices of
    50 node ids, screenshot file names, and the reuse of screenshots that
    are already on disk. The Figma API and the downloads are oracles. */
module Figma {
  import opened Wrappers
  import opened Strings
  import Query
  import Sorting

  // ---------------------------------------------------------------------
  // File key (`_extract_file_key`)

  const DesignPrefix: string := "figma.com/design/"
  const FilePrefix: string := "figma.com/file/"

  /** The longest run of `[a-zA-Z0-9]` at the start of `s`. */
  function AlnumRun(s: string): (r: string)
    ensures r <= s
    ensures forall i :: 0 <= i < |r| ==> IsAsciiAlnum(r[i])
    ensures |r| < |s| ==> !IsAsciiAlnum(s[|r|])
  {
    if |s| == 0 || !IsAsciiAlnum(s[0]) then "" else [s[0]] + AlnumRun(s[1..])
  }

  /** `key` is what `([a-zA-Z0-9]+)` captures at the start of `after`:
      a non-empty alphanumeric prefix not followed by another alphanumeric. */
  predicate IsKey(after: string, key: string) {
    && |key| > 0
    && key <= after
    && (forall j :: 0 <= j < |key| ==> IsAsciiAlnum(key[j]))
    && (|key| < |after| ==> !IsAsciiAlnum(after[|key|]))
  }

  /** The pattern `figma\.com/(?:design|file)/([a-zA-Z0-9]+)` matches at
      position `i` of `s` and captures `key`. */
  predicate KeyAt(s: string, i: nat, key: string)
    requires i <= |s|
  {
    || (StartsWith(s[i..], DesignPrefix) && IsKey(s[i..][|DesignPrefix|..], key))
    || (StartsWith(s[i..], FilePrefix) && IsKey(s[i..][|FilePrefix|..], key))
  }

  /** The capture at position `i`, if the pattern matches there. */
  function MatchAt(s: string, i: nat): Option<string>
    requires i <= |s|
  {
    var rest := s[i..];
    if StartsWith(rest, DesignPrefix) && AlnumRun(rest[|DesignPrefix|..]) != "" then
      Some(AlnumRun(rest[|DesignPrefix|..]))
    else if StartsWith(rest, FilePrefix) && AlnumRun(rest[|FilePrefix|..]) != "" then
      Some(AlnumRun(rest[|FilePrefix|..]))
    else None
  }

  /** The greedy capture is the only one the pattern admits at a position. */
  lemma {:induction false} IsKeyIsAlnumRun(after: string, key: string)
    ensures IsKey(after, key) <==> key != "" && key == AlnumRun(after)
  {
    if IsKey(after, key) {
      var run := AlnumRun(after);
      assert run == after[..|run|];
    }
  }

  lemma MatchAtIsKeyAt(s: string, i: nat, key: string)
    requires i <= |s|
    ensures MatchAt(s, i) == Some(key) <==> KeyAt(s, i, key)
  {
    var rest := s[i..];
    if |rest| >= |DesignPrefix| {
      IsKeyIsAlnumRun(rest[|DesignPrefix|..], key);
    }
    if |rest| >= |FilePrefix| {
      IsKeyIsAlnumRun(rest[|FilePrefix|..], key);
    }
    if StartsWith(rest, DesignPrefix) {
      assert rest[10] == 'd';
    }
  }

  /** `re.search`: the leftmost position from `i` on where the pattern
      matches. */
  function FirstMatch(s: string, i: nat): (r: Option<nat>)
    requires i <= |s|
    ensures r.Some? ==> i <= r.value <= |s| && MatchAt(s, r.value).Some?
    ensures forall m :: i <= m <= |s| && (r.None? || m < r.value) ==> MatchAt(s, m).None?
    decreases |s| - i
  {
    if MatchAt(s, i).Some? then Some(i)
    else if i == |s| then None
    else FirstMatch(s, i + 1)
  }

  /** The file key of a Figma link (`m.group(1)`), or `None` when the
      pattern matches nowhere. */
  function ExtractFileKey(link: string): (r: Option<string>)
    ensures r.Some? ==> |r.value| > 0 && forall j :: 0 <= j < |r.value| ==> IsAsciiAlnum(r.value[j])
  {
    match FirstMatch(link, 0)
    case Some(i) => MatchAt(link, i)
    case None => None
  }

  /** The key found is the capture at the leftmost match, and there is no
      key exactly when the pattern matches nowhere. */
  lemma ExtractFileKeyLeftmost(link: string)
    ensures ExtractFileKey(link).None? ==> forall i, key :: 0 <= i <= |link| ==> !KeyAt(link, i, key)
    ensures ExtractFileKey(link).Some? ==>
      exists i :: 0 <= i <= |link| && KeyAt(link, i, ExtractFileKey(link).value)
                  && forall j, key :: 0 <= j < i ==> !KeyAt(link, j, key)
  {
    forall i, key | 0 <= i <= |link|
      ensures MatchAt(link, i) == Some(key) <==> KeyAt(link, i, key)
    {
      MatchAtIsKeyAt(link, i, key);
    }
    match FirstMatch(link, 0)
    case Some(i) =>
      assert KeyAt(link, i, ExtractFileKey(link).value);
    case None =>
  }

  /** The run after the prefix stops at the first non-alphanumeric. */
  lemma {:induction false} AlnumRunOf(key: string, rest: string)
    requires forall j :: 0 <= j < |key| ==> IsAsciiAlnum(key[j])
    requires rest == [] || !IsAsciiAlnum(rest[0])
    ensures AlnumRun(key + rest) == key
  {
    if |key| > 0 {
      assert (key + rest)[1..] == key[1..] + rest;
      AlnumRunOf(key[1..], rest);
      assert key == [key[0]] + key[1..];
    } else {
      assert key + rest == rest;
    }
  }

  /** A design link that begins with the prefix yields its key. */
  lemma DesignLinkKey(key: string, rest: string)
    requires |key| > 0 && forall j :: 0 <= j < |key| ==> IsAsciiAlnum(key[j])
    requires rest == [] || !IsAsciiAlnum(rest[0])
    ensures ExtractFileKey(DesignPrefix + key + rest) == Some(key)
  {
    var s := DesignPrefix + key + rest;
    assert s[0..] == s;
    assert s[..|DesignPrefix|] == DesignPrefix;
    assert s[|DesignPrefix|..] == key + rest;
    AlnumRunOf(key, rest);
    assert MatchAt(s, 0) == Some(key);
  }

  // ---------------------------------------------------------------------
  // Frames (`file_data["document"]["children"]`, `depth=2`)

  /** A child node of a page; the keys the source reads, `None` when absent. */
  datatype Node = Node(nodeType: Option<string>, name: Option<string>, id: string)

  datatype Page = Page(name: Option<string>, children: seq<Node>)

  /** One collected frame. */
  datatype Frame = Frame(name: string, nodeId: string, page: string)

  const FrameType: string := "FRAME"
  const Untitled: string := "Untitled"
  const UnknownPage: string := "Unknown Page"

  predicate IsFrame(n: Node) {
    n.nodeType == Some(FrameType)
  }

  function PageName(p: Page): string {
    p.name.GetOr(UnknownPage)
  }

  function FrameOf(n: Node, page: string): Frame {
    Frame(n.name.GetOr(Untitled), n.id, page)
  }

  /** The frames among one page's children, in child order. */
  function PageFrames(page: string, children: seq<Node>): (r: seq<Frame>)
    ensures |r| <= |children|
    ensures forall f :: f in r ==> f.page == page
    ensures forall f :: f in r <==> exists n :: n in children && IsFrame(n) && f == FrameOf(n, page)
  {
    if |children| == 0 then []
    else
      var rest := PageFrames(page, children[1..]);
      assert forall n :: n in children <==> n == children[0] || n in children[1..];
      (if IsFrame(children[0]) then [FrameOf(children[0], page)] else []) + rest
  }

  /** The frames of a document: pages in order, each page's children in order. */
  function CollectFrames(pages: seq<Page>): (r: seq<Frame>)
  {
    if |pages| == 0 then []
    else PageFrames(PageName(pages[0]), pages[0].children) + CollectFrames(pages[1..])
  }

  /** A frame is collected exactly when it is a FRAME child of some page,
      named after it with the "Untitled" and "Unknown Page" defaults. */
  lemma {:induction false} CollectFramesMember(pages: seq<Page>, f: Frame)
    ensures f in CollectFrames(pages) <==>
      exists p, n :: p in pages && n in p.children && IsFrame(n) && f == FrameOf(n, PageName(p))
  {
    if |pages| > 0 {
      CollectFramesMember(pages[1..], f);
      assert forall p :: p in pages <==> p == pages[0] || p in pages[1..];
    }
  }

  /** Collection keeps page order. */
  lemma {:induction false} CollectFramesAppend(a: seq<Page>, b: seq<Page>)
    ensures CollectFrames(a + b) == CollectFrames(a) + CollectFrames(b)
  {
    if |a| == 0 {
      assert a + b == b;
    } else {
      assert (a + b)[0] == a[0];
      assert (a + b)[1..] == a[1..] + b;
      CollectFramesAppend(a[1..], b);
    }
  }

  // ---------------------------------------------------------------------
  // Screenshot file names

  /** `[\w\-.]`, with `\w` read as ASCII. */
  predicate IsSafeChar(c: char) {
    IsWordChar(c) || c == '-' || c == '.'
  }

  /** `re.sub(r'[^\w\-.]', '_', name)` */
  function Sanitize(name: string): (r: string)
    ensures |r| == |name|
    ensures forall i :: 0 <= i < |r| ==> IsSafeChar(r[i])
    ensures forall i :: 0 <= i < |name| && IsSafeChar(name[i]) ==> r[i] == name[i]
    ensures forall i :: 0 <= i < |name| && !IsSafeChar(name[i]) ==> r[i] == '_'
  {
    if |name| == 0 then ""
    else [if IsSafeChar(name[0]) then name[0] else '_'] + Sanitize(name[1..])
  }

  /** Sanitising a sanitised name changes nothing. */
  lemma SanitizeIdempotent(name: string)
    ensures Sanitize(Sanitize(name)) == Sanitize(name)
  {
    var once := Sanitize(name);
    assert forall i :: 0 <= i < |once| ==> Sanitize(once)[i] == once[i];
  }

  const PngSuffix: string := ".png"

  /** `f"{safe_name}_{nid.replace(':', '-')}.png"` */
  function ScreenshotFileName(name: string, nodeId: string): (r: string)
    ensures EndsWith(r, PngSuffix)
    ensures |r| > |PngSuffix|
  {
    var r := Sanitize(name) + "_" + ReplaceChar(nodeId, ':', '-') + PngSuffix;
    assert r[|r| - |PngSuffix|..] == PngSuffix;
    r
  }

  /** A screenshot file name never holds a ':' (the node id's colons
      become '-', and the name's are sanitised away). */
  lemma FileNameHasNoColon(name: string, nodeId: string)
    ensures ':' !in ScreenshotFileName(name, nodeId)
  {
    var safe, nid := Sanitize(name), ReplaceChar(nodeId, ':', '-');
    var r := ScreenshotFileName(name, nodeId);
    assert r == safe + "_" + nid + PngSuffix;
    forall i | 0 <= i < |r| ensures r[i] != ':' {
      if i < |safe| {
        assert r[i] == safe[i];
      } else if |safe| < i < |safe| + 1 + |nid| {
        assert r[i] == nid[i - |safe| - 1];
      }
    }
  }

  /** `str(screenshots_dir / filename)` */
  function PathIn(dir: string, fileName: string): string {
    dir + "/" + fileName
  }

  // ---------------------------------------------------------------------
  // Screenshot requests (`_fetch_figma_screenshots`)

  /** What one screenshot carries into the bundle. */
  datatype Screen = Screen(name: string, nodeId: string, page: string, path: string)

  /** Node ids per `/v1/images` request. */
  const ImageBatch: nat := 50

  /** The `images` map of one slice's response (only the non-null URLs),
      or `None` when that request failed. */
  type ImageUrls = Option<map<string, string>>

  /** A frame yields a screenshot when its slice's request succeeded, the
      response has a non-empty URL for its node id, and the download of
      that URL to its file succeeded (`download(url, path)`). */
  predicate Delivered(frame: Frame, urls: ImageUrls, dir: string, download: (string, string) -> bool) {
    && urls.Some?
    && frame.nodeId in urls.value
    && urls.value[frame.nodeId] != ""
    && download(urls.value[frame.nodeId], PathIn(dir, ScreenshotFileName(frame.name, frame.nodeId)))
  }

  function ScreenOf(frame: Frame, dir: string): Screen {
    Screen(frame.name, frame.nodeId, frame.page, PathIn(dir, ScreenshotFileName(frame.name, frame.nodeId)))
  }

  /** The inner loop over one slice. */
  function BatchScreens(batch: seq<Frame>, urls: ImageUrls, dir: string,
                        download: (string, string) -> bool): (r: seq<Screen>)
    ensures |r| <= |batch|
    ensures urls.None? ==> r == []
  {
    if |batch| == 0 then []
    else
      (if Delivered(batch[0], urls, dir, download) then [ScreenOf(batch[0], dir)] else [])
      + BatchScreens(batch[1..], urls, dir, download)
  }

  /** The outer loop over the slices; `b` numbers the slice, and
      `images(b)` is the response to its request. */
  function SliceScreens(batches: seq<seq<Frame>>, b: nat, images: nat -> ImageUrls, dir: string,
                        download: (string, string) -> bool): seq<Screen>
  {
    if |batches| == 0 then []
    else BatchScreens(batches[0], images(b), dir, download)
         + SliceScreens(batches[1..], b + 1, images, dir, download)
  }

  /** The reference: frame `k` (counting from 0 in collection order)
      belongs to slice `k / 50` and yields a screenshot exactly when it is
      delivered there; `from` is the index of `frames[0]`. */
  function Screenshots(frames: seq<Frame>, from: nat, images: nat -> ImageUrls, dir: string,
                       download: (string, string) -> bool): (r: seq<Screen>)
    ensures |r| <= |frames|
  {
    if |frames| == 0 then []
    else ShotAt(frames[0], from, images, dir, download) + Screenshots(frames[1..], from + 1, images, dir, download)
  }

  /** Every screen comes from one of the frames, with its name, node id
      and page. */
  lemma {:induction false} ScreenshotsFromFrames(frames: seq<Frame>, from: nat, images: nat -> ImageUrls,
                                                 dir: string, download: (string, string) -> bool)
    ensures forall s: Screen :: s in Screenshots(frames, from, images, dir, download) ==> Frame(s.name, s.nodeId, s.page) in frames
    decreases |frames|
  {
    if |frames| > 0 {
      var h := ShotAt(frames[0], from, images, dir, download);
      var rest := Screenshots(frames[1..], from + 1, images, dir, download);
      ScreenshotsFromFrames(frames[1..], from + 1, images, dir, download);
      assert Screenshots(frames, from, images, dir, download) == h + rest;
      forall s: Screen | s in h + rest ensures Frame(s.name, s.nodeId, s.page) in frames {
        if s in h {
          assert s == ScreenOf(frames[0], dir);
        } else {
          assert Frame(s.name, s.nodeId, s.page) in frames[1..];
        }
      }
    }
  }

  /** The screenshot of the frame with index `k`, when it is delivered. */
  function ShotAt(frame: Frame, k: nat, images: nat -> ImageUrls, dir: string,
                  download: (string, string) -> bool): seq<Screen>
  {
    if Delivered(frame, images(k / ImageBatch), dir, download) then [ScreenOf(frame, dir)] else []
  }

  lemma {:induction false} ScreenshotsAppend(a: seq<Frame>, b: seq<Frame>, from: nat, images: nat -> ImageUrls,
                                             dir: string, download: (string, string) -> bool)
    ensures Screenshots(a + b, from, images, dir, download)
         == Screenshots(a, from, images, dir, download) + Screenshots(b, from + |a|, images, dir, download)
  {
    if |a| == 0 {
      assert a + b == b;
    } else {
      var h := ShotAt(a[0], from, images, dir, download);
      assert (a + b)[0] == a[0];
      assert (a + b)[1..] == a[1..] + b;
      ScreenshotsCons(a + b, from, images, dir, download);
      ScreenshotsCons(a, from, images, dir, download);
      ScreenshotsAppend(a[1..], b, from + 1, images, dir, download);
      ConcatAssoc(h, Screenshots(a[1..], from + 1, images, dir, download),
                  Screenshots(b, from + |a|, images, dir, download));
    }
  }

  lemma ScreenshotsCons(frames: seq<Frame>, from: nat, images: nat -> ImageUrls,
                        dir: string, download: (string, string) -> bool)
    requires |frames| > 0
    ensures Screenshots(frames, from, images, dir, download)
         == ShotAt(frames[0], from, images, dir, download) + Screenshots(frames[1..], from + 1, images, dir, download)
  {
  }

  lemma DivInSlice(k: nat, b: nat)
    requires b * ImageBatch <= k < b * ImageBatch + ImageBatch
    ensures k / ImageBatch == b
  {
  }

  /** Inside one slice, the slice's response decides every frame. */
  lemma {:induction false} OneSlice(frames: seq<Frame>, from: nat, b: nat, images: nat -> ImageUrls,
                                    dir: string, download: (string, string) -> bool)
    requires b * ImageBatch <= from && from + |frames| <= b * ImageBatch + ImageBatch
    ensures Screenshots(frames, from, images, dir, download) == BatchScreens(frames, images(b), dir, download)
  {
    if |frames| > 0 {
      DivInSlice(from, b);
      OneSlice(frames[1..], from + 1, b, images, dir, download);
    }
  }

  /** The slice-by-slice loop delivers exactly the per-frame reference. */
  lemma {:induction false} SliceScreensPerFrame(frames: seq<Frame>, b: nat, images: nat -> ImageUrls,
                                                dir: string, download: (string, string) -> bool)
    ensures SliceScreens(Query.Chunks(frames, ImageBatch), b, images, dir, download)
         == Screenshots(frames, b * ImageBatch, images, dir, download)
    decreases |frames|
  {
    var chunks := Query.Chunks(frames, ImageBatch);
    if |frames| == 0 {
    } else if |frames| <= ImageBatch {
      assert chunks == [frames];
      OneSlice(frames, b * ImageBatch, b, images, dir, download);
    } else {
      var head, tail := frames[..ImageBatch], frames[ImageBatch..];
      assert chunks == [head] + Query.Chunks(tail, ImageBatch);
      assert chunks[1..] == Query.Chunks(tail, ImageBatch);
      SliceScreensPerFrame(tail, b + 1, images, dir, download);
      OneSlice(head, b * ImageBatch, b, images, dir, download);
      assert head + tail == frames;
      ScreenshotsAppend(head, tail, b * ImageBatch, images, dir, download);
    }
  }

  /** `_fetch_figma_screenshots`: `None` when the file request failed
      (`file` is `None`) or the file has no frames; otherwise the
      screenshots delivered, slice by slice. A failed slice and a frame
      without URL or with a failed download are skipped. */
  function FetchScreenshots(file: Option<seq<Page>>, images: nat -> ImageUrls, dir: string,
                            download: (string, string) -> bool): (r: Option<seq<Screen>>)
    ensures r.None? <==> file.None? || CollectFrames(file.value) == []
  {
    match file
    case None => None
    case Some(pages) =>
      var frames := CollectFrames(pages);
      if |frames| == 0 then None
      else Some(SliceScreens(Query.Chunks(frames, ImageBatch), 0, images, dir, download))
  }

  /** The screenshots are the frames' per-frame outcomes, in frame order. */
  lemma FetchScreenshotsPerFrame(file: Option<seq<Page>>, images: nat -> ImageUrls, dir: string,
                                 download: (string, string) -> bool)
    requires file.Some? && CollectFrames(file.value) != []
    ensures FetchScreenshots(file, images, dir, download)
         == Some(Screenshots(CollectFrames(file.value), 0, images, dir, download))
  {
    SliceScreensPerFrame(CollectFrames(file.value), 0, images, dir, download);
  }

  /** A frame delivered in its slice has its screenshot in the result. */
  lemma {:induction false} ScreenshotsMember(frames: seq<Frame>, from: nat, images: nat -> ImageUrls,
                                             dir: string, download: (string, string) -> bool, k: nat)
    requires k < |frames|
    requires Delivered(frames[k], images((from + k) / ImageBatch), dir, download)
    ensures ScreenOf(frames[k], dir) in Screenshots(frames, from, images, dir, download)
  {
    if k > 0 {
      ScreenshotsMember(frames[1..], from + 1, images, dir, download, k - 1);
      assert frames[1..][k - 1] == frames[k];
    }
  }

  // ---------------------------------------------------------------------
  // Reusing screenshots on disk (`_get_screenshots`, enrich only)

  /** The part of `s` before its last `c` (`s.rsplit(c, 1)[0]`); all of
      `s` when `c` does not occur. */
  function BeforeLast(s: string, c: char): (r: string)
    ensures c !in s ==> r == s
    ensures c in s ==> |r| < |s| && r == s[..|r|] && s[|r|] == c && c !in s[|r| + 1..]
  {
    if c !in s then s
    else if s[|s| - 1] == c then s[..|s| - 1]
    else
      var init := s[..|s| - 1];
      assert s == init + [s[|s| - 1]];
      var r := BeforeLast(init, c);
      assert s[|r| + 1..] == init[|r| + 1..] + [s[|s| - 1]];
      r
  }

  /** `Path(name).stem` for a name ending in ".png": the name without that
      suffix, except that ".png" itself has no suffix. */
  function PngStem(fileName: string): string {
    if EndsWith(fileName, PngSuffix) && fileName != PngSuffix then fileName[..|fileName| - |PngSuffix|]
    else fileName
  }

  /** The best-effort name: the stem without its last "_"-segment, with
      the remaining underscores turned into spaces. */
  function RecoverName(stem: string): string {
    ReplaceChar(BeforeLast(stem, '_'), '_', ' ')
  }

  /** For a node id without underscores (Figma ids look like "12:34"),
      recovery undoes the file name up to sanitising. */
  lemma RecoverScreenshotName(name: string, nodeId: string)
    requires '_' !in nodeId
    ensures RecoverName(PngStem(ScreenshotFileName(name, nodeId)))
         == ReplaceChar(Sanitize(name), '_', ' ')
  {
    var safe := Sanitize(name);
    var nid := ReplaceChar(nodeId, ':', '-');
    var f := ScreenshotFileName(name, nodeId);
    assert f == safe + "_" + nid + PngSuffix;
    var stem := safe + "_" + nid;
    assert PngStem(f) == stem;
    assert '_' !in nid by {
      forall i | 0 <= i < |nid| ensures nid[i] != '_' {
        assert nodeId[i] != '_';
      }
    }
    assert stem[|safe|] == '_';
    assert stem[|safe| + 1..] == nid;
    assert stem[..|safe|] == safe;
  }

  /** Names made of ASCII letters, digits, '-', '.' and spaces are
      recovered exactly. */
  lemma RecoverPlainName(name: string, nodeId: string)
    requires forall i :: 0 <= i < |name| ==> IsAsciiAlnum(name[i]) || name[i] in "-. "
    requires '_' !in nodeId
    ensures RecoverName(PngStem(ScreenshotFileName(name, nodeId))) == name
  {
    RecoverScreenshotName(name, nodeId);
    var safe := Sanitize(name);
    var back := ReplaceChar(safe, '_', ' ');
    forall i | 0 <= i < |name| ensures back[i] == name[i] {
      if IsSafeChar(name[i]) {
        assert safe[i] == name[i] && name[i] != '_';
      } else {
        assert safe[i] == '_' && name[i] == ' ';
      }
    }
  }

  /** The ".png" entries of a directory listing, in listing order. */
  function Pngs(names: seq<string>): (r: seq<string>)
    ensures forall n :: n in r <==> n in names && EndsWith(n, PngSuffix)
  {
    if |names| == 0 then []
    else
      assert forall n :: n in names <==> n == names[0] || n in names[1..];
      (if EndsWith(names[0], PngSuffix) then [names[0]] else []) + Pngs(names[1..])
  }

  /** One reused entry per file, in the given order, with empty node id
      and page. */
  function Reused(files: seq<string>, dir: string): (r: seq<Screen>)
    ensures |r| == |files|
    ensures forall i :: 0 <= i < |r| ==>
      && r[i].nodeId == "" && r[i].page == ""
      && r[i].path == PathIn(dir, files[i])
      && r[i].name == RecoverName(PngStem(files[i]))
  {
    if |files| == 0 then []
    else [Screen(RecoverName(PngStem(files[0])), "", "", PathIn(dir, files[0]))] + Reused(files[1..], dir)
  }

  /** `_get_screenshots`: `listing` is the screenshots directory's file
      names, `None` when it does not exist. Existing ".png" files are
      reused in sorted order; otherwise the screenshots are fetched. */
  function GetScreenshots(listing: Option<seq<string>>, dir: string, file: Option<seq<Page>>,
                          images: nat -> ImageUrls, download: (string, string) -> bool): (r: Option<seq<Screen>>)
    ensures listing.Some? && Pngs(listing.value) != [] ==>
      r.Some? && |r.value| == |Pngs(listing.value)|
    ensures (listing.None? || Pngs(listing.value) == []) ==> r == FetchScreenshots(file, images, dir, download)
  {
    if listing.Some? && |Pngs(listing.value)| > 0 then
      Some(Reused(Sorting.SortStrings(Pngs(listing.value)), dir))
    else FetchScreenshots(file, images, dir, download)
  }

  /** Reuse lists the ".png" files in ascending name order, each exactly
      as often as it is listed, and never touches Figma. */
  lemma ReusedInNameOrder(listing: seq<string>, dir: string, file: Option<seq<Page>>,
                          images: nat -> ImageUrls, download: (string, string) -> bool)
    requires Pngs(listing) != []
    ensures var r := GetScreenshots(Some(listing), dir, file, images, download);
      exists files: seq<string> ::
        && Sorting.SortedBy(files, Sorting.LexLe)
        && multiset(files) == multiset(Pngs(listing))
        && r == Some(Reused(files, dir))
  {
    var sorted := Sorting.SortStrings(Pngs(listing));
    assert GetScreenshots(Some(listing), dir, file, images, download) == Some(Reused(sorted, dir));
  }
}
