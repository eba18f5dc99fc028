/** The enrich and validate commands end to end (`run` in
    commands/enrich.py and commands/validate.py): a Figma token, a file
    key, the screenshots and the ADO stories, each step able to stop the
    command, and the bundle written when all of them succeed. */
module Bundles {
  import opened Wrappers
  import Transport
  import Figma
  import Stories
  import Query

  /** `enrichment_bundle.json` / `validation_bundle.json` */
  datatype Bundle = Bundle(fileKey: string, screens: seq<Figma.Screen>, stories: seq<Stories.StoryRecord>)

  /** What Figma and the disk answer: the screenshots directory listing
      (`None` when it does not exist), its path, the file document per file
      key (`None` when the request failed), the image URLs per slice, and
      whether a download succeeded. */
  datatype FigmaSide = FigmaSide(listing: Option<seq<string>>, dir: string,
                                 file: string -> Option<seq<Figma.Page>>,
                                 images: nat -> Figma.ImageUrls, download: (string, string) -> bool)

  /** What ADO answers: the `from_project` result, then per configuration
      the outcome of the WIQL query and of each detail request. */
  datatype AdoSide = AdoSide(config: Option<Transport.AdoConfig>,
                             query: Transport.AdoConfig -> Result<seq<int>, Transport.ApiError>,
                             details: Transport.AdoConfig -> seq<int> -> Result<seq<Query.DetailItem>, Transport.ApiError>)

  /** The stories both commands read: `get_all_work_items` under the
      configuration, as written, so no story carries criteria. */
  function Fetch(ado: AdoSide): Transport.AdoConfig -> Result<seq<Stories.StoryDict>, Transport.ApiError> {
    c => Stories.AdoRead(ado.query(c), ado.details(c))
  }

  /** The same read with the criteria kept. */
  function FetchKept(ado: AdoSide): Transport.AdoConfig -> Result<seq<Stories.StoryDict>, Transport.ApiError> {
    c => Stories.AdoReadKept(ado.query(c), ado.details(c))
  }

  /** The detail read `get_all_work_items` makes under the configuration. */
  function Read(ado: AdoSide): Query.QueryRun
    requires ado.config.Some?
  {
    Query.GetWorkItemsByQuery(ado.query(ado.config.value), ado.details(ado.config.value))
  }

  // ---------------------------------------------------------------------
  // The two commands over any story read

  /** enrich's steps over a story read: `None` when the command stops
      before writing. */
  function Enrich(figmaPat: string, link: string, figma: FigmaSide, config: Option<Transport.AdoConfig>,
                  fetch: Transport.AdoConfig -> Result<seq<Stories.StoryDict>, Transport.ApiError>,
                  storyIds: seq<string>): (r: Option<Bundle>)
    ensures figmaPat == "" || Figma.ExtractFileKey(link).None? ==> r.None?
  {
    if figmaPat == "" then None
    else match Figma.ExtractFileKey(link)
      case None => None
      case Some(key) =>
        match Figma.GetScreenshots(figma.listing, figma.dir, figma.file(key), figma.images, figma.download)
        case None => None
        case Some(screens) =>
          match Stories.FetchAdoStories(config, fetch, storyIds)
          case None => None
          case Some(stories) => Some(Bundle(key, screens, stories))
  }

  /** validate's steps over a story read: screenshots are always fetched
      and every story is read. */
  function Validate(figmaPat: string, link: string, figma: FigmaSide, config: Option<Transport.AdoConfig>,
                    fetch: Transport.AdoConfig -> Result<seq<Stories.StoryDict>, Transport.ApiError>): (r: Option<Bundle>)
    ensures figmaPat == "" || Figma.ExtractFileKey(link).None? ==> r.None?
  {
    if figmaPat == "" then None
    else match Figma.ExtractFileKey(link)
      case None => None
      case Some(key) =>
        match Figma.FetchScreenshots(figma.file(key), figma.images, figma.dir, figma.download)
        case None => None
        case Some(screens) =>
          match Stories.FetchAllStories(config, fetch)
          case None => None
          case Some(stories) => Some(Bundle(key, screens, stories))
  }

  /** Two reads that succeed together and differ at most in criteria give
      bundles that differ at most in the stories' criteria. */
  lemma EnrichPaired(figmaPat: string, link: string, figma: FigmaSide, config: Option<Transport.AdoConfig>,
                     fa: Transport.AdoConfig -> Result<seq<Stories.StoryDict>, Transport.ApiError>,
                     fb: Transport.AdoConfig -> Result<seq<Stories.StoryDict>, Transport.ApiError>,
                     storyIds: seq<string>)
    requires config.Some? ==> (fa(config.value).Success? <==> fb(config.value).Success?)
    requires config.Some? && fa(config.value).Success? ==>
      Stories.Paired(fa(config.value).value, fb(config.value).value)
    ensures var a, b := Enrich(figmaPat, link, figma, config, fa, storyIds), Enrich(figmaPat, link, figma, config, fb, storyIds);
      && (a.Some? <==> b.Some?)
      && (a.Some? ==> a.value.fileKey == b.value.fileKey && a.value.screens == b.value.screens
                      && Stories.SameButCriteria(a.value.stories, b.value.stories))
  {
    Stories.FetchAdoStoriesPaired(config, fa, fb, storyIds);
  }

  // ---------------------------------------------------------------------
  // The commands as written

  /** enrich's `run`: every story in a written bundle has empty criteria. */
  function EnrichRun(figmaPat: string, link: string, figma: FigmaSide, ado: AdoSide,
                     storyIds: seq<string>): (r: Option<Bundle>)
    ensures figmaPat == "" || Figma.ExtractFileKey(link).None? ==> r.None?
    ensures r.Some? ==> forall i :: 0 <= i < |r.value.stories| ==> r.value.stories[i].acceptanceCriteria == ""
  {
    Stories.FetchAdoStoriesNoCriteria(ado.config, Fetch(ado), storyIds);
    Enrich(figmaPat, link, figma, ado.config, Fetch(ado), storyIds)
  }

  /** validate's `run`: every story in a written bundle has empty criteria. */
  function ValidateRun(figmaPat: string, link: string, figma: FigmaSide, ado: AdoSide): (r: Option<Bundle>)
    ensures figmaPat == "" || Figma.ExtractFileKey(link).None? ==> r.None?
    ensures r.Some? ==> forall i :: 0 <= i < |r.value.stories| ==> r.value.stories[i].acceptanceCriteria == ""
  {
    Stories.ValidateIsUnfilteredEnrich(ado.config, Fetch(ado));
    Stories.FetchAdoStoriesNoCriteria(ado.config, Fetch(ado), []);
    Validate(figmaPat, link, figma, ado.config, Fetch(ado))
  }

  /** A bundle is written exactly when the token is set, the link has a
      key, the screenshots are there and the ADO read succeeded; it then
      holds what each step produced. */
  lemma EnrichWritesBundle(figmaPat: string, link: string, figma: FigmaSide, ado: AdoSide, storyIds: seq<string>)
    ensures var key := Figma.ExtractFileKey(link);
      var r := EnrichRun(figmaPat, link, figma, ado, storyIds);
      r.Some? <==>
        && figmaPat != "" && key.Some?
        && Figma.GetScreenshots(figma.listing, figma.dir, figma.file(key.value), figma.images, figma.download).Some?
        && ado.config.Some? && Read(ado).result.Success?
    ensures var r := EnrichRun(figmaPat, link, figma, ado, storyIds);
      r.Some? ==>
        && Figma.ExtractFileKey(link) == Some(r.value.fileKey)
        && Some(r.value.stories) == Stories.FetchAdoStories(ado.config, Fetch(ado), storyIds)
  {
  }

  /** The same for validate; with no frames in the file it never writes. */
  lemma ValidateWritesBundle(figmaPat: string, link: string, figma: FigmaSide, ado: AdoSide)
    ensures var key := Figma.ExtractFileKey(link);
      var r := ValidateRun(figmaPat, link, figma, ado);
      r.Some? <==>
        && figmaPat != "" && key.Some?
        && figma.file(key.value).Some? && Figma.CollectFrames(figma.file(key.value).value) != []
        && ado.config.Some? && Read(ado).result.Success?
    ensures var r := ValidateRun(figmaPat, link, figma, ado);
      r.Some? ==>
        && Figma.ExtractFileKey(link) == Some(r.value.fileKey)
        && r.value.stories == Stories.ShapeAll(Stories.StoryDicts(Read(ado).result.value))
        && |r.value.stories| == |Query.OfType(Read(ado).result.value, Query.UserStory)|
  {
  }

  /** Enrich differs from validate only when screenshots are already on
      disk or ids are requested. */
  lemma EnrichWithoutReuseIsValidate(figmaPat: string, link: string, figma: FigmaSide, ado: AdoSide)
    requires figma.listing.None?
    ensures EnrichRun(figmaPat, link, figma, ado, []) == ValidateRun(figmaPat, link, figma, ado)
  {
    if figmaPat != "" && Figma.ExtractFileKey(link).Some? {
      Stories.ValidateIsUnfilteredEnrich(ado.config, Fetch(ado));
    }
  }

  // ---------------------------------------------------------------------
  // The commands with the criteria kept

  /** enrich's `run` over the read that keeps the criteria. */
  function EnrichRunKept(figmaPat: string, link: string, figma: FigmaSide, ado: AdoSide,
                         storyIds: seq<string>): (r: Option<Bundle>)
    ensures figmaPat == "" || Figma.ExtractFileKey(link).None? ==> r.None?
  {
    Enrich(figmaPat, link, figma, ado.config, FetchKept(ado), storyIds)
  }

  /** validate's `run` over the read that keeps the criteria. */
  function ValidateRunKept(figmaPat: string, link: string, figma: FigmaSide, ado: AdoSide): (r: Option<Bundle>)
    ensures figmaPat == "" || Figma.ExtractFileKey(link).None? ==> r.None?
  {
    Validate(figmaPat, link, figma, ado.config, FetchKept(ado))
  }

  /** Keeping the criteria changes neither whether enrich writes nor what
      it writes, except the stories' criteria. */
  lemma EnrichKeptDiffers(figmaPat: string, link: string, figma: FigmaSide, ado: AdoSide, storyIds: seq<string>)
    ensures var a, b := EnrichRun(figmaPat, link, figma, ado, storyIds), EnrichRunKept(figmaPat, link, figma, ado, storyIds);
      && (a.Some? <==> b.Some?)
      && (a.Some? ==> a.value.fileKey == b.value.fileKey && a.value.screens == b.value.screens
                      && Stories.SameButCriteria(a.value.stories, b.value.stories))
  {
    if ado.config.Some? {
      var c := ado.config.value;
      Stories.AdoReadPaired(ado.query(c), ado.details(c));
    }
    EnrichPaired(figmaPat, link, figma, ado.config, Fetch(ado), FetchKept(ado), storyIds);
  }

  /** The same for validate. */
  lemma ValidateKeptDiffers(figmaPat: string, link: string, figma: FigmaSide, ado: AdoSide)
    ensures var a, b := ValidateRun(figmaPat, link, figma, ado), ValidateRunKept(figmaPat, link, figma, ado);
      && (a.Some? <==> b.Some?)
      && (a.Some? ==> a.value.fileKey == b.value.fileKey && a.value.screens == b.value.screens
                      && Stories.SameButCriteria(a.value.stories, b.value.stories))
  {
    if ado.config.Some? {
      var c := ado.config.value;
      Stories.AdoReadPaired(ado.query(c), ado.details(c));
    }
    if figmaPat != "" && Figma.ExtractFileKey(link).Some? {
      var key := Figma.ExtractFileKey(link).value;
      if Figma.FetchScreenshots(figma.file(key), figma.images, figma.dir, figma.download).Some? {
        Stories.ValidateIsUnfilteredEnrich(ado.config, Fetch(ado));
        Stories.ValidateIsUnfilteredEnrich(ado.config, FetchKept(ado));
        Stories.FetchAdoStoriesPaired(ado.config, Fetch(ado), FetchKept(ado), []);
      }
    }
  }
}
