/**
 * The two classes of the burn-severity script: `fire_severity_analysis`,
 * which looks a fire up in the current fire layers and derives the search
 * bounds from its perimeter, and `usgs_queries`, which searches and
 * downloads the post-fire Landsat scene over those bounds.
 */
module BurnSeverity {
  import opened Wrappers
  import opened GeoJson
  import opened M2m

  /** A record of the 'Fire Locations - Current' layer, with the attributes the script scrapes. */
  datatype FireLocation = FireLocation(
    fireNumber: string, currentSize: real, fireCentre: string, zone: string, ignitionDate: string,
    fireCause: string, fireType: string, geographicDescription: string, fireUrl: string,
    responseType: string, outDate: string)

  /** A record of the 'Fire Perimeters - Current' layer, with its Web Mercator rings. */
  datatype FirePerimeter = FirePerimeter(
    fireNumber: string, fireSizeHectares: real, loadDate: string, fireStatus: string, source: string,
    rings: seq<seq<Position>>)

  /** The outcome of a lookup by fire number: only exactly one record is used. */
  datatype Lookup = MoreThanOne | NoRecords | ExactlyOne

  /** The branch `len(df) > 1`, `len(df) < 1`, `len(df) == 1` a lookup of `n` records takes. */
  function LookupOf(n: nat): (l: Lookup)
    ensures l == ExactlyOne <==> n == 1
    ensures l == NoRecords <==> n == 0
  {
    if n > 1 then MoreThanOne else if n < 1 then NoRecords else ExactlyOne
  }

  /**
   * The records of a layer query `FIRE_NUMBER = '<id>'`, in layer order;
   * `number` reads a record's fire number.
   */
  function Numbered<T(!new)>(layer: seq<T>, id: string, number: T -> string): (r: seq<T>)
    ensures forall x :: multiset(r)[x] == if number(x) == id then multiset(layer)[x] else 0
    ensures forall x :: x in r <==> x in layer && number(x) == id
    ensures |r| <= |layer|
    decreases |layer|
  {
    if layer == [] then []
    else
      var init := layer[..|layer| - 1];
      var last := layer[|layer| - 1];
      assert layer == init + [last];
      assert multiset(layer) == multiset(init) + multiset{last};
      var rest := Numbered(init, id, number);
      if number(last) == id then rest + [last] else rest
  }

  /** The fire number of a location record. */
  function LocationNumber(l: FireLocation): string { l.fireNumber }

  /** The fire number of a perimeter record. */
  function PerimeterNumber(p: FirePerimeter): string { p.fireNumber }

  /** Why deriving the search bounds from a perimeter raised. */
  datatype PerimeterError =
    /** `rings[0]` of a geometry without rings. */
    | NoRing
    /** Extending `all_coords` with the `None` of an unsupported geometry type. */
    | UnsupportedGeometry
    /** Unpacking `zip(*all_coords)` when there is no coordinate. */
    | NoCoordinates

  /**
   * The search bounds of a perimeter: its first ring, re-projected to
   * WGS 84 by `toWgs84` (the GeoDataFrame round trip through a GeoJSON
   * file), flattened, and boxed.
   */
  function PerimeterBounds(p: FirePerimeter, toWgs84: seq<Position> -> seq<Feature>): (r: Result<Box, PerimeterError>)
    ensures p.rings == [] ==> r == Err(NoRing)
    ensures r.Ok? <==> p.rings != [] && AllSupported(toWgs84(p.rings[0])) && AllCoordinates(toWgs84(p.rings[0])) != []
    ensures r.Ok? ==> forall k :: 0 <= k < |AllCoordinates(toWgs84(p.rings[0]))| ==>
                        Inside(r.value, AllCoordinates(toWgs84(p.rings[0]))[k])
  {
    if p.rings == [] then Err(NoRing)
    else
      var features := toWgs84(p.rings[0]);
      if !AllSupported(features) then Err(UnsupportedGeometry)
      else
        var coords := AllCoordinates(features);
        if coords == [] then Err(NoCoordinates) else Ok(BoundingBox(coords).value)
  }

  /** Every position of the re-projected perimeter lies within its search bounds. */
  lemma PerimeterBoundsCover(p: FirePerimeter, toWgs84: seq<Position> -> seq<Feature>, i: int, c: Position)
    requires PerimeterBounds(p, toWgs84).Ok?
    requires 0 <= i < |toWgs84(p.rings[0])| && Occurs(toWgs84(p.rings[0])[i].geometry, c)
    ensures Inside(PerimeterBounds(p, toWgs84).value, c)
  {
    var features := toWgs84(p.rings[0]);
    var coords := AllCoordinates(features);
    AllCoordinatesMembership(features, c);
    var k :| 0 <= k < |coords| && coords[k] == c;
  }

  /** `fire_severity_analysis`: what the script learns about one fire. */
  class FireSeverityAnalysis {
    const fireId: string
    var location: Option<FireLocation>
    var perimeter: Option<FirePerimeter>
    var bounds: Option<Box>

    /** `self.fire_ID = fire_ID`; no attribute is scraped yet. */
    constructor (fireId: string)
      ensures this.fireId == fireId && location == None && perimeter == None && bounds == None
    {
      this.fireId := fireId;
      location, perimeter, bounds := None, None, None;
    }

    /**
     * The 'Fire Locations - Current' step of `__init__`: the location
     * attributes are scraped only when exactly one record carries the fire
     * number; otherwise an error is printed and nothing is set.
     */
    method ScrapeLocation(layer: seq<FireLocation>) returns (status: Lookup)
      modifies this`location
      ensures var matches := Numbered(layer, fireId, LocationNumber);
              && status == LookupOf(|matches|)
              && (status == ExactlyOne ==> location == Some(matches[0]))
              && (status != ExactlyOne ==> location == old(location))
    {
      var df := Numbered(layer, fireId, LocationNumber);
      if |df| > 1 {
        status := MoreThanOne;
      } else if |df| < 1 {
        status := NoRecords;
      } else {
        status := ExactlyOne;
        location := Some(df[0]);
      }
    }

    /**
     * The 'Fire Perimeters - Current' step of `__init__`: only when exactly
     * one record carries the fire number are its attributes scraped and
     * the search bounds derived from its geometry, which may raise.
     */
    method ScrapePerimeter(layer: seq<FirePerimeter>, toWgs84: seq<Position> -> seq<Feature>)
      returns (status: Lookup, outcome: Result<(), PerimeterError>)
      modifies this`perimeter, this`bounds
      ensures var matches := Numbered(layer, fireId, PerimeterNumber);
              && status == LookupOf(|matches|)
              && (status != ExactlyOne ==> perimeter == old(perimeter) && bounds == old(bounds) && outcome.Ok?)
              && (status == ExactlyOne ==>
                    var expected := PerimeterBounds(matches[0], toWgs84);
                    && perimeter == Some(matches[0])
                    && (expected.Ok? ==> outcome.Ok? && bounds == Some(expected.value))
                    && (expected.Err? ==> outcome == Err(expected.error) && bounds == old(bounds)))
    {
      var df := Numbered(layer, fireId, PerimeterNumber);
      outcome := Ok(());
      if |df| > 1 {
        status := MoreThanOne;
      } else if |df| < 1 {
        status := NoRecords;
      } else {
        status := ExactlyOne;
        perimeter := Some(df[0]);
        if df[0].rings == [] {
          outcome := Err(NoRing);
          return;
        }
        var features := toWgs84(df[0].rings[0]);
        var allCoords := CollectCoordinates(features);
        if allCoords.None? {
          outcome := Err(UnsupportedGeometry);
          return;
        }
        var box := BoundingBox(allCoords.value);
        if box.None? {
          outcome := Err(NoCoordinates);
          return;
        }
        bounds := Some(box.value);
      }
    }
  }

  /** The M2M service root the script posts to. */
  const ServiceUrl := "https://m2m.cr.usgs.gov/api/api/json/stable/"

  /** The label of the download request. */
  const DownloadLabel := "test_download_request"

  /** The API key the login leaves behind: `data` of a 200 response, never assigned otherwise. */
  function KeyAfterLogin(loginStatus: int, loginData: Option<string>): (key: ApiKey)
    ensures key.Unset? <==> loginStatus != 200
    ensures loginStatus == 200 ==> (key.Key? <==> loginData.Some?) && (key.Key? ==> key.token == loginData.value)
  {
    if loginStatus != 200 then Unset
    else match loginData
      case None => Null
      case Some(k) => Key(k)
  }

  /** Why a search or a download stopped. */
  datatype QueryError =
    /** `self.spatialFilter` was never set: the fire had no bounds, so `__init__` raised. */
    | NoSpatialFilter
    /** The fire's search-window dates were never set: its lookup did not find exactly one record. */
    | NoSearchWindow
    /** `sendRequest` did not return data. */
    | RequestFailed(outcome: RequestOutcome)
    /** The returned data is not what the endpoint answers. */
    | UnexpectedData
    /** `idxmin` over a search without results. */
    | NoScenes
    /** The download ran before a post-fire scene was chosen. */
    | NoPostFireScene

  /** The ignition date, present only when the location was scraped. */
  function IgnitionDate(location: Option<FireLocation>): (d: Option<string>)
    ensures d.Some? <==> location.Some?
  {
    if location.Some? then Some(location.value.ignitionDate) else None
  }

  /** The perimeter's load date, present only when the perimeter was scraped. */
  function LoadDate(perimeter: Option<FirePerimeter>): (d: Option<string>)
    ensures d.Some? <==> perimeter.Some?
  {
    if perimeter.Some? then Some(perimeter.value.loadDate) else None
  }

  /**
   * The body of a scene search, built from `self.spatialFilter` and the
   * fire's window dates; `window` is the date arithmetic that turns the
   * fire's date into the window's start and end. Reading an attribute
   * that was never set raises before anything is sent.
   */
  function SearchPayload(filter: Option<SpatialFilter>, date: Option<string>, window: string -> (string, string))
    : (r: Result<Payload, QueryError>)
    ensures filter.None? ==> r == Err(NoSpatialFilter)
    ensures filter.Some? && date.None? ==> r == Err(NoSearchWindow)
    ensures r.Ok? <==> filter.Some? && date.Some?
    ensures r.Ok? ==> r.value.SceneSearch? && r.value.spatialFilter == filter.value
                      && r.value.start == window(date.value).0 && r.value.end == window(date.value).1
  {
    if filter.None? then Err(NoSpatialFilter)
    else if date.None? then Err(NoSearchWindow)
    else
      var (start, end) := window(date.value);
      Ok(SceneSearchPayload(filter.value, start, end))
  }

  /** `usgs_queries`: the M2M session for one fire. */
  class UsgsQueries {
    const fire: FireSeverityAnalysis
    const spatialFilter: Option<SpatialFilter>
    var apiKey: ApiKey
    var preFireResults: Option<seq<Scene>>
    var postFireResults: Option<seq<Scene>>
    var minCloudScene: Option<Scene>

    /**
     * `__init__`: the `mbr` spatial filter from the fire's bounds, then the
     * API key from the login response (`loginStatus`, `loginData`). A fire
     * without bounds makes the filter raise before the login is sent: the
     * session then has neither a filter nor a key attribute.
     */
    constructor (fire: FireSeverityAnalysis, loginStatus: int, loginData: Option<string>)
      ensures this.fire == fire
      ensures fire.bounds.None? ==> spatialFilter == None && apiKey == Unset
      ensures fire.bounds.Some? ==> spatialFilter == Some(MbrFilter(fire.bounds.value))
                                    && apiKey == KeyAfterLogin(loginStatus, loginData)
      ensures preFireResults == None && postFireResults == None && minCloudScene == None
    {
      this.fire := fire;
      if fire.bounds.None? {
        spatialFilter := None;
        apiKey := Unset;
      } else {
        spatialFilter := Some(MbrFilter(fire.bounds.value));
        apiKey := KeyAfterLogin(loginStatus, loginData);
      }
      preFireResults, postFireResults, minCloudScene := None, None, None;
    }

    /**
     * `pre_fire_search`: the scenes of the pre-fire window over the fire;
     * `preWindow` turns the ignition date into the window's start and end.
     */
    method PreFireSearch(post: HttpRequest -> HttpResponse, preWindow: string -> (string, string))
      returns (outcome: Result<(), QueryError>)
      modifies this`preFireResults
      ensures var payload := SearchPayload(spatialFilter, IgnitionDate(fire.location), preWindow);
              && (payload.Err? ==> outcome == Err(payload.error) && preFireResults == old(preFireResults))
              && (payload.Ok? ==>
                    var r := SendRequest(apiKey, payload.value, ServiceUrl + "scene-search", true, post);
                    && (r.Returned? && r.data.SearchResults? ==> outcome.Ok? && preFireResults == Some(r.data.results))
                    && (!r.Returned? ==> outcome == Err(RequestFailed(r)) && preFireResults == old(preFireResults))
                    && (r.Returned? && !r.data.SearchResults? ==> outcome == Err(UnexpectedData) && preFireResults == old(preFireResults)))
    {
      var payload := SearchPayload(spatialFilter, IgnitionDate(fire.location), preWindow);
      if payload.Err? {
        return Err(payload.error);
      }
      var results := SendRequest(apiKey, payload.value, ServiceUrl + "scene-search", true, post);
      if !results.Returned? {
        return Err(RequestFailed(results));
      }
      if !results.data.SearchResults? {
        return Err(UnexpectedData);
      }
      preFireResults := Some(results.data.results);
      outcome := Ok(());
    }

    /**
     * `post_fire_search`: the scenes of the post-fire window, and among
     * them the first with the least cloud cover; `postWindow` turns the
     * perimeter's load date into the window's start and end.
     */
    method PostFireSearch(post: HttpRequest -> HttpResponse, postWindow: string -> (string, string))
      returns (outcome: Result<(), QueryError>)
      modifies this`postFireResults, this`minCloudScene
      ensures var payload := SearchPayload(spatialFilter, LoadDate(fire.perimeter), postWindow);
              && (payload.Err? ==> outcome == Err(payload.error) && postFireResults == old(postFireResults) && minCloudScene == old(minCloudScene))
              && (payload.Ok? ==>
                    var r := SendRequest(apiKey, payload.value, ServiceUrl + "scene-search", true, post);
                    && (!r.Returned? ==> outcome == Err(RequestFailed(r)) && postFireResults == old(postFireResults) && minCloudScene == old(minCloudScene))
                    && (r.Returned? && !r.data.SearchResults? ==> outcome == Err(UnexpectedData) && postFireResults == old(postFireResults) && minCloudScene == old(minCloudScene))
                    && (r.Returned? && r.data.SearchResults? ==>
                          var scenes := r.data.results;
                          && postFireResults == Some(scenes)
                          && (scenes == [] ==> outcome == Err(NoScenes) && minCloudScene == old(minCloudScene))
                          && (scenes != [] ==>
                                && outcome.Ok?
                                && minCloudScene == Some(scenes[IdxMin(CloudCovers(scenes))])
                                && minCloudScene.value in scenes
                                && forall j :: 0 <= j < |scenes| ==> minCloudScene.value.cloudCover <= scenes[j].cloudCover)))
    {
      var payload := SearchPayload(spatialFilter, LoadDate(fire.perimeter), postWindow);
      if payload.Err? {
        return Err(payload.error);
      }
      var results := SendRequest(apiKey, payload.value, ServiceUrl + "scene-search", true, post);
      if !results.Returned? {
        return Err(RequestFailed(results));
      }
      if !results.data.SearchResults? {
        return Err(UnexpectedData);
      }
      var scenes := results.data.results;
      postFireResults := Some(scenes);
      if scenes == [] {
        return Err(NoScenes);
      }
      var k := IdxMin(CloudCovers(scenes));
      LowestCloudScene(scenes);
      minCloudScene := Some(scenes[k]);
      outcome := Ok(());
    }

    /**
     * `download_post_fire_image`: asks for the download options of the
     * chosen scene, requests every downloadable product, and fetches each
     * download, `getStatus` standing for the status of `requests.get`.
     * Returns the download entries requested and the files written.
     */
    method DownloadPostFireImage(post: HttpRequest -> HttpResponse, getStatus: string -> int)
      returns (outcome: Result<(seq<DownloadEntry>, seq<string>), QueryError>)
      ensures minCloudScene.None? ==> outcome == Err(NoPostFireScene)
      ensures minCloudScene.Some? ==>
                var options := SendRequest(apiKey, DownloadOptionsRequest(LandsatDatasetName, [minCloudScene.value.entityId]),
                                           ServiceUrl + "download-options", true, post);
                && (!options.Returned? ==> outcome == Err(RequestFailed(options)))
                && (options.Returned? && !options.data.DownloadOptions? ==> outcome == Err(UnexpectedData))
                && (options.Returned? && options.data.DownloadOptions? ==>
                      var entries := DownloadEntries(options.data.options);
                      var requested := SendRequest(apiKey, DownloadRequest(entries, DownloadLabel),
                                                   ServiceUrl + "download-request", true, post);
                      && (!requested.Returned? ==> outcome == Err(RequestFailed(requested)))
                      && (requested.Returned? && !requested.data.DownloadRequestResults? ==> outcome == Err(UnexpectedData))
                      && (requested.Returned? && requested.data.DownloadRequestResults? ==>
                            outcome == Ok((entries, WrittenFiles(requested.data.availableDownloads, getStatus)))))
    {
      if minCloudScene.None? {
        return Err(NoPostFireScene);
      }
      var sceneIds := [minCloudScene.value.entityId];
      var downloadOptions := SendRequest(apiKey, DownloadOptionsRequest(LandsatDatasetName, sceneIds),
                                         ServiceUrl + "download-options", true, post);
      if !downloadOptions.Returned? {
        return Err(RequestFailed(downloadOptions));
      }
      if !downloadOptions.data.DownloadOptions? {
        return Err(UnexpectedData);
      }
      var availableProducts := AvailableProducts(downloadOptions.data.options);
      var requestResults := SendRequest(apiKey, DownloadRequest(availableProducts, DownloadLabel),
                                        ServiceUrl + "download-request", true, post);
      if !requestResults.Returned? {
        return Err(RequestFailed(requestResults));
      }
      if !requestResults.data.DownloadRequestResults? {
        return Err(UnexpectedData);
      }
      var written := DownloadFiles(requestResults.data.availableDownloads, getStatus);
      outcome := Ok((availableProducts, written));
    }
  }
}
