/**
 * The parts of the burn-severity script that talk to the USGS
 * machine-to-machine (M2M) JSON API: the request headers and the response
 * classification of `sendRequest`, the `mbr` spatial filter, the scene
 * search payload, the lowest-cloud scene and the downloadable products.
 */
module M2m {
  import opened Wrappers
  import opened GeoJson

  /** The state of `self.apiKey`: never assigned (login failed), JSON null, or a key. */
  datatype ApiKey = Unset | Null | Key(token: string)

  /** A scene row of a search result, with the columns the script reads. */
  datatype Scene = Scene(entityId: string, cloudCover: real, startDate: string)

  /** One entry of a `download-options` response. */
  datatype Product = Product(entityId: string, id: string, available: bool, downloadSystem: string)

  /** One entry of the `downloads` list of a `download-request` payload. */
  datatype DownloadEntry = DownloadEntry(entityId: string, productId: string)

  /** One entry of `availableDownloads` in a `download-request` response. */
  datatype AvailableDownload = AvailableDownload(url: string, downloadId: string)

  /** The `data` member of a response, by the endpoint that produced it. */
  datatype ResponseData =
    | LoginData(apiKey: Option<string>)
    | SearchResults(results: seq<Scene>)
    | DownloadOptions(options: seq<Product>)
    | DownloadRequestResults(availableDownloads: seq<AvailableDownload>)

  /**
   * The JSON body of a response: not readable (not JSON, or without an
   * `errorCode` member), or its `errorCode`, `errorMessage` and `data`.
   */
  datatype Body =
    | Unreadable
    | Json(errorCode: Option<string>, errorMessage: string, data: ResponseData)

  /** An HTTP response as `requests.post` returns it. */
  datatype HttpResponse = HttpResponse(statusCode: int, body: Body)

  /** A lower-left or upper-right corner of a spatial filter. */
  datatype Corner = Corner(latitude: real, longitude: real)

  /** `{'filterType': 'mbr', 'lowerLeft': ..., 'upperRight': ...}`. */
  datatype SpatialFilter = SpatialFilter(filterType: string, lowerLeft: Corner, upperRight: Corner)

  /** The request bodies the script sends. */
  datatype Payload =
    | SceneSearch(datasetName: string, filterId: string, filterValue: string, spatialFilter: SpatialFilter,
                  start: string, end: string, cloudMin: int, cloudMax: int)
    | DownloadOptionsRequest(datasetName: string, entityIds: seq<string>)
    | DownloadRequest(downloads: seq<DownloadEntry>, downloadLabel: string)

  /** A POST request: URL, JSON body and headers. */
  datatype HttpRequest = HttpRequest(url: string, payload: Payload, headers: map<string, string>)

  /** What `sendRequest` ends in: it returns `output['data']`, returns `False`, exits, or raises on a missing key. */
  datatype RequestOutcome =
    | Returned(data: ResponseData)
    | ReturnedFalse
    | Exited
    | NoApiKeyAttribute

  /** The failure branch of `sendRequest`: exit when `exitIfNoResponse`, else return `False`. */
  function Failed(exitIfNoResponse: bool): RequestOutcome {
    if exitIfNoResponse then Exited else ReturnedFalse
  }

  /** The HTTP status codes `sendRequest` treats as failures. */
  predicate FailureStatus(code: int) {
    code == 404 || code == 401 || code == 400
  }

  /**
   * The checks of `sendRequest` on a response, in the order the code makes
   * them: an unreadable body fails; a non-null `errorCode` fails whatever
   * the status; then 404, 401 and 400 fail; anything else returns `data`.
   */
  function ClassifyResponse(response: HttpResponse, exitIfNoResponse: bool): (r: RequestOutcome)
    ensures r.Returned? <==> response.body.Json? && response.body.errorCode.None? && !FailureStatus(response.statusCode)
    ensures r.Returned? ==> r.data == response.body.data
    ensures response.body.Json? && response.body.errorCode.Some? ==> r == Failed(exitIfNoResponse)
    ensures !r.Returned? ==> (r.Exited? <==> exitIfNoResponse) && (r.ReturnedFalse? <==> !exitIfNoResponse)
  {
    match response.body
    case Unreadable => Failed(exitIfNoResponse)
    case Json(errorCode, _, data) =>
      if errorCode.Some? then Failed(exitIfNoResponse)
      else if response.statusCode == 404 then Failed(exitIfNoResponse)
      else if response.statusCode == 401 then Failed(exitIfNoResponse)
      else if response.statusCode == 400 then Failed(exitIfNoResponse)
      else Returned(data)
  }

  /** A response whose body carries an error code fails with every status code, 200 included. */
  lemma ErrorCodeWinsOverStatus(code: int, other: int, message: string, data: ResponseData, errorCode: string, exitIfNoResponse: bool)
    ensures ClassifyResponse(HttpResponse(code, Json(Some(errorCode), message, data)), exitIfNoResponse)
         == ClassifyResponse(HttpResponse(other, Json(Some(errorCode), message, data)), exitIfNoResponse)
  {
  }

  /**
   * The headers `sendRequest` posts with: `X-Auth-Token` exactly when the
   * API key is not None; reading a never-assigned key raises.
   */
  function RequestHeaders(apiKey: ApiKey): (h: Option<map<string, string>>)
    ensures h.None? <==> apiKey.Unset?
    ensures h.Some? ==> ("X-Auth-Token" in h.value <==> apiKey.Key?)
    ensures h.Some? && apiKey.Key? ==> h.value["X-Auth-Token"] == apiKey.token
  {
    match apiKey
    case Unset => None
    case Null => Some(map[])
    case Key(token) => Some(map["X-Auth-Token" := token])
  }

  /**
   * `sendRequest(data, serviceURL, exitIfNoResponse)` with `post` standing
   * for `requests.post`: builds the headers, posts, and classifies.
   */
  function SendRequest(apiKey: ApiKey, payload: Payload, serviceUrl: string, exitIfNoResponse: bool,
                       post: HttpRequest -> HttpResponse): (r: RequestOutcome)
    ensures apiKey.Unset? <==> r == NoApiKeyAttribute
    ensures !apiKey.Unset? ==>
              var request := HttpRequest(serviceUrl, payload, RequestHeaders(apiKey).value);
              r == ClassifyResponse(post(request), exitIfNoResponse) &&
              ("X-Auth-Token" in request.headers <==> apiKey.Key?)
  {
    match RequestHeaders(apiKey)
    case None => NoApiKeyAttribute
    case Some(headers) => ClassifyResponse(post(HttpRequest(serviceUrl, payload, headers)), exitIfNoResponse)
  }

  /** The `spatialFilter` built from a fire's bounds. */
  function MbrFilter(box: Box): (f: SpatialFilter)
    ensures f.filterType == "mbr"
    ensures f.lowerLeft.longitude == box.bottomLeftLong && f.lowerLeft.latitude == box.bottomLeftLat
    ensures f.upperRight.longitude == box.topRightLong && f.upperRight.latitude == box.topRightLat
  {
    SpatialFilter("mbr", Corner(box.bottomLeftLat, box.bottomLeftLong), Corner(box.topRightLat, box.topRightLong))
  }

  /**
   * The filter of the bounds of real coordinates has its lower-left corner
   * below and left of its upper-right one, and every coordinate lies
   * between them.
   */
  lemma MbrFilterCovers(coords: seq<Position>)
    requires coords != []
    ensures var f := MbrFilter(BoundingBox(coords).value);
            && f.lowerLeft.longitude <= f.upperRight.longitude
            && f.lowerLeft.latitude <= f.upperRight.latitude
            && forall k :: 0 <= k < |coords| ==>
                 f.lowerLeft.longitude <= coords[k].lon <= f.upperRight.longitude &&
                 f.lowerLeft.latitude <= coords[k].lat <= f.upperRight.latitude
  {
    BoundingBoxOrdered(coords);
  }

  /** The Landsat dataset the script searches. */
  const LandsatDatasetName := "landsat_ot_c2_l2"

  /** The scene search payload for the acquisition window `start` to `end`. */
  function SceneSearchPayload(filter: SpatialFilter, start: string, end: string): (p: Payload)
    ensures p.SceneSearch? && p.datasetName == LandsatDatasetName && p.spatialFilter == filter
    ensures p.filterId == "61af9273566bb9a8" && p.filterValue == "9"
    ensures p.start == start && p.end == end && p.cloudMin == 0 && p.cloudMax == 100
  {
    SceneSearch(LandsatDatasetName, "61af9273566bb9a8", "9", filter, start, end, 0, 100)
  }

  /** The cloud cover of every scene, in order. */
  function CloudCovers(scenes: seq<Scene>): (covers: seq<real>)
    ensures |covers| == |scenes|
    ensures forall k :: 0 <= k < |scenes| ==> covers[k] == scenes[k].cloudCover
  {
    seq(|scenes|, k requires 0 <= k < |scenes| => scenes[k].cloudCover)
  }

  /** `Series.idxmin()`: the first position holding the least value. */
  function IdxMin(xs: seq<real>): (k: nat)
    requires |xs| > 0
    ensures k < |xs|
    ensures forall j :: 0 <= j < |xs| ==> xs[k] <= xs[j]
    ensures forall j :: 0 <= j < k ==> xs[j] > xs[k]
    decreases |xs|
  {
    if |xs| == 1 then 0
    else
      var k := IdxMin(xs[..|xs| - 1]);
      if xs[|xs| - 1] < xs[k] then |xs| - 1 else k
  }

  /** The scene `post_fire_search` keeps: the first with the least cloud cover. */
  lemma LowestCloudScene(scenes: seq<Scene>)
    requires |scenes| > 0
    ensures var best := scenes[IdxMin(CloudCovers(scenes))];
            && best in scenes
            && (forall j :: 0 <= j < |scenes| ==> best.cloudCover <= scenes[j].cloudCover)
            && (forall j :: 0 <= j < IdxMin(CloudCovers(scenes)) ==> scenes[j].cloudCover > best.cloudCover)
  {
    var covers := CloudCovers(scenes);
    var k := IdxMin(covers);
    forall j | 0 <= j < |scenes| ensures scenes[k].cloudCover <= scenes[j].cloudCover {
      assert covers[k] <= covers[j];
    }
  }

  /** A product the script asks to download: available, and not delivered as a folder. */
  predicate Downloadable(p: Product) {
    p.available && p.downloadSystem != "folder"
  }

  /** The downloadable products, in input order, as download entries. */
  function DownloadEntries(options: seq<Product>): (entries: seq<DownloadEntry>)
    ensures |entries| <= |options|
    decreases |options|
  {
    if options == [] then []
    else
      var rest := DownloadEntries(options[..|options| - 1]);
      var p := options[|options| - 1];
      if Downloadable(p) then rest + [DownloadEntry(p.entityId, p.id)] else rest
  }

  /**
   * The product filter never lengthens the list, and an entry is produced
   * exactly for each downloadable product.
   */
  lemma {:induction false} DownloadEntriesSound(options: seq<Product>, e: DownloadEntry)
    ensures |DownloadEntries(options)| <= |options|
    ensures e in DownloadEntries(options) <==>
              exists k :: 0 <= k < |options| && Downloadable(options[k]) &&
                          e == DownloadEntry(options[k].entityId, options[k].id)
    decreases |options|
  {
    if options != [] {
      var init := options[..|options| - 1];
      DownloadEntriesSound(init, e);
      if exists k :: 0 <= k < |options| && Downloadable(options[k]) && e == DownloadEntry(options[k].entityId, options[k].id) {
        var k :| 0 <= k < |options| && Downloadable(options[k]) && e == DownloadEntry(options[k].entityId, options[k].id);
        if k < |init| {
          assert init[k] == options[k];
        }
      }
      if exists k :: 0 <= k < |init| && Downloadable(init[k]) && e == DownloadEntry(init[k].entityId, init[k].id) {
        var k :| 0 <= k < |init| && Downloadable(init[k]) && e == DownloadEntry(init[k].entityId, init[k].id);
        assert options[k] == init[k];
      }
    }
  }

  /**
   * The loop of `download_post_fire_image` over the download options:
   * appends `{entityId, productId}` for every downloadable product.
   */
  method AvailableProducts(options: seq<Product>) returns (available: seq<DownloadEntry>)
    ensures available == DownloadEntries(options)
    ensures |available| <= |options|
  {
    available := [];
    var i := 0;
    while i < |options|
      invariant 0 <= i <= |options|
      invariant available == DownloadEntries(options[..i])
      invariant |available| <= i
    {
      var product := options[i];
      assert options[..i + 1][..i] == options[..i];
      if product.available == true && product.downloadSystem != "folder" {
        available := available + [DownloadEntry(product.entityId, product.id)];
      }
      i := i + 1;
    }
    assert options[..i] == options;
  }

  /** The file name a download is written to. */
  function DownloadFileName(item: AvailableDownload): string {
    item.downloadId + ".tar"
  }

  /** The file names of the downloads whose GET answered 200, in order. */
  function WrittenFiles(items: seq<AvailableDownload>, getStatus: string -> int): (files: seq<string>)
    ensures |files| <= |items|
    ensures forall k :: 0 <= k < |files| ==> |files[k]| >= 4 && files[k][|files[k]| - 4..] == ".tar"
    decreases |items|
  {
    if items == [] then []
    else
      var rest := WrittenFiles(items[..|items| - 1], getStatus);
      var item := items[|items| - 1];
      if getStatus(item.url) == 200 then rest + [DownloadFileName(item)] else rest
  }

  /** A file is written exactly for a download whose GET answered 200, and never more files than downloads. */
  lemma {:induction false} WrittenFilesSound(items: seq<AvailableDownload>, getStatus: string -> int, name: string)
    ensures |WrittenFiles(items, getStatus)| <= |items|
    ensures name in WrittenFiles(items, getStatus) <==>
              exists k :: 0 <= k < |items| && getStatus(items[k].url) == 200 && name == DownloadFileName(items[k])
    decreases |items|
  {
    if items != [] {
      var init := items[..|items| - 1];
      WrittenFilesSound(init, getStatus, name);
      if exists k :: 0 <= k < |items| && getStatus(items[k].url) == 200 && name == DownloadFileName(items[k]) {
        var k :| 0 <= k < |items| && getStatus(items[k].url) == 200 && name == DownloadFileName(items[k]);
        if k < |init| {
          assert init[k] == items[k];
        }
      }
      if exists k :: 0 <= k < |init| && getStatus(init[k].url) == 200 && name == DownloadFileName(init[k]) {
        var k :| 0 <= k < |init| && getStatus(init[k].url) == 200 && name == DownloadFileName(init[k]);
        assert items[k] == init[k];
      }
    }
  }

  /**
   * The download loop of `download_post_fire_image`, with `getStatus`
   * standing for the status code of `requests.get`: writes `<downloadId>.tar`
   * for every download that answered 200 and reports the others.
   */
  method DownloadFiles(items: seq<AvailableDownload>, getStatus: string -> int) returns (written: seq<string>)
    ensures written == WrittenFiles(items, getStatus)
  {
    written := [];
    var i := 0;
    while i < |items|
      invariant 0 <= i <= |items|
      invariant written == WrittenFiles(items[..i], getStatus)
    {
      var item := items[i];
      assert items[..i + 1][..i] == items[..i];
      var filename := item.downloadId + ".tar";
      if getStatus(item.url) == 200 {
        written := written + [filename];
      }
      i := i + 1;
    }
    assert items[..i] == items;
  }
}
