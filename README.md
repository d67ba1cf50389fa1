# Wildfire values mapping and burn-severity imagery, modelled in Dafny

This project models the two Python scripts of the wildfire analysis recipes.

**Wildfire values mapping** (`recipes/Wildfire_Values_Mapping/main.py`) takes the
values at risk near a fire, given as labelled points. It works in five steps:

- Around every point it builds four compass sectors ("pizza slices" at 5 km,
  "rainbows" at 10 km). Each sector is a polygon of the point and one vertex
  per whole bearing.
- It subtracts the 5 km slices from the 10 km sectors, label by label.
- It intersects both layers with the fire.
- It grades each value's North/East/South/West risk as High, Medium or Low.
  High means a slice in that direction meets the fire. Medium means only a
  rainbow does.
- It writes the grades into a dated copy of the values layer. Then it names
  one KML layer per risk field and risk level.

**Burn severity** (`recipes/burn_severity_usgs/main.py`) looks up one fire by
its number in two layers: fire locations and fire perimeters. It turns the
first ring of the perimeter into a longitude/latitude bounding box and
searches the USGS M2M service for Landsat scenes that meet that box (an `mbr`
filter). It picks the
post-fire scene with the least cloud cover and requests every downloadable
product of that scene. Each download that answers with status 200 is saved
as a `.tar` file.

Modules:

- `Wrappers`: `Option` and `Result`.
- `Strings`:
  - Python's `str()` of an integer, with a proved decimal round trip and
    injectivity on naturals;
  - ASCII `lower()`;
  - `str.replace(c, "")`.
- `Sectors`:
  - the compass bearing ranges, including the wrap past 0°;
  - the sector vertex lists;
  - `process_points`, which fills a sector table through an insert cursor.
- `RiskMatrix`:
  - `get_unique_values`;
  - `get_direction_risk`;
  - the risk-matrix cell, which updates the output table through update
    cursors.
- `Exports`:
  - the intermediate names and queries of `erase_by_label`;
  - the layers that `create_kmls` names.
- `GeoJson`:
  - `extract_coordinates`;
  - the gathering of all coordinates;
  - the min/max bounding box.
- `M2m`:
  - `sendRequest`: headers, error classification and exit-or-return-False;
  - the spatial filter;
  - the lowest-cloud choice (`idxmin`);
  - the product filter;
  - the file loop.
- `BurnSeverity`: the classes `fire_severity_analysis` and `usgs_queries`,
  whose attributes are fields set by their methods.

Some operations are not modelled directly and appear as parameters:

- Geometry is a function parameter. `pointAt` stands for
  `point_from_bearing_and_distance`, and `toWgs84` stands for the reprojection
  to EPSG:4326 with its GeoJSON file round trip.
- The network is a function parameter. `post` stands for `requests.post`, and
  `getStatus` for the status code of `requests.get`.
- Dates are string parameters. The date arithmetic of the search windows is
  a function parameter (`preWindow`, `postWindow`). `create_kmls` reads the
  clock once per layer, but the model takes a single `date` for all layers.
- Python's set iteration order is an arbitrary choice (`:|`), so each
  property is proved for every order.

## Model

| member | source | states |
|---|---|---|
| Sectors.Range | recipes/Wildfire_Values_Mapping/main.py:65-67 | `range(lo, hi)` holds hi-lo integers counting up from lo, and none when hi <= lo |
| Sectors.BearingRange | recipes/Wildfire_Values_Mapping/main.py:64-67 | for a start and end in [0, 360) every bearing of the list is a valid bearing in [0, 360), including across the wrap at north |
| Sectors.BearingRangeClockwise | recipes/Wildfire_Values_Mapping/main.py:64-67 | the bearing list for (start, end) sweeps clockwise from start through end: (end-start) mod 360 + 1 bearings, the k-th being (start+k) mod 360, wrapping past 0 when start > end |
| Sectors.CompassBearings | recipes/Wildfire_Values_Mapping/main.py:53-67 | each of the four directions spans 91 whole bearings in [0, 360); east is 315..359 followed by 0..45, the other three are plain ranges |
| Sectors.SectorShape | recipes/Wildfire_Values_Mapping/main.py:62-74 | a sector ring has one vertex per bearing plus the origin at both ends; vertex k+1 is the point at bearing k at the given distance |
| Sectors.SectorVertices | recipes/Wildfire_Values_Mapping/main.py:62-74 | the vertex loop builds exactly that ring: origin, one point per bearing in order, origin again |
| Sectors.SectorsOf | recipes/Wildfire_Values_Mapping/main.py:61-81 | every value point yields one sector row per compass direction |
| Sectors.AllSectorsAt | recipes/Wildfire_Values_Mapping/main.py:56-81 | the sector table for n points has 4n rows; row 4i+d carries point i's label, direction d's name, the distance as text and a closed 93-vertex ring around point i |
| Sectors.AllSectorsLength | recipes/Wildfire_Values_Mapping/main.py:56-81 | the sector table has four rows per value point |
| Sectors.SectorTable.InsertRow | recipes/Wildfire_Values_Mapping/main.py:81 | the insert cursor appends the row after the existing rows |
| Sectors.InsertSectors | recipes/Wildfire_Values_Mapping/main.py:61-81 | for one value point the table gains its four sector rows (east, north, west, south), after the rows already there |
| Sectors.ProcessPoints | recipes/Wildfire_Values_Mapping/main.py:49-83 | after `process_points` the table holds its former rows followed by every point's four sectors, in point order then direction order |
| RiskMatrix.UniqueValues | recipes/Wildfire_Values_Mapping/main.py:146-156 | a value is in the result exactly when it occurs in either feature class |
| RiskMatrix.RiskOf | recipes/Wildfire_Values_Mapping/main.py:158-174 | the risk is Low exactly when neither table holds a hit for the value and direction, and anything below High means no pizza-slice hit |
| RiskMatrix.RiskIsHighestHit | recipes/Wildfire_Values_Mapping/main.py:158-174 | a direction is High exactly when a pizza-slice row of that value and direction meets the fire, Medium exactly when only a rainbow row does, Low otherwise |
| RiskMatrix.AnyHitOrderFree | recipes/Wildfire_Values_Mapping/main.py:163-172 | whether a table holds a hit does not depend on the order of its rows |
| RiskMatrix.RiskOfOrderFree | recipes/Wildfire_Values_Mapping/main.py:158-174 | the direction risk does not depend on the row order of either intersect table |
| RiskMatrix.DirectionRisk | recipes/Wildfire_Values_Mapping/main.py:158-174 | as written: with an empty rainbow table the `del` of the loop variable fails; otherwise the result is the highest-hit risk |
| RiskMatrix.DirectionRiskIntended | recipes/Wildfire_Values_Mapping/main.py:158-174 | corrected: High iff a slice hit, Medium iff only a rainbow hit, Low iff neither, whatever the tables hold |
| RiskMatrix.DirectionRisks | recipes/Wildfire_Values_Mapping/main.py:221-223 | as written: the risks for north, east, south and west in that order, or the failure of the first direction when the rainbow table is empty |
| RiskMatrix.DirectionRisksIntended | recipes/Wildfire_Values_Mapping/main.py:221-223 | corrected: the four risks for north, east, south and west in that order |
| RiskMatrix.Texts | recipes/Wildfire_Values_Mapping/main.py:230-233 | the written risk fields are the risks' texts in order, and none of them is null or "NULL", so the null pass leaves them as written |
| RiskMatrix.NullFilled | recipes/Wildfire_Values_Mapping/main.py:238-241 | the null pass turns each null or "NULL" risk field into "Low Risk", keeps every other field, and keeps the label and other attributes |
| RiskMatrix.NullFilledIdempotent | recipes/Wildfire_Values_Mapping/main.py:236-243 | after the null pass no risk field is null or "NULL", and a second pass changes nothing |
| RiskMatrix.RiskTable.constructor | recipes/Wildfire_Values_Mapping/main.py:218 | the dated copy of the values layer starts with the given rows, each with four risk fields |
| RiskMatrix.RiskTable.UpdateRisks | recipes/Wildfire_Values_Mapping/main.py:227-234 | every row labelled with the value gets the four risk texts; every other row and every other attribute is unchanged |
| RiskMatrix.RiskTable.ReplaceNulls | recipes/Wildfire_Values_Mapping/main.py:236-243 | every row becomes its null-filled self |
| RiskMatrix.IntersectedValuesEmpty | recipes/Wildfire_Values_Mapping/main.py:215 | the set of intersected values is empty exactly when both intersect tables are empty |
| RiskMatrix.BuildRiskMatrix | recipes/Wildfire_Values_Mapping/main.py:212-243 | as written: the table ends as `RiskMatrixAsWritten` says, whatever order the set is visited in. That is unchanged when nothing was intersected, a failure when the rainbow table is empty, and otherwise each row with its value's risks and nulls filled |
| RiskMatrix.BuildRiskMatrixIntended | recipes/Wildfire_Values_Mapping/main.py:212-243 | corrected: the table ends as `RiskMatrixIntended`: each intersected row with its value's four risks, and every null risk field read as "Low Risk" |
| RiskMatrix.RiskMatrixIntendedFillsAll | recipes/Wildfire_Values_Mapping/main.py:220-243 | after the corrected cell no row has a null risk field; intersected rows carry their value's risks; labels and other attributes are kept |
| RiskMatrix.RiskMatrixAgreesWhenIntersected | recipes/Wildfire_Values_Mapping/main.py:220-243 | whenever the rainbow table has rows, the cell as written and the corrected cell produce the same table |
| RiskMatrix.RiskMatrixAsWrittenKeepsNulls | recipes/Wildfire_Values_Mapping/main.py:236-243 | as written, with no fire intersecting any sector, a value's null risk fields stay null, where the corrected cell reads "Low Risk" |
| RiskMatrix.RiskMatrixAsWrittenFailsWithoutRainbow | recipes/Wildfire_Values_Mapping/main.py:163-167 | as written, a value whose north slice meets the fire while no rainbow does makes the cell fail, where the corrected cell reads "High Risk" for north |
| RiskMatrix.ProcessedAsWrittenStep | recipes/Wildfire_Values_Mapping/main.py:220-243 | one pass of the loop (update, then null pass) carries the table from the values done so far to those values plus the new one |
| Exports.EraseByLabel | recipes/Wildfire_Values_Mapping/main.py:111-131 | one erase step per distinct label of the values, each label once; step k selects with `Value = '<label>'` and writes `erase_k`, so all intermediate outputs differ |
| Exports.EraseOutput | recipes/Wildfire_Values_Mapping/main.py:128 | an intermediate name is `erase_` followed by a non-empty run of decimal digits |
| Exports.EraseOutputInjective | recipes/Wildfire_Values_Mapping/main.py:128 | distinct counters give distinct intermediate output names |
| Exports.LayerFor | recipes/Wildfire_Values_Mapping/main.py:298-313 | a layer's name starts with its field and `_`; its where clause is `<field> = '<risk>'`; its `.kmz` path is the layer name inside the output directory |
| Exports.KmlLayersAt | recipes/Wildfire_Values_Mapping/main.py:294-302 | three layers per field; layer 3i+j is field i with risk j of High, Medium, Low |
| Exports.FieldKmls | recipes/Wildfire_Values_Mapping/main.py:296-315 | the inner loop names the field's three layers, High, Medium, Low, each with its where clause and `.kmz` path |
| Exports.CreateKmls | recipes/Wildfire_Values_Mapping/main.py:291-315 | the loop names 3 layers per field, in field-then-risk order, each with its where clause and `.kmz` path in the output directory |
| Exports.RemoveWord | recipes/Wildfire_Values_Mapping/main.py:301 | removing the spaces of "<word> Risk" gives "<word>Risk" when the word has no space |
| Exports.KmlRiskInfix | recipes/Wildfire_Values_Mapping/main.py:294-302 | the risk levels "High Risk", "Medium Risk" and "Low Risk" appear in layer names as "HighRisk", "MediumRisk" and "LowRisk" |
| Exports.LayerNamesDifferByField | recipes/Wildfire_Values_Mapping/main.py:302 | two different fields never give the same layer name for the same risk and date |
| Strings.IntToString | recipes/Wildfire_Values_Mapping/main.py:81 | `str(i)` is never empty and starts with '-' exactly for negative integers |
| Strings.RemoveChar | recipes/Wildfire_Values_Mapping/main.py:301 | `replace(c, "")` never lengthens the text and leaves no `c` |
| Strings.DecimalRoundTrip | recipes/Wildfire_Values_Mapping/main.py:81 | reading back the decimal text of a natural number gives that number |
| Strings.NatToStringInjective | recipes/Wildfire_Values_Mapping/main.py:128 | different counters have different decimal texts |
| Strings.Lower | recipes/Wildfire_Values_Mapping/main.py:165 | `lower()` keeps the length, maps each ASCII capital to its small letter and keeps every other character, so text such as "north" is unchanged |
| Strings.RemoveCharCounts | recipes/Wildfire_Values_Mapping/main.py:301 | `replace(" ", "")` removes every space and keeps every other character with its count |
| GeoJson.ExtractCoordinates | recipes/burn_severity_usgs/main.py:128-136 | coordinates come back exactly for the six supported geometry types; a Point gives its one position |
| GeoJson.ExtractCoordinatesFlattens | recipes/burn_severity_usgs/main.py:128-136 | coordinates come back for every supported geometry type and for no other; their number is the geometry's count of positions; a position is among them exactly when it occurs in the geometry |
| GeoJson.ExtractCoordinatesOrder | recipes/burn_severity_usgs/main.py:133-134 | flattening keeps the order: position j of part i sits after all positions of the parts before it |
| GeoJson.ExtractCoordinatesMultiPolygonOrder | recipes/burn_severity_usgs/main.py:135-136 | flattening a multipolygon keeps the order on both levels: position k of ring j of polygon i sits after all positions of the polygons before i and of the rings before j |
| GeoJson.ConcatAt | recipes/burn_severity_usgs/main.py:134-136 | element j of part i of a flattened list sits at the total length of the parts before it, plus j |
| GeoJson.ConcatMembership | recipes/burn_severity_usgs/main.py:134-136 | a flattened list holds exactly the elements of its parts |
| GeoJson.AllCoordinatesMembership | recipes/burn_severity_usgs/main.py:138-140 | the gathered list holds exactly the positions that occur in some feature |
| GeoJson.CollectCoordinates | recipes/burn_severity_usgs/main.py:138-140 | the `extend` loop fails exactly when some feature's geometry is unsupported, and otherwise gathers every feature's positions in order |
| GeoJson.Min | recipes/burn_severity_usgs/main.py:145-146 | `min` returns one of the values, not greater than any |
| GeoJson.Max | recipes/burn_severity_usgs/main.py:147-148 | `max` returns one of the values, not less than any |
| GeoJson.BoundingBox | recipes/burn_severity_usgs/main.py:143-148 | no box for an empty list (the transpose fails); otherwise every position is inside the box and each bound is attained by some position |
| GeoJson.BoundingBoxOrdered | recipes/burn_severity_usgs/main.py:145-148 | the bottom-left corner is below and left of the top-right corner |
| M2m.ClassifyResponse | recipes/burn_severity_usgs/main.py:207-237 | a response yields its data exactly when the body parses, its error code is null and the status is not 404, 401 or 400; an error code fails before any status check; a failure exits when asked to and otherwise returns False |
| M2m.ErrorCodeWinsOverStatus | recipes/burn_severity_usgs/main.py:214-217 | a body with an error code fails whatever the HTTP status |
| M2m.RequestHeaders | recipes/burn_severity_usgs/main.py:201-205 | an X-Auth-Token header carrying the key is sent exactly when a key was received; with no key attribute at all the call cannot be made |
| M2m.SendRequest | recipes/burn_severity_usgs/main.py:181-237 | with no key attribute the request fails; otherwise the outcome is the classification of the response to the posted request |
| M2m.MbrFilter | recipes/burn_severity_usgs/main.py:165-169 | the spatial filter is an "mbr" filter whose corners are the box's bottom-left and top-right |
| M2m.MbrFilterCovers | recipes/burn_severity_usgs/main.py:143-169 | the filter built from the box of the perimeter's first ring covers every position of that ring |
| M2m.SceneSearchPayload | recipes/burn_severity_usgs/main.py:245-254 | a scene search over the Landsat dataset with metadata filter `61af9273566bb9a8` = "9", the given spatial filter and window, and cloud cover 0 to 100 |
| M2m.IdxMin | recipes/burn_severity_usgs/main.py:281 | `idxmin` returns the first index holding the least value |
| M2m.LowestCloudScene | recipes/burn_severity_usgs/main.py:281-287 | the chosen scene has cloud cover no greater than any scene's, and every earlier scene has more |
| M2m.DownloadEntries | recipes/burn_severity_usgs/main.py:304-308 | the product filter never yields more entries than there are options |
| M2m.DownloadEntriesSound | recipes/burn_severity_usgs/main.py:304-308 | an entry is requested exactly when some option with its entity and product id is available and not a folder download; never more entries than options |
| M2m.AvailableProducts | recipes/burn_severity_usgs/main.py:304-308 | the filtering loop produces exactly those entries, in option order |
| M2m.WrittenFiles | recipes/burn_severity_usgs/main.py:325-340 | never more files than downloads, and every file name ends in `.tar` |
| M2m.WrittenFilesSound | recipes/burn_severity_usgs/main.py:325-340 | a file "<downloadId>.tar" is written exactly when its download answered 200; never more files than downloads |
| M2m.DownloadFiles | recipes/burn_severity_usgs/main.py:325-340 | the download loop writes exactly those files, in order |
| BurnSeverity.LookupOf | recipes/burn_severity_usgs/main.py:65-69 | a record count is read as exactly one, none, or more than one |
| BurnSeverity.Numbered | recipes/burn_severity_usgs/main.py:61-63 | the query returns every record with the fire number as often as the layer holds it and no other record, so the count the lookup reads is the number of matching records |
| BurnSeverity.PerimeterBounds | recipes/burn_severity_usgs/main.py:117-148 | bounds exist exactly when the perimeter has a first ring whose reprojection has only supported geometries and at least one position; they contain every position of that first ring; later rings are never looked at |
| BurnSeverity.PerimeterBoundsCover | recipes/burn_severity_usgs/main.py:117-148 | when the perimeter yields bounds, every reprojected position of its first ring is inside them |
| BurnSeverity.FireSeverityAnalysis.constructor | recipes/burn_severity_usgs/main.py:46-50 | the analysis keeps the fire number and has scraped nothing yet |
| BurnSeverity.FireSeverityAnalysis.ScrapeLocation | recipes/burn_severity_usgs/main.py:59-86 | the location is taken only when exactly one record has the fire number, and is otherwise unchanged |
| BurnSeverity.FireSeverityAnalysis.ScrapePerimeter | recipes/burn_severity_usgs/main.py:89-148 | only with exactly one record are the perimeter kept and the bounds set, to that perimeter's bounding box; a perimeter without usable coordinates fails and leaves the bounds as they were |
| BurnSeverity.KeyAfterLogin | recipes/burn_severity_usgs/main.py:172-179 | a key attribute exists exactly when the login answered 200, and it is then the response's `data` (null when `data` is null) |
| BurnSeverity.SearchPayload | recipes/burn_severity_usgs/main.py:245-254 | a scene search body exists exactly when the spatial filter and the fire's window date were set; a missing filter fails first; the body carries that filter and the window computed from that date |
| BurnSeverity.UsgsQueries.constructor | recipes/burn_severity_usgs/main.py:151-179 | with fire bounds the spatial filter is their `mbr` filter and the key is what the login left; a fire without bounds raises before the login, leaving neither filter nor key |
| BurnSeverity.UsgsQueries.PreFireSearch | recipes/burn_severity_usgs/main.py:239-258 | fails without the filter or the ignition-date window; otherwise the pre-fire results are the scenes the search returned, and are unchanged when the request fails |
| BurnSeverity.UsgsQueries.PostFireSearch | recipes/burn_severity_usgs/main.py:260-287 | fails without the filter or the load-date window; otherwise the post-fire results are the scenes returned, the chosen scene is the first with the least cloud cover, and no scenes or a failed request choose nothing |
| BurnSeverity.UsgsQueries.DownloadPostFireImage | recipes/burn_severity_usgs/main.py:290-340 | without a chosen scene it fails; a failed or unexpected answer to either request is reported; when both answer as expected it succeeds, having requested the chosen scene's available non-folder products and written the downloads that answered 200 |

## Left out

- The arcpy geoprocessing calls are not modelled: `Erase`, `Intersect`,
  `Merge`, `Delete`, `SelectLayerByAttribute`, `MakeFeatureLayer`,
  `LayerToKML`, `CopyFeatures`, `CreateFeatureclass` and `AddField`.
  `erase_by_label` is modelled through the queries and intermediate names it
  produces. `create_kmls` is modelled through the layer names, where clauses
  and `.kmz` paths. The intersect tables are inputs.
- `point_from_bearing_and_distance` is the parameter `pointAt`, because
  real-valued trigonometry is outside the model.
- Not modelled: `create_output_fc`, `create_feature_class_copy`,
  `copy_feature_class_with_date_suffix` (naming of the dated copy),
  `feature_class_to_excel` and `feature_class_to_shapefile`. They are file
  and layer management only.
- The clock (`datetime.now()`) is a string parameter. The `relativedelta`
  arithmetic of the search windows is a function parameter, from the fire's
  ignition or load date to the window's start and end.
- The script cells of both files are not modelled. They run the steps above
  with fixed paths, and this model covers the steps themselves. The global
  `usgs_connection` is modelled as the object itself.
- The GIS sign-in, the login credentials and the layer item ids are not
  modelled. A login body that cannot be read is not modelled either.
- Reprojection to EPSG:4326 and the GeoJSON file round trip are not modelled:
  they are the parameter `toWgs84`.
- The shapely helpers `calc_overlap_percentage` and
  `is_search_area_within_raster` are not modelled. They are floating-point
  geometry.
- `requests.post` and `requests.get` are parameters. Streaming file contents
  in chunks, `response.close()` and the output folder creation are not
  modelled.
- M2m.ClassifyResponse: does not model a parsed body without a `data` key.
  `return output['data']` is outside the `try`, so such a body raises an
  uncaught KeyError. Every modelled body carries `data`.
- BurnSeverity.UsgsQueries.constructor: a fire without bounds makes `__init__`
  raise AttributeError, so no object exists. The model instead builds a
  session with no filter and no key, whose searches fail with
  `NoSpatialFilter`.
- Exports.CreateKmls: takes one date for every layer. The source reads the
  clock once per layer, so layers made across midnight can carry different
  dates.
- M2m.ClassifyResponse: does not model the `response == None` test. It comes
  after `response.status_code` has been read, so it never decides anything.
- M2m.IdxMin: does not model NaN cloud covers. Cloud covers are reals.
- GeoJson.ExtractCoordinatesFlattens: does not model positions with a third
  (altitude) member. Positions are longitude/latitude pairs.
- Strings.Lower: lowers only ASCII letters. Python's `lower()` also handles
  other scripts.
- Exports.LayerNamesDifferByField: does not prove that two different risk
  levels give different layer names. It proves only that different fields do.
- BurnSeverity.PerimeterBounds: boxes only the first ring (`rings[0]`), as
  the source does. Later rings of a multi-part perimeter can fall outside the
  `mbr` search filter, and the model proves nothing about them.
- Printing is not modelled.
- `sys.exit()` is the outcome `Exited`, and is not a process exit.

## Findings

| source | as written | input that shows it | evidently intended | confidence | as-written member | corrected member |
|---|---|---|---|---|---|---|
| recipes/Wildfire_Values_Mapping/main.py:236-243 | the null-replacement pass sits inside `for value in unique_ids`, so it runs only when some value was intersected | no fire meets any sector: both intersect tables are empty, and every value keeps null North/East/South/West_Risk fields | every null risk field reads "Low Risk" after the cell | not executed | RiskMatrix.RiskMatrixAsWrittenKeepsNulls | RiskMatrix.RiskMatrixIntendedFillsAll |
| recipes/Wildfire_Values_Mapping/main.py:163-167 | `del Medium_Risk_Cursor, row` deletes the loop variable, which is unbound when the rainbow intersect table has no rows | a fire meets the north slice of "Camp" and no rainbow: `Pizza_Slice_Intersects` has the row ("Camp", "north") and `Rainbow_Intersects` is empty | the north risk of "Camp" is "High Risk" | not executed | RiskMatrix.RiskMatrixAsWrittenFailsWithoutRainbow | RiskMatrix.DirectionRiskIntended |
