# uk-crime-map core in Dafny

Two scripts draw police data on a map. `streetcrime.py` draws street-level
crimes. `stopandsearch.py` draws stop-and-search records and a figure of pie
charts. This project models the parts of those scripts that compute
something, and proves what they promise:

- **Marker placement.** `adjust_marker_location` and its run-wide
  `added_locations` set appear in both scripts. A requested coordinate that is
  already taken is nudged east by 0.00005 degrees until it is free; the free
  coordinate is then recorded and returned. Here this is a class `Placer`
  whose field `added` is the set. Its method `AdjustMarkerLocation` is proved
  against a reference function `Resolve`, "the least free eastward probe".
  Lemmas about whole runs show:
  - the loop always stops after at most `|added|` steps;
  - placed points are pairwise distinct and never previously taken;
  - each placed point keeps its latitude;
  - n requests at one coordinate in a fresh run fan out at longitudes
    `lng + i*0.00005`. A probe that an earlier marker already holds is skipped.
- **Chart data (stop and search).** The nine `chart_data` lists get one value
  per stop each. A missing field becomes "Unknown"; a field present with
  `null` stays `null`. Per row, `Counter` and `zip(*counts.items())` give the
  distinct labels in first-seen order and their counts. `max_slices` is the
  largest label count. The figure height is `300*9 + max_slices*100`. The
  unpacking of an empty `Counter` raises `ValueError`, so with no stops the
  chart phase fails; the model returns that error.
- **Field defaulting (street crime).**
  - The outcome is the `outcome_status` category when that status is truthy,
    and "No outcome available" otherwise.
  - `location_type`, street `id`/`name` and `month` default to "Unknown".
  - The category has its hyphens replaced by spaces.
  - The exceptions the per-record code raises are modelled in the order the
    fields are read: `KeyError` for a missing `location`, `outcome_status`,
    `street` or `category`; `TypeError` for a truthy `outcome_status` that is
    a string, number or boolean; `AttributeError` for a `location` or
    `street` that is `null` or another scalar, and for a category or location
    type that is not a string. Each of `location`, `street` and
    `outcome_status` can be absent, a scalar (`null` included), or an object.

Modules: `Json` holds decoded JSON values, `dict.get` and the exceptions.
`MarkerPlacement` holds the resolver. `Counting` models `Counter` and
`zip(*counts.items())`. `StopAndSearch` holds the chart bookkeeping.
`StreetCrime` holds the per-crime fields.

Three behaviours of the code that are easy to misread:

- **null fields.** `stop.get(key, 'Unknown')` and `location.get(...)` return
  `None` for a key that is present with a JSON `null`. So `null` is charted as
  its own label, and it is not turned into "Unknown".
- **No stops.** An empty data set does not give an empty figure: the first
  `zip(*counts.items())` raises `ValueError`.
- **Falsy status.** `null`, `{}`, `""`, `0` and `false` all count as
  "no outcome". A truthy object without `category` raises `KeyError`; a
  truthy string, number or boolean raises `TypeError`.

## Model

| member | source | states |
|---|---|---|
| MarkerPlacement.Placer.AdjustMarkerLocation | stopandsearch.py:52-57 | returns the least free eastward probe of the request (same latitude, longitude plus k*0.00005, every earlier probe taken), which was not taken before; the set grows by exactly that point |
| MarkerPlacement.Placer.constructor | stopandsearch.py:49 | a run starts with no coordinate taken |
| MarkerPlacement.ProbedBound | streetcrime.py:51-52 | if the first k probes are all taken, at least k coordinates are taken, so the nudging loop ends |
| MarkerPlacement.ProbeFrom | streetcrime.py:51-52 | continuing the probe sequence from step k (all earlier probes taken) stops at a free probe whose step count, measured from the request, is at least k and at most `|added|`; every probe before it is taken |
| MarkerPlacement.FirstFree | streetcrime.py:49-54 | the number of nudges taken is at most the number of points already placed; that probe is free and every earlier probe is taken |
| MarkerPlacement.FirstFreeUnique | streetcrime.py:51-52 | any step count whose probe is free and whose earlier probes are all taken is the one the loop stops at |
| MarkerPlacement.ProbeInjective | streetcrime.py:52 | probes at different step counts are different coordinates |
| MarkerPlacement.ResolveSpec | streetcrime.py:49-54 | the returned point is free, keeps the latitude, is k eastward steps away with all earlier probes taken, and is the request itself when that was free |
| MarkerPlacement.PlaceRunFresh | streetcrime.py:57-76 | over a whole run: one point per request, none of them previously taken, pairwise distinct, latitudes kept, and the set holds exactly the old points plus the placed ones |
| MarkerPlacement.FanFrom | streetcrime.py:49-54 | when exactly the first m probes of p are taken, n more requests at p land on the next n probes |
| MarkerPlacement.FanAt | streetcrime.py:52 | the i-th point of a fan is i steps east of its first |
| MarkerPlacement.SameCoordinateFan | streetcrime.py:49-54 | n requests at one coordinate in a fresh run are placed at longitudes lng, lng+0.00005, lng+2*0.00005, ... all at the same latitude |
| MarkerPlacement.ThreeCrimesAtOnePoint | streetcrime.py:49-54 | three records at (51.0, 0.0) are drawn at longitudes 0.0, 0.00005 and 0.0001 |
| MarkerPlacement.Placer.PlaceAll | streetcrime.py:75-76 | the record loop's successive calls place exactly the run described by the reference function, and leave the taken set it describes |
| Counting.DedupSpec | stopandsearch.py:125-126 | the labels of a tally are distinct, are exactly the values charted, and are no more numerous than the values |
| Counting.DedupSnoc | stopandsearch.py:125 | one more value adds a new label at the end exactly when it was not yet a label |
| Counting.DedupFirstSeenOrder | stopandsearch.py:125-126 | labels appear in the order of their first occurrence among the values |
| Counting.FirstIndex | stopandsearch.py:125 | the position of the first occurrence of a value, or the length when the value is absent |
| Counting.FirstIndexPrefix | stopandsearch.py:125 | appending values does not move the first occurrence of a value already present |
| Counting.DedupCountsDistinctValues | stopandsearch.py:128 | `len(labels)` is the number of distinct values in the row |
| Counting.DistinctCard | stopandsearch.py:128 | a sequence without repeats is as long as its set of elements is large |
| Counting.CountsOfSpec | stopandsearch.py:126 | the counts line up with the labels, each being the number of occurrences of its label |
| Counting.SumCountsAppend | stopandsearch.py:125 | one more value raises the total count over distinct labels by one exactly when it is among them |
| Counting.SumCountsSnoc | stopandsearch.py:126 | appending a label adds its occurrence count to the total |
| Counting.TallySumsToLength | stopandsearch.py:125-126 | the counts of a row add up to the number of values in it |
| Counting.CounterOfSpec | stopandsearch.py:125 | the keys of `Counter(values)` are exactly the values, each mapped to its number of occurrences |
| Counting.CounterKeys | stopandsearch.py:125-126 | a value is a key of the counter exactly when it is one of the first-seen labels |
| Counting.Count | stopandsearch.py:125 | builds the counter one increment at a time; its keys in insertion order are the first-seen labels and each maps to its occurrence count |
| Counting.CountsInOrder | stopandsearch.py:126 | the second half of the unzip: the count of each key, in key order |
| Counting.Tally | stopandsearch.py:125-126 | labels are the first-seen distinct values, counts their occurrences, every count is at least 1, and they add up to the number of values |
| StopAndSearch.TrackedFieldsDistinct | stopandsearch.py:60-70 | the nine chart keys are distinct |
| StopAndSearch.Column | stopandsearch.py:77-78 | a key's list holds one entry per stop, the stop's own value when the key is present (null included) and "Unknown" when it is missing |
| StopAndSearch.AppendStop | stopandsearch.py:77-78 | one stop appends its value (or "Unknown") to every key's list and leaves the keys unchanged |
| StopAndSearch.CollectChartData | stopandsearch.py:60-78 | after the record loop the lists are exactly the columns of the stops, under exactly the nine keys |
| StopAndSearch.PieOfSums | stopandsearch.py:125-133 | a pie has one count per label and its counts add up to the number of values |
| StopAndSearch.PieFor | stopandsearch.py:125-134 | tallying a row succeeds exactly when it is non-empty, with at least one label; an empty row raises ValueError |
| StopAndSearch.MaxSlicesIsMaximum | stopandsearch.py:123-128 | the running `max(max_slices, len(labels))` bounds every pie's label count and, when there are pies, equals one of them |
| StopAndSearch.BuildFigure | stopandsearch.py:122-143 | the chart loop fails with ValueError exactly when some row is empty; otherwise it yields one pie per row in row order, max_slices is the running maximum and the height is 300*9 + 100*max_slices |
| StopAndSearch.FigureOfColumns | stopandsearch.py:72-143 | a figure built from the collected lists has, for each key, the tally of the stops' column, counting every stop once, with at most max_slices labels; one pie attains max_slices |
| StopAndSearch.ChartsFor | stopandsearch.py:72-143 | the chart side over distinct keys fails exactly when a row is charted over no stops; otherwise each pie is the tally of its column, its counts sum to the number of stops, and max_slices is attained by one of them |
| StopAndSearch.StopCharts | stopandsearch.py:60-143 | the figure fails with ValueError exactly when there are no stops; otherwise it has nine pies in chart_data order, each counting every stop once, and its height is 2700 + 100 times the largest label count |
| StreetCrime.ReplaceHyphens | streetcrime.py:67 | same length, every '-' becomes ' ' and every other character is kept, so no hyphen remains |
| StreetCrime.ReplaceHyphensKeepsPlain | streetcrime.py:67 | a category without hyphens is shown unchanged |
| StreetCrime.Summarize | streetcrime.py:57-68 | a record is shown exactly when its location and street are objects, its outcome_status is present and (when truthy) an object with a category, and category and location type are strings. Errors follow the read order: KeyError for a missing location, outcome_status, street or category; TypeError for a truthy scalar status; AttributeError for a scalar location or street. Outcome: the status category, or "No outcome available". Missing fields become "Unknown"; the category loses its hyphens |

## Left out

- generate_polygon: trigonometry on floating point; it only fixes the query area.
- The polygon string, the API URL, the HTTP requests and `response.json()`: network I/O. The records are inputs.
- The "last updated" request and its status-code branch: network I/O and printing.
- Map and figure rendering (folium, plotly) and the HTML files written: output only.
- `.title()` on the category and location type, and the subplot titles: Unicode case mapping is not modelled. The model tracks that the value must be a string, since `.title()` raises otherwise.
- The popup HTML template: string formatting for display. Its fields are modelled through `StreetCrime.Summarize`.
- In `stopandsearch.py`, `stop['location']` and `location['street']` (lines 73-74) and the popup fields: records are given with their coordinate and chart fields already decoded. A record without a location is not modelled for stop and search.
- `float(location['latitude'])` and `float(location['longitude'])`: parsing the coordinate strings is not modelled; the coordinate is an input.
- MarkerPlacement.Placer.AdjustMarkerLocation: coordinates are exact reals. Python's repeated `lng += 0.00005` rounds at every step, and the model does not capture that rounding. For a longitude so large that adding the step changes nothing, the Python loop would never end.
- Json.Value: JSON numbers are integers only. A list or object where the scripts read a scalar field, such as `category` or `location_type`, is not represented. Only the nesting the scripts read is modelled: `location`, `street` and `outcome_status`.
- Json.Value and Counting.Dedup: labels are compared with structural equality.
  - In Python, `True == 1` and `False == 0`, with equal hashes. So `Counter` merges a boolean and the equal integer into one key, the first one seen, and counts them together.
  - The model keeps `Flag(true)` and `Number(1)` apart.
  - For a charted column that mixes booleans with the numbers 0 or 1, the model's `len(labels)` can be larger than the script's. So can `max_slices` and the figure height.
- The interleaving of the stop-and-search record loop: chart appends and marker placement are independent. They are modelled as separate methods (`CollectChartData`, `Placer.PlaceAll`) over the same records.
- The street-crime record loop stops at the first record whose `Summarize` fails. The per-record outcome is modelled; the loop that aborts is not modelled separately.
