# Layered-Earth core, modelled in Dafny

Layered-Earth is a desktop geospatial viewer. This project models the parts of
it that keep state and follow rules, and proves properties about them:

- **Map surface** (`map_engine.dfy`, module `MapSurface`). This is the
  insertion-ordered table of rendered layers. A name that is already taken is
  silently refused. An empty or missing style falls back to the default. After
  every add, the view bounds are recomputed as the componentwise min/max of
  the vector layers' extents. The click query ("pick") groups, per layer, the
  rows whose geometry contains the clicked point.
- **Layer store** (`layer_manager.dfy`, module `LayerStore`). This loads files
  into the available-layers table:
  - the default name is the file's stem;
  - the suffix is matched case-insensitively;
  - for CSV files, the coordinate columns are the first column containing
    "lat" and the first containing "lon";
  - a load overwrites an existing entry.

  It also provides get, remove and set-symbology.
- **Query responder** (`ai_agent.dfy`, module `QueryResponder`). The query is
  lower-cased and checked against an ordered table of whole-word patterns
  (`\b(w1|w2|w3)\b`). The reply lists every matching intent in table order, or
  gives a fixed help text.
- **Feed registry** (`real_time.dfy`, module `FeedRegistry`). This covers:
  - registering the earthquake and weather feeds;
  - the synthetic sample frames;
  - the due rule based on `timedelta.seconds`;
  - one pass of the polling loop;
  - the data update that stamps a feed and invokes the callbacks in
    registration order.
- **Application controller** (`main_app.dfy`, module `AppController`). This
  covers:
  - the dashboard toggle (map position, button label, a dashboard created on
    first show and refreshed on every show);
  - registering each layer in both the map surface and the layer store;
  - applying real-time updates to the layer store.

`geo.dfy` (module `Geo`) holds extents and their union, attribute rows,
frames and styles. `text.dfy` (module `Text`) holds ASCII lower-casing,
substring search and decimal formatting.

Inputs the model does not compute are passed in as parameters or values:
- a frame's total bounds;
- each geometry's containment test;
- what the file readers return (`Disk`);
- the network fetch (`Fetch`);
- the clock (`now`, in microseconds);
- the random draws (`draws`, the n-th value of `random.random()` in a call).

In the map surface and the feed registry, where the order of a dict's keys
decides what happens (which layer the pick lists first, which feed a pass
visits first), a Python dict is a Dafny `map` plus a `seq` of its keys in
insertion order, and `Valid()` ties the two together. The layer store's two
dicts and the controller's copy of them are plain `map`s.

The map surface and the layer store treat a duplicate name differently. The
map surface silently ignores it. The layer store overwrites it, both in
`load_file` and when the controller writes an entry directly. The model
follows the code on both counts. There is no duplicate-name error and no
not-found error. `get_layer` returns `None`, and an unsupported suffix loads
nothing and raises nothing. A refresh re-fetches only earthquake feeds. A
weather feed re-sends the frame it already has.

## Model

| member | source | states |
|---|---|---|
| Geo.UnionEncloses | core/map_engine.py.py:48-53 | The column-wise min/max of the stacked bounds encloses every extent it was computed from. |
| Geo.UnionIsLeast | core/map_engine.py.py:48-53 | Any box that encloses every extent also encloses their union, so the bounds are the smallest enclosing box. |
| Geo.UnionAttained | core/map_engine.py.py:50-53 | Each side of the bounds equals the corresponding side of one of the layers' extents. |
| MapSurface.MapEngine.constructor | core/map_engine.py.py:8-12 | The surface starts with no layers and no bounds. |
| MapSurface.MapEngine.AddVectorLayer | core/map_engine.py.py:24-38 | A taken name leaves the layers, their order and the bounds unchanged. Otherwise the layer is stored as a vector layer with the given style, or the blue/0.5 default when the style is missing or empty, and is appended to the order. The bounds become the union of all vector extents and enclose every vector layer. |
| MapSurface.MapEngine.UpdateBounds | core/map_engine.py.py:40-56 | The bounds become the union of the vector layers' extents in table order. With no vector layer they keep their previous value. |
| MapSurface.VectorExtentsMembers | core/map_engine.py.py:43-46 | The collected extents are exactly those of the vector layers in the table. |
| MapSurface.BoundsEncloseEveryLayer | core/map_engine.py.py:43-56 | The recomputed bounds enclose the extent of every vector layer. |
| MapSurface.HitsSpec | core/map_engine.py.py:69-74 | The rows kept for a layer all contain the point, and every row whose containment test holds there is kept. They are non-empty exactly when some row has a containment test that holds there. |
| MapSurface.HitsInRowOrder | core/map_engine.py.py:69-74 | The kept rows are the containing rows in row order, once per position: the k-th kept row sits at the k-th of the strictly increasing positions, and a position is among them exactly when its row contains the point. |
| MapSurface.MapEngine.ShowPopup | core/map_engine.py.py:62-76 | The popup built by the nested loops is the pick of the point over the table, and the table is unchanged. The tolerance has no effect. |
| MapSurface.PickSpec | core/map_engine.py.py:62-76 | A layer has a popup entry iff it is a vector layer with a row containing the point. Every entry lists that layer's containing rows, in row order, and is never empty. Entries follow layer insertion order. |
| MapSurface.PickEntries | core/map_engine.py.py:66-74 | Every popup entry names a layer of the table and holds exactly that layer's hits, never an empty list. |
| MapSurface.PickKeys | core/map_engine.py.py:66-74 | A layer of the table has an entry exactly when it is a vector layer with a row containing the point. |
| MapSurface.PickOrdered | core/map_engine.py.py:66-74 | Entries appear in the order of the layer table. |
| MapSurface.MapEngine.LayerNames | core/map_engine.py.py:78-80 | The names are distinct and are exactly the keys of the table, in insertion order. |
| Text.HasSubstringIff | core/layer_manager.py.py:30-31 | Python's `in` on strings holds exactly when the key occurs at some position. |
| LayerStore.StemSuffixSplit | core/layer_manager.py.py:12-15 | Stem followed by suffix is the file name. The suffix is empty or a dot with at least one more character and no further dot. A non-empty suffix leaves a non-empty stem. |
| LayerStore.SuffixLower | core/layer_manager.py.py:18-27 | Lower-casing the path and then taking the suffix is the same as lower-casing the suffix. |
| LayerStore.FormatIgnoresCase | core/layer_manager.py.py:18-27 | Suffix dispatch gives the same branch for a path and its lower-cased form. |
| LayerStore.UpperCaseCsvExample | core/layer_manager.py.py:12-27 | "data/Cities.CSV" takes the CSV branch and is named "Cities". |
| LayerStore.DoubleSuffixExample | core/layer_manager.py.py:12-18 | "archive.tar.gz" is unsupported, and its stem is "archive.tar" (only the last suffix counts). |
| LayerStore.HiddenFileExample | core/layer_manager.py.py:12-18 | "maps/.shp" has no suffix, so it is unsupported and named ".shp". |
| LayerStore.FirstColumnContaining | core/layer_manager.py.py:30-31 | The chosen column is the first, in column order, whose lower-cased name contains the key. `None` means no column contains it. |
| LayerStore.ColumnExamples | core/layer_manager.py.py:30-31 | "Lat" and "LON" are picked case-insensitively. Of "lat1" and "lat2" the first wins. Columns "x" and "y" give no latitude column. |
| LayerStore.CsvLoadsIffCoordinates | core/layer_manager.py.py:27-46 | A readable CSV loads only when some column contains "lat" and some column contains "lon"; without them the load fails with the missing-columns error, and with them it loads unless building the points raises. A loaded CSV frame has no coordinate reference, so its entry's crs is `None` and the 'EPSG:4326' fallback is never used. |
| LayerStore.LayerManager.constructor | core/layer_manager.py.py:6-8 | Both tables start empty. |
| LayerStore.LayerManager.LoadFile | core/layer_manager.py.py:10-50 | The outcome is the one the suffix dispatch and column rules determine. A load stores a vector entry with the frame's crs under the given name, or the stem when the name is missing or empty, overwriting any entry. A failure (unreadable file, no coordinate columns, points that cannot be built) or an unsupported suffix leaves the table unchanged. |
| LayerStore.LayerManager.SetSymbology | core/layer_manager.py.py:52-54 | Only the named layer's style changes, to the given one. |
| LayerStore.LayerManager.GetLayer | core/layer_manager.py.py:56-58 | The result is `None` iff the name is absent, and otherwise the stored entry. |
| LayerStore.LayerManager.RemoveLayer | core/layer_manager.py.py:60-63 | Only the named key is removed and the other entries are untouched. An absent name is a no-op. |
| QueryResponder.SearchFromIff | analysis/ai_agent.py.py:18 | Scanning from a position finds the whole word exactly when it occurs there or later between word boundaries. |
| QueryResponder.SearchIff | analysis/ai_agent.py.py:6-9 | The search succeeds exactly when one of the alternatives occurs as a whole word. |
| QueryResponder.IntentMatchesIff | analysis/ai_agent.py.py:18 | The check run for each intent of a table succeeds exactly when its whole-word pattern matches. |
| QueryResponder.MatchedIntentsMembers | analysis/ai_agent.py.py:16-19 | An intent is suggested iff its pattern matches. |
| QueryResponder.MatchedIntentsOrdered | analysis/ai_agent.py.py:16-19 | With distinct intent names, the suggestions come in table order. |
| QueryResponder.SuggestionsFollowTable | analysis/ai_agent.py.py:5-19 | For the intent table, the suggestions are exactly the matching intents, each once, in the order buffer, intersection, cluster, optimal. |
| QueryResponder.HelpIffNoMatch | analysis/ai_agent.py.py:21-24 | With no match the reply is the help text. With a match it is "Based on your query, I suggest: ", the intents joined by ", ", then " analysis.\n". |
| QueryResponder.ResponseIgnoresCase | analysis/ai_agent.py.py:14 | A query and its lower-cased form get the same reply. |
| QueryResponder.ProcessQuery | analysis/ai_agent.py.py:12-26 | The loop over the pattern table computes the reply for the query. The available layers play no part. |
| QueryResponder.IntersectionIsNotIntersect | analysis/ai_agent.py.py:7 | "intersection" does not match the whole-word pattern of intersect, overlap or cross. |
| QueryResponder.PluralIsNotKeyword | analysis/ai_agent.py.py:6 | "buffers" does not match the buffer pattern. |
| QueryResponder.DistanceMeansBuffer | analysis/ai_agent.py.py:6 | "distance" matches the buffer pattern. |
| FeedRegistry.Seconds | data/real_time.py.py:84 | `timedelta.seconds` of any delta lies in 0..86399. |
| FeedRegistry.SecondsWithinADay | data/real_time.py.py:84 | Within one day the seconds are the whole elapsed seconds. A 60-second feed is due from 61 whole seconds on. |
| FeedRegistry.SecondsIgnoreDays | data/real_time.py.py:84 | Adding or removing whole days does not change the seconds. |
| FeedRegistry.DueExamples | data/real_time.py.py:84 | One day plus 30 s is not due for a 60 s feed. Exactly 60 s is not due and 61 s is. A clock that went back by 1 µs makes every feed due. |
| FeedRegistry.UniformBetween | data/real_time.py.py:51-54 | `random.uniform(a, b)` lies in [a, b] for a draw in [0, 1]. |
| FeedRegistry.DigitsInjective | data/real_time.py.py:52 | Different numbers print differently. |
| FeedRegistry.SampleEarthquakesShape | data/real_time.py.py:46-57 | The sample frame has exactly 10 rows in EPSG:4326, with places "Sample Location 0".."Sample Location 9" in row order, all different. |
| FeedRegistry.SampleMagnitudesBetween | data/real_time.py.py:51 | Sample magnitudes lie in [1, 5]. |
| FeedRegistry.SamplePointsInExtent | data/real_time.py.py:54-57 | Each sample row's geometry contains its own point, and the frame's bounds enclose it. |
| FeedRegistry.StationIdExamples | data/real_time.py.py:64 | The first and last station ids are "ST000" and "ST019". |
| FeedRegistry.WeatherStationsShape | data/real_time.py.py:59-70 | The station frame has exactly 20 rows in EPSG:4326. Row i has id "ST" plus i in three digits, so each id is five characters and reads back as i. |
| FeedRegistry.StationIdsDistinct | data/real_time.py.py:62-64 | No two stations share an id. |
| FeedRegistry.StationReadingsBetween | data/real_time.py.py:65-66 | Temperatures lie in [-10, 35] and humidities in [30, 100]. |
| FeedRegistry.TickCallsNoneDue | data/real_time.py.py:83-87 | A pass in which no feed is due invokes no callback. |
| FeedRegistry.TickCallsAllDue | data/real_time.py.py:83-87 | A pass in which every feed is due invokes every callback once per feed: the invocation at slot i·c+k (c callbacks) is callback k for the i-th feed in table order, with that feed's frame after the pass. |
| FeedRegistry.TickCallsRecords | data/real_time.py.py:83-100 | Every invocation in a pass is a registered callback called with a feed of the table and that feed's frame after the pass. |
| FeedRegistry.RealTimeData.constructor | data/real_time.py.py:11-13 | No feeds and no callbacks at first. |
| FeedRegistry.RealTimeData.AddEarthquakeFeed | data/real_time.py.py:15-44 | A successful fetch registers an earthquake feed with interval 60 and the current time, and returns its frame. A new name goes last and an existing one keeps its place. A failed fetch returns the sample frame and registers nothing. |
| FeedRegistry.RealTimeData.CreateSampleEarthquakes | data/real_time.py.py:46-57 | The loop builds the ten-row sample frame with the shape proved above. |
| FeedRegistry.RealTimeData.AddWeatherStations | data/real_time.py.py:59-77 | The loop builds the 20-station frame and registers it as a weather feed with interval 300 and the current time. |
| FeedRegistry.RealTimeData.SimulateDataUpdate | data/real_time.py.py:94-100 | An unknown name is the key error and changes nothing. Otherwise only the feed's last update becomes now. Every callback is invoked once, in registration order, with the name and the feed's frame. |
| FeedRegistry.RealTimeData.RegisterUpdateCallback | data/real_time.py.py:102-104 | The callback is appended. |
| FeedRegistry.RealTimeData.TickFeed | data/real_time.py.py:84-87 | For one feed: if due, an earthquake feed is re-fetched and then updated. The feed ends as the tick rule says, and the callbacks are invoked only when it was due. |
| FeedRegistry.RealTimeData.UpdateTick | data/real_time.py.py:81-89 | One pass visits the feeds in table order. Names, order and callbacks are unchanged. Each feed is unchanged unless due. When due, a refetched earthquake feed is replaced and any other due feed is only stamped. The invocations are those of the due feeds, in order. |
| AppController.ApplyUpdatesKeepsEntries | ui/main_app.py.py:126-130 | Real-time updates never add or remove a layer and never change an entry's type or crs field. An entry's data is its old data or the data of an update for that name. |
| AppController.LastUpdateWins | ui/main_app.py.py:126-130 | After an update for a known name, that entry holds the update's data. |
| AppController.LayeredEarthApp.constructor | ui/main_app.py.py:16-32 | The callback is registered and no feed exists. The dashboard is hidden and not yet created. The map is at [0.3, 0.1, 0.65, 0.85], labelled "Show Dashboard". The two sample layers are in both stores, in loading order on the map surface, and the bounds are the union of their two extents. No symbology is set. |
| AppController.LayeredEarthApp.ToggleDashboard | ui/main_app.py.py:71-92 | Each call flips the visibility. Position and label follow it. Hiding only hides the charts. Showing creates the dashboard the first time, reuses it afterwards and refreshes it from the layer store. |
| AppController.LayeredEarthApp.ToggleTwice | ui/main_app.py.py:71-92 | Two toggles restore the visibility, map position and label, and leave a dashboard in place. |
| AppController.LayeredEarthApp.OnRealTimeUpdate | ui/main_app.py.py:126-130 | Only a name already in the layer store gets the new data. Other fields and names are untouched, and unknown names are ignored. |
| AppController.LayeredEarthApp.RealTimeTick | data/real_time.py.py:83-100 | One pass of the poller, with this controller's callback applied to the layer store in invocation order. The store's names and symbology never change. Each feed ends as that feed after one tick; the feed names, their order and the registered callbacks are unchanged. |
| AppController.LayeredEarthApp.AddToBothStores | ui/main_app.py.py:103-107 | The map surface refuses a taken name, keeping its layers, order and bounds; a new name is appended and the bounds become the union of the vector extents. The layer store always overwrites with a vector entry that has no crs field, and its symbology is unchanged. |
| AppController.LayeredEarthApp.AddEarthquakeData | ui/main_app.py.py:94-108 | The earthquake frame is added to both stores with the red, magnitude×20, alpha 0.7 style, with the map surface's order and bounds as for any add. A successful fetch registers the feed at its dict position; when the fetch fails, the sample frame is added even though no feed is registered and the feed order is unchanged. Callbacks and symbology are unchanged. |
| AppController.LayeredEarthApp.AddWeatherData | ui/main_app.py.py:110-124 | The station frame is registered as a feed at its dict position and added to both stores with the blue, 50, alpha 0.6 style, with the map surface's order and bounds as for any add. Callbacks and symbology are unchanged. |
| AppController.LayeredEarthApp.EarthquakeClicksDiverge | ui/main_app.py.py:103-107 | After two successful clicks with different frames, the map surface still shows the first frame, while the layer store and the feed hold the second. |
| AppController.LayeredEarthApp.LoadSampleData | ui/main_app.py.py:132-152 | "Admin Boundaries" and then "Points of Interest" are added to both stores with their styles: each name not yet on the map surface is stored and appended in that order, a taken one is kept, and the bounds are recomputed whenever one was new. The layer store holds both and its symbology is unchanged. |
| AppController.LayeredEarthApp.AskAiAssistant | ui/main_app.py.py:154-157 | The assistant's reply is the query responder's reply to the text. |
| AppController.LayeredEarthApp.OnClick | ui/main_app.py.py:159-167 | A click in the map axes yields the pick at that point, and a click elsewhere yields nothing. |

## Left out

- Drawing is not modelled: plotting a frame, axis limits, redraws, the cursor, widget creation and the dashboard's charts. Only the state those calls leave behind is modelled.
- The dashboard's chart contents are not modelled. They come from numpy random draws and constants. The model records only the layer table each refresh summarised.
- Geometry is not computed. Frame bounds and containment come from the vector-geometry library and are inputs. The NaN bounds of an empty layer are floating-point behaviour and are not modelled.
- File reading is not modelled. `read_file`, `read_csv` and `points_from_xy` are represented by the `Disk` value. A read exception becomes `ReadError`, and a `points_from_xy` exception (the `Disk` gives `None`) becomes `BadCoordinates`; the exception's own type and message are not modelled.
- The layer store's tables are plain maps: the insertion order of their keys is not kept, because no operation of the store or the controller depends on it.
- Path handling covers '/'-separated paths only. Windows separators and pathlib's handling of trailing slashes are not modelled.
- HTTP and JSON are not modelled. The earthquake request and decoding of the GeoJSON payload are the `Fetch` input. A payload that fails to decode is `FetchFailed`.
- Randomness is the `draws` input, read in the order the source draws.
- The clock is not modelled: `now` is one value per call. Several calls to `datetime.now()` within one call are taken to give the same time.
- The background thread, its `while True` and `sleep(30)` are left out. `UpdateTick` models one pass of its loop.
- Callbacks are not run while the pass is in progress. `UpdateTick` returns the invocations in order, and the controller applies them afterwards. This gives the same final state, because the controller's callback touches only the layer store, which the pass never reads.
- The concurrent access between the poller thread and the UI thread is not modelled.
- Case folding is ASCII only, with word characters A-Z, a-z, 0-9 and '_'. Unicode lower-casing and Unicode `\b` are not modelled.
- The "print" side effects are not modelled. This covers the duplicate-layer message, load errors, "... added!" messages, update timestamps, click reports and the assistant's reply text.
- analysis/vector_tools.py.py, ui/dashboard.py.py, demo/sample_data.py.py, run_demo.py.py, setup.py.py and the advanced demo script are not part of this model. The sample-data generator's frames are constructor inputs.
