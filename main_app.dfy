/**
 * The application controller (ui/main_app.py): it owns the map surface, the
 * layer store and the feed registry, keeps the dashboard toggle's state
 * (map-axes position, button label, the lazily created dashboard and whether
 * it is shown), registers every new vector layer in both the map surface and
 * the layer store, and applies real-time updates to the layer store.
 *
 * Widgets are plain fields: an axes position is a `Position`, a button label
 * a string. The dashboard keeps only what the controller changes: its area,
 * whether its charts are visible, the layer table it last summarised and how
 * many times it has refreshed. Printing is not modelled.
 */
module AppController {
  import opened Geo
  import MapSurface
  import LayerStore
  import FeedRegistry
  import QueryResponder

  /** An axes position: [left, bottom, width, height] in figure fractions. */
  datatype Position = Position(left: real, bottom: real, width: real, height: real)

  /** The map axes while the dashboard is hidden. */
  const MapFull: Position := Position(0.3, 0.1, 0.65, 0.85)
  /** The map axes while the dashboard is shown. */
  const MapBesideDashboard: Position := Position(0.3, 0.5, 0.65, 0.45)
  /** Where the dashboard's charts go. */
  const DashboardArea: Position := Position(0.02, 0.05, 0.28, 0.45)

  const ShowLabel: string := "Show Dashboard"
  const HideLabel: string := "Hide Dashboard"

  /** The dashboard as the controller sees it. */
  datatype Dashboard = Dashboard(area: Position, chartsVisible: bool,
                                 summarised: map<string, LayerStore.Entry>, refreshes: nat)

  const EarthquakesName: string := "Earthquakes"
  const WeatherName: string := "Weather Stations"
  const AdminName: string := "Admin Boundaries"
  const PoiName: string := "Points of Interest"

  const EarthquakeStyle: Style :=
    map["color" := Text("red"), "markersize" := ColumnTimes("magnitude", 20.0), "alpha" := Number(0.7)]
  const WeatherStyle: Style := map["color" := Text("blue"), "markersize" := Number(50.0), "alpha" := Number(0.6)]
  const AdminStyle: Style := map["color" := Text("lightblue"), "edgecolor" := Text("blue"), "alpha" := Number(0.3)]
  const PoiStyle: Style := map["color" := Text("red"), "markersize" := Number(50.0)]

  /** A layer-store entry as the controller writes it: a vector layer with no `crs` field. */
  function StoreEntry(data: Frame): LayerStore.Entry {
    LayerStore.Entry(LayerStore.Vector, data, LayerStore.NoCrsField)
  }

  /** The effect of one callback invocation on the layer store: only a known name of this callback changes, and only its data. */
  function ApplyUpdate(layers: map<string, LayerStore.Entry>, d: FeedRegistry.Dispatch, self: FeedRegistry.Callback)
    : map<string, LayerStore.Entry>
  {
    if d.callback == self && d.layerName in layers then layers[d.layerName := layers[d.layerName].(data := d.data)]
    else layers
  }

  /** The effect of a sequence of callback invocations, in order. */
  function ApplyUpdates(layers: map<string, LayerStore.Entry>, calls: seq<FeedRegistry.Dispatch>,
                        self: FeedRegistry.Callback): map<string, LayerStore.Entry>
  {
    if calls == [] then layers
    else ApplyUpdate(ApplyUpdates(layers, calls[..|calls| - 1], self), calls[|calls| - 1], self)
  }

  /**
   * Updates never add or remove a layer and never change an entry's type or
   * `crs` field; an entry's data is either what it was or the data of an
   * invocation of this callback for that name.
   */
  lemma {:induction false} ApplyUpdatesKeepsEntries(layers: map<string, LayerStore.Entry>,
                                                    calls: seq<FeedRegistry.Dispatch>, self: FeedRegistry.Callback)
    ensures ApplyUpdates(layers, calls, self).Keys == layers.Keys
    ensures forall n :: n in layers ==>
              var e := ApplyUpdates(layers, calls, self)[n];
              && e.kind == layers[n].kind && e.crs == layers[n].crs
              && (e.data == layers[n].data
                  || exists k :: 0 <= k < |calls| && calls[k].callback == self && calls[k].layerName == n
                                 && calls[k].data == e.data)
  {
    if calls != [] {
      var init := calls[..|calls| - 1];
      ApplyUpdatesKeepsEntries(layers, init, self);
      var m := ApplyUpdates(layers, init, self);
      var d := calls[|calls| - 1];
      forall n | n in layers
        ensures var e := ApplyUpdates(layers, calls, self)[n];
          e.data == layers[n].data
          || exists k :: 0 <= k < |calls| && calls[k].callback == self && calls[k].layerName == n
                         && calls[k].data == e.data
      {
        if d.callback == self && d.layerName == n {
          assert calls[|calls| - 1].data == ApplyUpdates(layers, calls, self)[n].data;
        } else if m[n].data != layers[n].data {
          var k :| 0 <= k < |init| && init[k].callback == self && init[k].layerName == n && init[k].data == m[n].data;
          assert calls[k] == init[k];
        }
      }
    }
  }

  /** The last invocation for a known name wins: that entry ends with its data. */
  lemma LastUpdateWins(layers: map<string, LayerStore.Entry>, calls: seq<FeedRegistry.Dispatch>,
                       self: FeedRegistry.Callback, d: FeedRegistry.Dispatch)
    requires d.callback == self && d.layerName in layers
    ensures d.layerName in ApplyUpdates(layers, calls + [d], self)
    ensures ApplyUpdates(layers, calls + [d], self)[d.layerName].data == d.data
  {
    assert (calls + [d])[..|calls|] == calls;
    ApplyUpdatesKeepsEntries(layers, calls, self);
  }

  /** The map surface's table after adding `layer` under `name`: a name it already has is refused. */
  function AddIfNew(layers: map<string, MapSurface.Layer>, name: string, layer: MapSurface.Layer)
    : (r: map<string, MapSurface.Layer>)
    ensures r.Keys == layers.Keys + {name}
    ensures forall n :: n in layers ==> r[n] == layers[n]
  {
    if name in layers then layers else layers[name := layer]
  }

  /** The map surface's layers after loading the two samples into an empty map. */
  function SampleLayers(adminData: Frame, poiData: Frame): map<string, MapSurface.Layer> {
    map[AdminName := MapSurface.Layer(MapSurface.Vector, adminData, AdminStyle),
        PoiName := MapSurface.Layer(MapSurface.Vector, poiData, PoiStyle)]
  }

  /**
   * Loading the two samples into an empty map surface yields both layers,
   * and the bounds come from their extents in loading order.
   */
  lemma SampleExtents(adminData: Frame, poiData: Frame)
    ensures AddIfNew(AddIfNew(map[], AdminName, MapSurface.Layer(MapSurface.Vector, adminData, AdminStyle)),
                     PoiName, MapSurface.Layer(MapSurface.Vector, poiData, PoiStyle))
            == SampleLayers(adminData, poiData)
    ensures MapSurface.VectorExtents([AdminName, PoiName], SampleLayers(adminData, poiData))
            == [adminData.extent, poiData.extent]
  {
    var layers := SampleLayers(adminData, poiData);
    assert AdminName[0] != PoiName[0];
    assert [AdminName, PoiName][..1] == [AdminName];
    assert MapSurface.VectorExtents([AdminName], layers) == [adminData.extent] by {
      assert [AdminName][..0] == [];
    }
  }

  class LayeredEarthApp {
    const mapEngine: MapSurface.MapEngine
    const layerManager: LayerStore.LayerManager
    const realTimeData: FeedRegistry.RealTimeData
    /** The identity under which `OnRealTimeUpdate` is registered with the feeds. */
    const updateCallback: FeedRegistry.Callback

    var dashboard: Option<Dashboard>
    var dashboardVisible: bool
    /** The map axes' position. */
    var mapPosition: Position
    /** The dashboard button's label. */
    var buttonLabel: string
    /** How many times the dashboard has gone from hidden to shown. */
    ghost var shows: nat

    /**
     * Position and label follow visibility; the dashboard exists once it has
     * been shown, its charts are visible exactly while it is shown, and it
     * has refreshed on every show, so the same dashboard served every show.
     */
    ghost predicate Valid()
      reads this, mapEngine, realTimeData
    {
      && mapEngine.Valid() && realTimeData.Valid()
      && mapPosition == (if dashboardVisible then MapBesideDashboard else MapFull)
      && buttonLabel == (if dashboardVisible then HideLabel else ShowLabel)
      && (dashboardVisible ==> dashboard.Some?)
      && (dashboard.None? <==> shows == 0)
      && (dashboard.Some? ==>
            && dashboard.value.area == DashboardArea
            && dashboard.value.chartsVisible == dashboardVisible
            && dashboard.value.refreshes == shows)
    }

    /**
     * Builds the components, registers the update callback, lays out the map
     * with the dashboard hidden and loads the two sample layers (`adminData`
     * and `poiData` are the generated frames).
     */
    constructor (callback: FeedRegistry.Callback, adminData: Frame, poiData: Frame)
      ensures Valid()
      ensures fresh(mapEngine) && fresh(layerManager) && fresh(realTimeData)
      ensures updateCallback == callback
      ensures dashboard == None && !dashboardVisible && mapPosition == MapFull && buttonLabel == ShowLabel
      ensures realTimeData.updateCallbacks == [callback] && realTimeData.activeFeeds == map[]
      ensures mapEngine.layerOrder == [AdminName, PoiName]
      ensures mapEngine.layers == SampleLayers(adminData, poiData)
      ensures mapEngine.currentBounds == Some(Union([adminData.extent, poiData.extent]))
      ensures layerManager.availableLayers == map[AdminName := StoreEntry(adminData), PoiName := StoreEntry(poiData)]
      ensures layerManager.symbologySettings == map[]
      ensures realTimeData.feedOrder == []
    {
      mapEngine := new MapSurface.MapEngine();
      layerManager := new LayerStore.LayerManager();
      var feeds := new FeedRegistry.RealTimeData();
      feeds.RegisterUpdateCallback(callback);
      realTimeData := feeds;
      updateCallback := callback;
      dashboard := None;
      dashboardVisible := false;
      mapPosition := MapFull;
      buttonLabel := ShowLabel;
      shows := 0;
      new;
      assert Valid();
      assert mapEngine.layers == map[] && mapEngine.layerOrder == [];
      SampleExtents(adminData, poiData);
      LoadSampleData(adminData, poiData);
      assert mapEngine.layerOrder == [] + [AdminName] + [PoiName];
    }

    /**
     * Hides a shown dashboard or shows a hidden one. Showing creates the
     * dashboard the first time and reveals its charts afterwards, then
     * refreshes it from the layer store; hiding only hides its charts.
     */
    method ToggleDashboard()
      requires Valid()
      modifies this
      ensures Valid()
      ensures dashboardVisible == !old(dashboardVisible)
      ensures mapPosition == (if dashboardVisible then MapBesideDashboard else MapFull)
      ensures buttonLabel == (if dashboardVisible then HideLabel else ShowLabel)
      ensures old(dashboardVisible) ==> dashboard == Some(old(dashboard).value.(chartsVisible := false)) && shows == old(shows)
      ensures !old(dashboardVisible) ==>
        && dashboard == Some(Dashboard(DashboardArea, true, layerManager.availableLayers, old(shows) + 1))
        && shows == old(shows) + 1
    {
      if dashboardVisible {
        mapPosition := MapFull;
        if dashboard.Some? {
          dashboard := Some(dashboard.value.(chartsVisible := false));
        }
        dashboardVisible := false;
        buttonLabel := ShowLabel;
      } else {
        mapPosition := MapBesideDashboard;
        var d: Dashboard;
        if dashboard.None? {
          d := Dashboard(DashboardArea, true, map[], 0);
        } else {
          d := dashboard.value.(chartsVisible := true);
        }
        dashboard := Some(d.(summarised := layerManager.availableLayers, refreshes := d.refreshes + 1));
        shows := shows + 1;
        dashboardVisible := true;
        buttonLabel := HideLabel;
      }
    }

    /** Two toggles restore the visibility, the map position and the label, and keep the one dashboard. */
    method ToggleTwice()
      requires Valid()
      modifies this
      ensures Valid()
      ensures dashboardVisible == old(dashboardVisible)
      ensures mapPosition == old(mapPosition) && buttonLabel == old(buttonLabel)
      ensures dashboard.Some? && dashboard.value.area == DashboardArea
      ensures shows == old(shows) + 1
    {
      ToggleDashboard();
      ToggleDashboard();
    }

    /** The update callback: replaces the data of a layer the store knows; an unknown name is ignored. */
    method OnRealTimeUpdate(layerName: string, newData: Frame)
      modifies layerManager
      ensures layerName in old(layerManager.availableLayers) ==>
        layerManager.availableLayers
          == old(layerManager.availableLayers)[layerName := old(layerManager.availableLayers)[layerName].(data := newData)]
      ensures layerName !in old(layerManager.availableLayers) ==>
        layerManager.availableLayers == old(layerManager.availableLayers)
      ensures layerManager.symbologySettings == old(layerManager.symbologySettings)
    {
      if layerName in layerManager.availableLayers {
        var entry := layerManager.availableLayers[layerName];
        layerManager.availableLayers := layerManager.availableLayers[layerName := entry.(data := newData)];
      }
    }

    /**
     * One pass of the feed poller at time `now`, with this controller's
     * callback applied to the layer store for every invocation addressed to
     * it, in invocation order.
     */
    method RealTimeTick(now: int, fetch: string -> FeedRegistry.Fetch, draws: nat -> real)
      requires Valid()
      modifies realTimeData, layerManager
      ensures Valid()
      ensures layerManager.availableLayers
        == ApplyUpdates(old(layerManager.availableLayers),
                        FeedRegistry.TickCalls(old(realTimeData.feedOrder), old(realTimeData.activeFeeds), now, fetch,
                                               old(realTimeData.updateCallbacks)),
                        updateCallback)
      ensures layerManager.availableLayers.Keys == old(layerManager.availableLayers).Keys
      ensures layerManager.symbologySettings == old(layerManager.symbologySettings)
      ensures realTimeData.feedOrder == old(realTimeData.feedOrder)
      ensures realTimeData.updateCallbacks == old(realTimeData.updateCallbacks)
      ensures realTimeData.activeFeeds.Keys == old(realTimeData.activeFeeds).Keys
      ensures forall n :: n in realTimeData.activeFeeds ==>
        realTimeData.activeFeeds[n] == FeedRegistry.TickedFeed(old(realTimeData.activeFeeds)[n], now, fetch(n))
    {
      var calls := realTimeData.UpdateTick(now, fetch, draws);
      Deliver(calls);
      ApplyUpdatesKeepsEntries(old(layerManager.availableLayers), calls, updateCallback);
    }

    /** Runs the invocations of a pass in order; only those of this controller's callback act. */
    method Deliver(calls: seq<FeedRegistry.Dispatch>)
      modifies layerManager
      ensures layerManager.availableLayers == ApplyUpdates(old(layerManager.availableLayers), calls, updateCallback)
      ensures layerManager.symbologySettings == old(layerManager.symbologySettings)
    {
      for k := 0 to |calls|
        invariant layerManager.availableLayers == ApplyUpdates(old(layerManager.availableLayers), calls[..k], updateCallback)
        invariant layerManager.symbologySettings == old(layerManager.symbologySettings)
      {
        assert calls[..k + 1][..k] == calls[..k];
        if calls[k].callback == updateCallback {
          OnRealTimeUpdate(calls[k].layerName, calls[k].data);
        }
      }
      assert calls[..|calls|] == calls;
    }

    /**
     * Registers a vector layer in both stores: the map surface refuses a
     * name it already has, the layer store always overwrites.
     */
    method AddToBothStores(data: Frame, name: string, style: Style)
      requires Valid() && style != map[]
      modifies mapEngine, layerManager
      ensures Valid()
      ensures name in old(mapEngine.layers) ==>
        && mapEngine.layers == old(mapEngine.layers) && mapEngine.layerOrder == old(mapEngine.layerOrder)
        && mapEngine.currentBounds == old(mapEngine.currentBounds)
      ensures name !in old(mapEngine.layers) ==>
        && mapEngine.layers == old(mapEngine.layers)[name := MapSurface.Layer(MapSurface.Vector, data, style)]
        && mapEngine.layerOrder == old(mapEngine.layerOrder) + [name]
        && mapEngine.currentBounds == Some(Union(MapSurface.VectorExtents(mapEngine.layerOrder, mapEngine.layers)))
      ensures layerManager.availableLayers == old(layerManager.availableLayers)[name := StoreEntry(data)]
      ensures layerManager.symbologySettings == old(layerManager.symbologySettings)
    {
      mapEngine.AddVectorLayer(data, name, Some(style));
      layerManager.availableLayers := layerManager.availableLayers[name := StoreEntry(data)];
    }

    /**
     * The earthquake button: adds the earthquake feed's frame (sample data
     * when the fetch fails) to the map surface, which refuses it if the name
     * is taken, and to the layer store, which always overwrites.
     */
    method AddEarthquakeData(fetched: FeedRegistry.Fetch, now: int, draws: nat -> real) returns (gdf: Frame)
      requires Valid()
      modifies realTimeData, mapEngine, layerManager
      ensures Valid()
      ensures gdf == if fetched.Fetched? then fetched.frame else FeedRegistry.SampleEarthquakes(draws, now)
      ensures fetched.Fetched? ==>
        realTimeData.activeFeeds
          == old(realTimeData.activeFeeds)[EarthquakesName := FeedRegistry.Feed(FeedRegistry.Earthquake, gdf, 60, now)]
      ensures fetched.Fetched? ==> realTimeData.feedOrder == FeedRegistry.Put(old(realTimeData.feedOrder), EarthquakesName)
      ensures fetched.FetchFailed? ==>
        realTimeData.activeFeeds == old(realTimeData.activeFeeds) && realTimeData.feedOrder == old(realTimeData.feedOrder)
      ensures realTimeData.updateCallbacks == old(realTimeData.updateCallbacks)
      ensures EarthquakesName in old(mapEngine.layers) ==>
        && mapEngine.layers == old(mapEngine.layers) && mapEngine.layerOrder == old(mapEngine.layerOrder)
        && mapEngine.currentBounds == old(mapEngine.currentBounds)
      ensures EarthquakesName !in old(mapEngine.layers) ==>
        && mapEngine.layers == old(mapEngine.layers)[EarthquakesName := MapSurface.Layer(MapSurface.Vector, gdf, EarthquakeStyle)]
        && mapEngine.layerOrder == old(mapEngine.layerOrder) + [EarthquakesName]
        && mapEngine.currentBounds == Some(Union(MapSurface.VectorExtents(mapEngine.layerOrder, mapEngine.layers)))
      ensures layerManager.availableLayers == old(layerManager.availableLayers)[EarthquakesName := StoreEntry(gdf)]
      ensures layerManager.symbologySettings == old(layerManager.symbologySettings)
    {
      gdf := realTimeData.AddEarthquakeFeed(EarthquakesName, fetched, now, draws);
      assert "color" in EarthquakeStyle;
      AddToBothStores(gdf, EarthquakesName, EarthquakeStyle);
    }

    /** The weather button: registers the simulated stations as a feed, then adds them to both stores. */
    method AddWeatherData(now: int, draws: nat -> real) returns (gdf: Frame)
      requires Valid()
      modifies realTimeData, mapEngine, layerManager
      ensures Valid()
      ensures gdf == FeedRegistry.WeatherStations(draws)
      ensures realTimeData.activeFeeds
        == old(realTimeData.activeFeeds)[WeatherName := FeedRegistry.Feed(FeedRegistry.Weather, gdf, 300, now)]
      ensures realTimeData.feedOrder == FeedRegistry.Put(old(realTimeData.feedOrder), WeatherName)
      ensures realTimeData.updateCallbacks == old(realTimeData.updateCallbacks)
      ensures WeatherName in old(mapEngine.layers) ==>
        && mapEngine.layers == old(mapEngine.layers) && mapEngine.layerOrder == old(mapEngine.layerOrder)
        && mapEngine.currentBounds == old(mapEngine.currentBounds)
      ensures WeatherName !in old(mapEngine.layers) ==>
        && mapEngine.layers == old(mapEngine.layers)[WeatherName := MapSurface.Layer(MapSurface.Vector, gdf, WeatherStyle)]
        && mapEngine.layerOrder == old(mapEngine.layerOrder) + [WeatherName]
        && mapEngine.currentBounds == Some(Union(MapSurface.VectorExtents(mapEngine.layerOrder, mapEngine.layers)))
      ensures layerManager.availableLayers == old(layerManager.availableLayers)[WeatherName := StoreEntry(gdf)]
      ensures layerManager.symbologySettings == old(layerManager.symbologySettings)
    {
      gdf := realTimeData.AddWeatherStations(WeatherName, now, draws);
      assert "color" in WeatherStyle;
      AddToBothStores(gdf, WeatherName, WeatherStyle);
    }

    /**
     * Two clicks on the earthquake button with different successful fetches:
     * the map surface keeps the first frame while the layer store holds the
     * second, so the two stores disagree.
     */
    method EarthquakeClicksDiverge(first: Frame, second: Frame, now: int, later: int, draws: nat -> real)
      requires Valid() && EarthquakesName !in mapEngine.layers && first != second
      modifies realTimeData, mapEngine, layerManager
      ensures Valid()
      ensures EarthquakesName in mapEngine.layers && mapEngine.layers[EarthquakesName].data == first
      ensures EarthquakesName in layerManager.availableLayers && layerManager.availableLayers[EarthquakesName].data == second
      ensures EarthquakesName in realTimeData.activeFeeds && realTimeData.activeFeeds[EarthquakesName].data == second
    {
      var _ := AddEarthquakeData(FeedRegistry.Fetched(first), now, draws);
      var _ := AddEarthquakeData(FeedRegistry.Fetched(second), later, draws);
    }

    /** Adds the administrative boundaries and then the points of interest to both stores. */
    method LoadSampleData(adminData: Frame, poiData: Frame)
      requires Valid()
      modifies mapEngine, layerManager
      ensures Valid()
      ensures mapEngine.layers
        == AddIfNew(AddIfNew(old(mapEngine.layers), AdminName, MapSurface.Layer(MapSurface.Vector, adminData, AdminStyle)),
                    PoiName, MapSurface.Layer(MapSurface.Vector, poiData, PoiStyle))
      ensures mapEngine.layerOrder == old(mapEngine.layerOrder)
        + (if AdminName in old(mapEngine.layers) then [] else [AdminName])
        + (if PoiName in old(mapEngine.layers) then [] else [PoiName])
      ensures AdminName in old(mapEngine.layers) && PoiName in old(mapEngine.layers) ==>
        mapEngine.currentBounds == old(mapEngine.currentBounds)
      ensures AdminName !in old(mapEngine.layers) || PoiName !in old(mapEngine.layers) ==>
        mapEngine.currentBounds == Some(Union(MapSurface.VectorExtents(mapEngine.layerOrder, mapEngine.layers)))
      ensures layerManager.availableLayers
        == old(layerManager.availableLayers)[AdminName := StoreEntry(adminData)][PoiName := StoreEntry(poiData)]
      ensures layerManager.symbologySettings == old(layerManager.symbologySettings)
    {
      assert "color" in AdminStyle && "color" in PoiStyle;
      AddToBothStores(adminData, AdminName, AdminStyle);
      AddToBothStores(poiData, PoiName, PoiStyle);
    }

    /** The assistant's text box: the reply to the query, whatever the layers are. */
    method AskAiAssistant(text: string) returns (response: string)
      ensures response == QueryResponder.Response(text)
    {
      response := QueryResponder.ProcessQuery(text, layerManager.availableLayers);
    }

    /** A click inside the map axes yields the popup at that point; a click elsewhere yields nothing. */
    method OnClick(inMapAxes: bool, x: real, y: real) returns (popup: Option<seq<(string, seq<Row>)>>)
      requires Valid()
      ensures inMapAxes ==> popup == Some(MapSurface.Pick(mapEngine.layerOrder, mapEngine.layers, x, y))
      ensures !inMapAxes ==> popup == None
    {
      if !inMapAxes {
        return None;
      }
      var p := mapEngine.ShowPopup(x, y, 0.01);
      popup := Some(p);
    }
  }
}
