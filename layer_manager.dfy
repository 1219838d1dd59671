/**
 * The layer store (core/layer_manager.py): loading files into a table of
 * available layers, keyed by an explicit name or the file's stem, plus the
 * per-layer symbology table.
 *
 * Reading files is the business of the vector-I/O library; the model takes
 * what it would return as a `Disk` value. Path handling follows pathlib's
 * `name`, `stem` and `suffix` for '/'-separated paths.
 */
module LayerStore {
  import opened Geo
  import opened Text

  // --------------------------------------------------------------- paths

  /** The last position of `c` in `s`, if any. */
  function LastIndexOf(s: string, c: char): (r: Option<nat>)
    ensures r.Some? ==> r.value < |s| && s[r.value] == c && forall j :: r.value < j < |s| ==> s[j] != c
    ensures r.None? ==> forall j :: 0 <= j < |s| ==> s[j] != c
  {
    if s == [] then None
    else if s[|s| - 1] == c then Some(|s| - 1)
    else LastIndexOf(s[..|s| - 1], c)
  }

  /** The final path component. */
  function FileName(path: string): string {
    match LastIndexOf(path, '/')
    case None => path
    case Some(i) => path[i + 1..]
  }

  /** Where the suffix of a file name starts: its last dot, unless that dot is first or last. */
  function SuffixStart(name: string): Option<nat> {
    match LastIndexOf(name, '.')
    case Some(i) => if 0 < i < |name| - 1 then Some(i) else None
    case None => None
  }

  /** pathlib's `suffix`: from the last dot of the file name, or empty. */
  function Suffix(path: string): string {
    var name := FileName(path);
    match SuffixStart(name)
    case Some(i) => name[i..]
    case None => ""
  }

  /** pathlib's `stem`: the file name without its suffix. */
  function Stem(path: string): string {
    var name := FileName(path);
    match SuffixStart(name)
    case Some(i) => name[..i]
    case None => name
  }

  /**
   * Stem and suffix split the file name: the suffix is empty or a dot
   * followed by at least one character and no further dot, and a non-empty
   * suffix leaves a non-empty stem.
   */
  lemma StemSuffixSplit(path: string)
    ensures Stem(path) + Suffix(path) == FileName(path)
    ensures Suffix(path) == "" || (|Suffix(path)| >= 2 && Suffix(path)[0] == '.' && '.' !in Suffix(path)[1..])
    ensures Suffix(path) != "" ==> Stem(path) != ""
  {
    var name := FileName(path);
    match SuffixStart(name)
    case Some(i) =>
      assert name[..i] + name[i..] == name;
      assert forall j :: 0 <= j < |name[i..][1..]| ==> name[i..][1..][j] == name[i + 1 + j];
    case None =>
  }

  /** Lower-casing commutes with finding a character that lower-casing leaves alone. */
  lemma {:induction false} LastIndexOfLower(s: string, c: char)
    requires LowerChar(c) == c && !('a' <= c <= 'z')
    ensures LastIndexOf(ToLower(s), c) == LastIndexOf(s, c)
  {
    if s != [] {
      var t := ToLower(s);
      assert t[..|t| - 1] == ToLower(s[..|s| - 1]);
      LastIndexOfLower(s[..|s| - 1], c);
    }
  }

  /** The suffix of the lower-cased path is the lower-cased suffix. */
  lemma SuffixLower(path: string)
    ensures Suffix(ToLower(path)) == ToLower(Suffix(path))
  {
    LastIndexOfLower(path, '/');
    var name := FileName(path);
    var lname := FileName(ToLower(path));
    if LastIndexOf(path, '/').Some? {
      ToLowerDrop(path, LastIndexOf(path, '/').value + 1);
    }
    assert lname == ToLower(name);
    LastIndexOfLower(name, '.');
    assert SuffixStart(lname) == SuffixStart(name);
    if SuffixStart(name).Some? {
      ToLowerDrop(name, SuffixStart(name).value);
    }
  }

  // ------------------------------------------------------- file formats

  datatype Format = VectorFile | CsvFile | OtherFile

  /** The reader chosen by the lower-cased suffix. */
  function FormatOf(path: string): Format {
    var s := ToLower(Suffix(path));
    if s in [".shp", ".geojson", ".json"] then VectorFile
    else if s == ".csv" then CsvFile
    else OtherFile
  }

  /** Dispatch ignores case: a path and its lower-cased form pick the same reader. */
  lemma FormatIgnoresCase(path: string)
    ensures FormatOf(ToLower(path)) == FormatOf(path)
  {
    SuffixLower(path);
    ToLowerIdempotent(Suffix(path));
  }

  /** An upper-case `.CSV` suffix takes the CSV reader; the stem drops directory and suffix. */
  lemma UpperCaseCsvExample()
    ensures FormatOf("data/Cities.CSV") == CsvFile && Stem("data/Cities.CSV") == "Cities"
  {
    var p := "data/Cities.CSV";
    CitiesFileName();
    CitiesSuffixStart();
    var n := "Cities.CSV";
    assert n[6..] == ".CSV" && n[..6] == "Cities";
    assert Suffix(p) == ".CSV";
    LowerCsv();
    assert ".csv" != ".shp" && ".csv" != ".geojson" && ".csv" != ".json";
  }

  /** ".CSV" lower-cases to ".csv". */
  lemma LowerCsv()
    ensures ToLower(".CSV") == ".csv"
  {
    var lc := ToLower(".CSV");
    assert lc[0] == '.' && lc[1] == 'c' && lc[2] == 's' && lc[3] == 'v';
  }

  /** The suffix of "Cities.CSV" starts at its only dot. */
  lemma CitiesSuffixStart()
    ensures SuffixStart("Cities.CSV") == Some(6)
  {
    var n := "Cities.CSV";
    assert n[6] == '.' && forall j :: 6 < j < |n| ==> n[j] != '.';
  }

  /** The file name of "data/Cities.CSV" is what follows its only slash. */
  lemma CitiesFileName()
    ensures FileName("data/Cities.CSV") == "Cities.CSV"
  {
    var p := "data/Cities.CSV";
    assert p[4] == '/' && forall j :: 4 < j < |p| ==> p[j] != '/';
  }

  /** Only the last suffix counts: a `.gz` archive is not loaded, whatever precedes it. */
  lemma DoubleSuffixExample()
    ensures FormatOf("archive.tar.gz") == OtherFile && Stem("archive.tar.gz") == "archive.tar"
  {
    var q := "archive.tar.gz";
    assert forall j :: 0 <= j < |q| ==> q[j] != '/';
    assert q[11] == '.' && q[12] == 'g' && q[13] == 'z';
    assert q[11..] == ".gz" && q[..11] == "archive.tar";
    var lg := ToLower(".gz");
    assert lg[0] == '.' && lg[1] == 'g' && lg[2] == 'z';
    assert lg == ".gz";
  }

  /** A leading dot starts no suffix: `.shp` alone is a stem with no suffix and is not loaded. */
  lemma HiddenFileExample()
    ensures FormatOf("maps/.shp") == OtherFile && Stem("maps/.shp") == ".shp"
  {
    var r := "maps/.shp";
    assert r[4] == '/' && forall j :: 4 < j < |r| ==> r[j] != '/';
    assert FileName(r) == ".shp";
    var m := ".shp";
    assert m[0] == '.' && m[1] == 's' && m[2] == 'h' && m[3] == 'p';
  }

  // ----------------------------------------------------- CSV coordinates

  /** The first column whose lower-cased name contains `key`. */
  function FirstColumnContaining(columns: seq<string>, key: string): (r: Option<nat>)
    ensures r.Some? ==> r.value < |columns| && HasSubstring(ToLower(columns[r.value]), key)
    ensures r.Some? ==> forall j :: 0 <= j < r.value ==> !HasSubstring(ToLower(columns[j]), key)
    ensures r.None? ==> forall j :: 0 <= j < |columns| ==> !HasSubstring(ToLower(columns[j]), key)
  {
    if columns == [] then None
    else if HasSubstring(ToLower(columns[0]), key) then Some(0)
    else
      match FirstColumnContaining(columns[1..], key)
      case None => None
      case Some(i) => Some(i + 1)
  }

  /** Examples of the column pick: the match ignores case, and the first match wins. */
  lemma ColumnExamples()
    ensures FirstColumnContaining(["id", "Lat", "LON"], "lat") == Some(1)
    ensures FirstColumnContaining(["id", "Lat", "LON"], "lon") == Some(2)
    ensures FirstColumnContaining(["lat1", "lat2"], "lat") == Some(0)
    ensures FirstColumnContaining(["x", "y"], "lat") == None
  {
    MixedCaseColumns();
    FirstMatchingColumn();
  }

  /** "Lat" and "LON" are found through their lower-cased forms. */
  lemma MixedCaseColumns()
    ensures FirstColumnContaining(["id", "Lat", "LON"], "lat") == Some(1)
    ensures FirstColumnContaining(["id", "Lat", "LON"], "lon") == Some(2)
  {
    var cs := ["id", "Lat", "LON"];
    assert cs[1..] == ["Lat", "LON"] && cs[1..][1..] == ["LON"];
    assert ToLower("id") == "id" && !HasSubstring("id", "lat") && !HasSubstring("id", "lon");
    LowerLatLon();
    assert HasSubstring("lat", "lat") && HasSubstring("lon", "lon");
    assert "lat"[1..] == "at" && !HasSubstring("at", "lon");
    assert !HasSubstring("lat", "lon");
  }

  /** "Lat" and "LON" lower-case to "lat" and "lon". */
  lemma LowerLatLon()
    ensures ToLower("Lat") == "lat" && ToLower("LON") == "lon"
  {
    var a := ToLower("Lat");
    var b := ToLower("LON");
    assert a[0] == 'l' && a[1] == 'a' && a[2] == 't';
    assert b[0] == 'l' && b[1] == 'o' && b[2] == 'n';
  }

  /** The first of two matching columns is taken; no match gives nothing. */
  lemma FirstMatchingColumn()
    ensures FirstColumnContaining(["lat1", "lat2"], "lat") == Some(0)
    ensures FirstColumnContaining(["x", "y"], "lat") == None
  {
    assert ToLower("lat1")[..3] == "lat";
  }

  // --------------------------------------------------------- the store

  /** Whether a stored entry records a coordinate reference, and which (possibly none). */
  datatype CrsField = NoCrsField | CrsField(crs: Option<string>)

  /** An entry of the available-layers table. */
  datatype Entry = Entry(kind: string, data: Frame, crs: CrsField)

  const Vector: string := "vector"

  /**
   * What the file readers return: the frame read from each readable vector
   * file, the column names of each readable CSV file, and the points built
   * from a CSV file's longitude and latitude columns (`None` when those
   * columns do not convert to points, which makes the load raise).
   */
  datatype Disk = Disk(
    vectorFiles: map<string, Frame>,
    csvFiles: map<string, seq<string>>,
    pointsFromXY: (string, string, string) -> Option<Frame>)

  datatype LoadError = ReadError(path: string) | NoLatLonColumns | BadCoordinates(path: string)

  /** A loaded frame, `None` for an unsupported suffix, or the error raised. */
  datatype LoadOutcome = Loaded(data: Frame) | Unsupported | Failed(error: LoadError)

  /** The stored name: the given one unless it is missing or empty, else the stem. */
  function LayerKey(path: string, layerName: Option<string>): string {
    if layerName.None? || layerName.value == "" then Stem(path) else layerName.value
  }

  /** A frame built from points and no coordinate reference: its `crs` is `None`. */
  function PointsFrame(points: Frame): (r: Frame)
    ensures r.rows == points.rows && r.extent == points.extent && r.crs.None?
  {
    Frame(points.rows, points.extent, None)
  }

  /** What loading `path` yields, independently of the table. */
  function LoadOutcomeOf(path: string, disk: Disk): LoadOutcome {
    match FormatOf(path)
    case VectorFile =>
      if path in disk.vectorFiles then Loaded(disk.vectorFiles[path]) else Failed(ReadError(path))
    case CsvFile =>
      if path !in disk.csvFiles then Failed(ReadError(path))
      else
        var columns := disk.csvFiles[path];
        var lat := FirstColumnContaining(columns, "lat");
        var lon := FirstColumnContaining(columns, "lon");
        if lat.None? || lon.None? then Failed(NoLatLonColumns)
        else
          var points := disk.pointsFromXY(path, columns[lon.value], columns[lat.value]);
          if points.None? then Failed(BadCoordinates(path))
          else Loaded(PointsFrame(points.value))
    case OtherFile => Unsupported
  }

  /**
   * A readable CSV file loads only when it has a column naming latitude and
   * one naming longitude; without them it fails with `NoLatLonColumns`, and
   * with them it loads unless the points cannot be built. A loaded CSV frame
   * never carries a coordinate reference.
   */
  lemma CsvLoadsIffCoordinates(path: string, disk: Disk)
    requires FormatOf(path) == CsvFile && path in disk.csvFiles
    ensures var columns := disk.csvFiles[path];
      var hasLat := exists i :: 0 <= i < |columns| && HasSubstring(ToLower(columns[i]), "lat");
      var hasLon := exists i :: 0 <= i < |columns| && HasSubstring(ToLower(columns[i]), "lon");
      && (LoadOutcomeOf(path, disk).Loaded? ==> hasLat && hasLon)
      && (!(hasLat && hasLon) ==> LoadOutcomeOf(path, disk) == Failed(NoLatLonColumns))
      && (hasLat && hasLon ==>
            LoadOutcomeOf(path, disk).Loaded? || LoadOutcomeOf(path, disk) == Failed(BadCoordinates(path)))
      && (LoadOutcomeOf(path, disk).Loaded? ==> LoadOutcomeOf(path, disk).data.crs.None?)
  {
    var columns := disk.csvFiles[path];
    var lat := FirstColumnContaining(columns, "lat");
    var lon := FirstColumnContaining(columns, "lon");
    if lat.Some? {
      assert HasSubstring(ToLower(columns[lat.value]), "lat");
    }
    if lon.Some? {
      assert HasSubstring(ToLower(columns[lon.value]), "lon");
    }
  }

  class LayerManager {
    var availableLayers: map<string, Entry>
    var symbologySettings: map<string, Style>

    constructor ()
      ensures availableLayers == map[] && symbologySettings == map[]
    {
      availableLayers := map[];
      symbologySettings := map[];
    }

    /**
     * Loads a file under `layerName`, or its stem when that is missing or
     * empty. Vector suffixes and `.csv` are recognised whatever their case;
     * a successful load overwrites any entry of the same name; a failure
     * leaves the table as it was; any other suffix loads nothing.
     */
    method LoadFile(filePath: string, layerName: Option<string>, disk: Disk) returns (r: LoadOutcome)
      modifies this`availableLayers
      ensures r == LoadOutcomeOf(filePath, disk)
      ensures r.Loaded? ==>
        availableLayers == old(availableLayers)[LayerKey(filePath, layerName) := Entry(Vector, r.data, CrsField(r.data.crs))]
      ensures !r.Loaded? ==> availableLayers == old(availableLayers)
    {
      var name := if layerName.None? || layerName.value == "" then Stem(filePath) else layerName.value;
      var suffix := ToLower(Suffix(filePath));
      assert name == LayerKey(filePath, layerName);
      if suffix in [".shp", ".geojson", ".json"] {
        assert FormatOf(filePath) == VectorFile;
        if filePath !in disk.vectorFiles {
          return Failed(ReadError(filePath));
        }
        var gdf := disk.vectorFiles[filePath];
        availableLayers := availableLayers[name := Entry(Vector, gdf, CrsField(gdf.crs))];
        return Loaded(gdf);
      } else if suffix == ".csv" {
        assert FormatOf(filePath) == CsvFile;
        if filePath !in disk.csvFiles {
          return Failed(ReadError(filePath));
        }
        var columns := disk.csvFiles[filePath];
        var latCol := FirstColumnContaining(columns, "lat");
        var lonCol := FirstColumnContaining(columns, "lon");
        if latCol.None? || lonCol.None? {
          return Failed(NoLatLonColumns);
        }
        var points := disk.pointsFromXY(filePath, columns[lonCol.value], columns[latCol.value]);
        if points.None? {
          return Failed(BadCoordinates(filePath));
        }
        var gdf := PointsFrame(points.value);
        availableLayers := availableLayers[name := Entry(Vector, gdf, CrsField(gdf.crs))];
        return Loaded(gdf);
      }
      assert FormatOf(filePath) == OtherFile;
      return Unsupported;
    }

    /** Sets the symbology of one layer, replacing any earlier one; other layers keep theirs. */
    method SetSymbology(layerName: string, style: Style)
      modifies this`symbologySettings
      ensures symbologySettings == old(symbologySettings)[layerName := style]
    {
      symbologySettings := symbologySettings[layerName := style];
    }

    /** The entry stored under `layerName`, or `None` when there is none. */
    function GetLayer(layerName: string): (r: Option<Entry>)
      reads this
      ensures r.None? <==> layerName !in availableLayers
      ensures r.Some? ==> r.value == availableLayers[layerName]
    {
      if layerName in availableLayers then Some(availableLayers[layerName]) else None
    }

    /** Removes one entry; an absent name is a no-op. */
    method RemoveLayer(layerName: string)
      modifies this`availableLayers
      ensures availableLayers.Keys == old(availableLayers).Keys - {layerName}
      ensures forall n :: n in availableLayers ==> availableLayers[n] == old(availableLayers)[n]
      ensures layerName !in old(availableLayers) ==> availableLayers == old(availableLayers)
    {
      if layerName in availableLayers {
        availableLayers := availableLayers - {layerName};
      }
    }
  }
}
