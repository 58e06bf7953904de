/**
 * Request routing of the web API (src/api/mod.rs): which file, JSON document
 * or error a request gets. Response building, file streaming, JSON text and
 * timestamp formatting are not modelled: a response says what it carries.
 */
module Api {
  import opened Base
  import opened Snapshot
  import Anemometer
  import Rain
  import Vane
  import Dht

  datatype Method = Get | Head | Post | Put | Delete | Options | Patch | Other(name: string)

  const ApiVersion: string := "v0.1.0"
  const ApiPrefix: string := "/api"
  const IndexFile: string := "/index.html"
  const UnknownContentType: string := "text/plain"

  datatype WindJson = WindJson(mph: real, kph: real, lastUpdated: nat)
  datatype DirJson = DirJson(dir: real, dirLabel: string, lastUpdated: nat)
  datatype RainJson = RainJson(amntIn: real, amntCm: real, lastUpdated: nat)
  datatype TempJson = TempJson(tempF: real, tempC: real, humidity: real, lastUpdated: nat)

  /** The `/latest` document; `None` is a JSON `null`. */
  datatype LatestJson = LatestJson(
    wind: Option<WindJson>,
    windDir: Option<DirJson>,
    temp: Option<TempJson>,
    rain: Option<RainJson>)

  datatype Response =
    | StaticFile(file: string, contentType: string)
    | NotFound
    | Version(version: string)
    | Latest(json: LatestJson)
    /** The request handler panicked. */
    | Panic

  // ---------------------------------------------------------------------
  // File extensions
  // ---------------------------------------------------------------------

  /** The path without its trailing separators. */
  function TrimSlashes(path: string): (t: string)
    ensures t <= path && (t == [] || t[|t| - 1] != '/')
    ensures forall k :: |t| <= k < |path| ==> path[k] == '/'
  {
    if path != [] && path[|path| - 1] == '/' then TrimSlashes(path[..|path| - 1]) else path
  }

  /** The index of the last `c` in `s`, if any. */
  function LastIndexOf(s: string, c: char): (r: Option<nat>)
    ensures r.Some? ==> r.value < |s| && s[r.value] == c && c !in s[r.value + 1..]
    ensures r.None? ==> c !in s
  {
    if s == [] then None
    else if s[|s| - 1] == c then Some(|s| - 1)
    else
      var r := LastIndexOf(s[..|s| - 1], c);
      assert s == s[..|s| - 1] + [s[|s| - 1]];
      if r.Some? then
        assert s[r.value + 1..] == s[..|s| - 1][r.value + 1..] + [s[|s| - 1]];
        r
      else r
  }

  /** The last occurrence is the one with no other occurrence after it. */
  lemma LastIndexOfAt(s: string, c: char, i: nat)
    requires i < |s| && s[i] == c && c !in s[i + 1..]
    ensures LastIndexOf(s, c) == Some(i)
  {
  }

  /** The text after the last `/`, or the whole text when there is none. */
  function LastComponent(path: string): (name: string)
    ensures '/' !in name
    ensures |name| <= |path| && name == path[|path| - |name|..]
    ensures |name| < |path| ==> path[|path| - |name| - 1] == '/'
  {
    match LastIndexOf(path, '/')
    case None => path
    case Some(i) => path[i + 1..]
  }

  /**
   * `Path::extension`: the text after the last `.` of the file name (the last
   * component, trailing separators ignored); a name with no `.`, with its
   * only `.` in front, or that is `.` or `..` has none.
   */
  function Extension(path: string): (ext: Option<string>)
    ensures ext.Some? ==> '.' !in ext.value && '/' !in ext.value
  {
    var name := LastComponent(TrimSlashes(path));
    if name == "." || name == ".." then None
    else match LastIndexOf(name, '.')
      case None => None
      case Some(i) => if i == 0 then None else Some(name[i + 1..])
  }

  /** A file name `stem.ext` has extension `ext`, whatever directory it is in. */
  lemma ExtensionOfFile(dir: string, stem: string, ext: string)
    requires stem != [] && ext != []
    requires '/' !in stem && '/' !in ext && '.' !in ext
    ensures Extension(dir + "/" + stem + "." + ext) == Some(ext)
  {
    var name := stem + "." + ext;
    var path := dir + "/" + stem + "." + ext;
    assert path == dir + "/" + name;
    NameAfterLastSlash(dir, name);
    assert name[|stem| + 1..] == ext;
    LastIndexOfAt(name, '.', |stem|);
    assert |name| >= 3;
    ExtensionAfterDot(path, name, |stem|);
  }

  /** The extension is what follows the last `.` of the name, when that `.` is not in front. */
  lemma ExtensionAfterDot(path: string, name: string, i: nat)
    requires LastComponent(TrimSlashes(path)) == name && |name| >= 3
    requires 0 < i < |name| && LastIndexOf(name, '.') == Some(i)
    ensures Extension(path) == Some(name[i + 1..])
  {
  }

  /** The last component of `dir/name` is `name`, for a name with no separator. */
  lemma NameAfterLastSlash(dir: string, name: string)
    requires name != [] && '/' !in name
    ensures LastComponent(TrimSlashes(dir + "/" + name)) == name
  {
    var path := dir + "/" + name;
    assert path[|path| - 1] == name[|name| - 1];
    assert TrimSlashes(path) == path;
    LastIndexOfAt(path, '/', |dir|) by {
      assert path[|dir| + 1..] == name;
    }
  }

  /** A name with no `.`, or whose only `.` is its first character, has no extension. */
  lemma NoExtension(dir: string, name: string)
    requires name != [] && name != "." && name != ".."
    requires '/' !in name && '.' !in name[1..]
    ensures Extension(dir + "/" + name) == None
  {
    NameAfterLastSlash(dir, name);
    if name[0] == '.' {
      LastIndexOfAt(name, '.', 0);
    }
  }

  /** The root and any path ending in a separator after a plain name. */
  lemma DirectoryExtension(dir: string, name: string)
    requires '/' !in name && '.' !in name && name != []
    ensures Extension("/") == None
    ensures Extension(dir + "/" + name + "/") == None
  {
    assert TrimSlashes("/") == [];
    var path := dir + "/" + name + "/";
    assert TrimSlashes(path) == dir + "/" + name by {
      assert path[..|path| - 1] == dir + "/" + name;
    }
    NoExtension(dir, name);
  }

  /** The content type `get_static_file` sends for a file. */
  function ContentType(path: string): (ct: string)
    ensures ct in {"text/html", "text/css", "application/javascript", UnknownContentType}
  {
    match Extension(path)
    case Some(ext) =>
      if ext == "html" then "text/html"
      else if ext == "css" then "text/css"
      else if ext == "js" then "application/javascript"
      else UnknownContentType
    case None => UnknownContentType
  }

  /** Each known extension has its own type; every other path is plain text. */
  lemma ContentTypeMeaning(path: string)
    ensures ContentType(path) == "text/html" <==> Extension(path) == Some("html")
    ensures ContentType(path) == "text/css" <==> Extension(path) == Some("css")
    ensures ContentType(path) == "application/javascript" <==> Extension(path) == Some("js")
    ensures ContentType(path) == UnknownContentType <==> Extension(path) !in {Some("html"), Some("css"), Some("js")}
  {
  }

  /**
   * `get_static_file`: the file under the static directory, found in
   * `files`, with its content type; a file that cannot be opened is a 404.
   */
  function GetStaticFile(path: string, files: set<string>): (r: Response)
    ensures r.StaticFile? <==> path in files
    ensures r.StaticFile? ==> r.file == path && r.contentType == ContentType(path)
    ensures !r.StaticFile? ==> r == NotFound
  {
    if path in files then StaticFile(path, ContentType(path)) else NotFound
  }

  // ---------------------------------------------------------------------
  // API data
  // ---------------------------------------------------------------------

  /** The wind entry: `null` for an invalid reading, else both speeds and the time. */
  function WindOf(a: Anemometer.AnemometerData): (r: Option<WindJson>)
    ensures r.None? <==> !a.IsValid()
    ensures r.Some? ==> r.value.mph == a.GetMph() && r.value.kph == a.GetKph()
                        && Some(r.value.lastUpdated) == a.lastUpdated
  {
    if a.IsValid() then Some(WindJson(a.GetMph(), a.GetKph(), a.lastUpdated.value)) else None
  }

  /** The rain entry: `null` for an invalid reading, else both amounts and the time. */
  function RainOf(r: Rain.RainData): (j: Option<RainJson>)
    ensures j.None? <==> !r.IsValid()
    ensures j.Some? ==> j.value.amntIn == r.GetAmountIn() && j.value.amntCm == r.GetAmountCm()
                        && Some(j.value.lastUpdated) == r.lastUpdated
  {
    if r.IsValid() then Some(RainJson(r.GetAmountIn(), r.GetAmountCm(), r.lastUpdated.value)) else None
  }

  /** The temperature entry: `null` for an invalid reading, else both scales, humidity and the time. */
  function TempOf(t: Dht.DHTData): (j: Option<TempJson>)
    ensures j.None? <==> !t.IsValid()
    ensures j.Some? ==> j.value.tempF == t.TempFahrenheit() && j.value.tempC == t.temperature
                        && j.value.humidity == t.humidity && Some(j.value.lastUpdated) == t.lastUpdated
  {
    if t.IsValid() then Some(TempJson(t.TempFahrenheit(), t.temperature, t.humidity, t.lastUpdated.value)) else None
  }

  /**
   * The wind-direction entry; looking up the label of a direction of 360
   * degrees or more panics, which is `None` here and a panic of the handler.
   */
  function DirOf(w: Vane.WindVaneData): (r: Option<Option<DirJson>>)
    ensures r.None? <==> w.IsValid() && Vane.Label(w.direction).None?
    ensures r == Some(None) <==> !w.IsValid()
    ensures r.Some? && r.value.Some? ==>
      r.value.value.dir == w.direction && Vane.Label(w.direction) == Some(r.value.value.dirLabel)
  {
    if !w.IsValid() then Some(None)
    else match Vane.Label(w.direction)
      case None => None
      case Some(name) => Some(Some(DirJson(w.direction, name, w.lastUpdated.value)))
  }

  /** `get_api_data`: the part of the path after `/api`. */
  function GetApiData(m: Method, sub: string, latest: DataPoint): (r: Response)
    ensures r == NotFound || r == Panic || r.Version? || r.Latest?
    ensures r.Version? <==> sub == "" || sub == "/"
    ensures r.Version? ==> r.version == ApiVersion
    ensures r.Latest? || r == Panic ==> m == Get && sub == "/latest"
    ensures !(sub == "" || sub == "/") && !(m == Get && sub == "/latest") ==> r == NotFound
    ensures m == Get && sub == "/latest" ==> r.Latest? || r == Panic
  {
    if sub == "" || sub == "/" then Version(ApiVersion)
    else if m == Get && sub == "/latest" then
      match DirOf(latest.direction)
      case None => Panic
      case Some(dir) => Latest(LatestJson(WindOf(latest.anemometer), dir, TempOf(latest.dht), RainOf(latest.rain)))
    else NotFound
  }

  /** The version document is served for `/api` and `/api/` with any method. */
  lemma VersionForAnyMethod(m: Method, latest: DataPoint)
    ensures GetApiData(m, "", latest) == Version("v0.1.0")
    ensures GetApiData(m, "/", latest) == Version("v0.1.0")
  {
  }

  /**
   * GET `/latest`: each sensor's entry is `null` exactly when its reading is
   * invalid, and otherwise carries that reading; the handler panics only
   * for a valid direction of a full turn or more.
   */
  lemma LatestNullIffInvalid(latest: DataPoint)
    ensures var r := GetApiData(Get, "/latest", latest);
      (r.Panic? <==> latest.direction.IsValid() && latest.direction.direction >= 360.0)
      && (!r.Panic? ==> r.Latest?)
      && (r.Latest? ==>
        (r.json.wind.None? <==> !latest.anemometer.IsValid())
        && (r.json.windDir.None? <==> !latest.direction.IsValid())
        && (r.json.temp.None? <==> !latest.dht.IsValid())
        && (r.json.rain.None? <==> !latest.rain.IsValid())
        && (r.json.wind.Some? ==> r.json.wind.value.kph == latest.anemometer.GetKph()
                                  && r.json.wind.value.mph == latest.anemometer.GetMph())
        && (r.json.windDir.Some? ==> r.json.windDir.value.dir == latest.direction.direction
                                     && Vane.Label(latest.direction.direction) == Some(r.json.windDir.value.dirLabel))
        && (r.json.temp.Some? ==> r.json.temp.value.tempC == latest.dht.temperature
                                  && r.json.temp.value.humidity == latest.dht.humidity)
        && (r.json.rain.Some? ==> r.json.rain.value.amntCm == latest.rain.GetAmountCm()))
  {
  }

  /** A direction the vane reported is always labelled, so `/latest` never panics on it. */
  lemma LatestFromVaneNeverPanics(latest: DataPoint, b1: byte, b2: byte, now: nat)
    requires latest.direction == Vane.WindVaneData(Vane.DirectionOf(b1, b2), Some(now))
    ensures GetApiData(Get, "/latest", latest).Latest?
  {
    Vane.DirectionOfLabelled(b1, b2);
    LatestNullIffInvalid(latest);
  }

  // ---------------------------------------------------------------------
  // The service
  // ---------------------------------------------------------------------

  /**
   * `api_service`: GET `/` is the index page, a GET for a path with an
   * extension is a static file, and any other path is API data when its
   * first four characters are `/api` and a 404 otherwise. Slicing the
   * first four characters of a shorter path panics.
   */
  function ApiService(m: Method, path: string, files: set<string>, latest: DataPoint): (r: Response)
    ensures r.StaticFile? ==> m == Get && r.file in files
    ensures r.Version? || r.Latest? ==> |path| >= 4 && path[..4] == ApiPrefix
    ensures r.Latest? ==> m == Get && path == ApiPrefix + "/latest"
    ensures r == Panic ==> |path| < 4 || (m == Get && path == ApiPrefix + "/latest")
  {
    if m == Get && path == "/" then GetStaticFile(IndexFile, files)
    else if m == Get && Extension(path).Some? then GetStaticFile(path, files)
    else if |path| < 4 then Panic
    else if path[..4] == ApiPrefix then GetApiData(m, path[4..], latest)
    else NotFound
  }

  lemma IndexIsHtml()
    ensures Extension(IndexFile) == Some("html")
  {
    assert IndexFile == "" + "/" + "index" + "." + "html" by {
      assert "" + "/" + "index" + "." + "html" == "/index.html";
    }
    ExtensionOfFile("", "index", "html");
  }

  /** GET `/` is the index page, or a 404 without one. */
  lemma RootServesIndex(files: set<string>, latest: DataPoint)
    ensures var r := ApiService(Get, "/", files, latest);
      (r.StaticFile? <==> "/index.html" in files)
      && (r.StaticFile? ==> r.file == "/index.html" && r.contentType == "text/html")
      && (!r.StaticFile? ==> r == NotFound)
  {
    assert ApiService(Get, "/", files, latest) == GetStaticFile(IndexFile, files);
    assert ContentType(IndexFile) == "text/html" by {
      IndexIsHtml();
      ContentTypeMeaning(IndexFile);
    }
  }

  /**
   * Which branch a request takes: static files only for GET with an
   * extension, API data only under the `/api` prefix, a panic exactly for a
   * short path that no earlier branch took, and a 404 for everything else.
   */
  lemma ServiceRouting(m: Method, path: string, files: set<string>, latest: DataPoint)
    ensures var r := ApiService(m, path, files, latest);
      var isStatic := m == Get && (path == "/" || Extension(path).Some?);
      (isStatic ==> r == GetStaticFile(if path == "/" then IndexFile else path, files))
      && (!isStatic && |path| < 4 ==> r == Panic)
      && (!isStatic && |path| >= 4 && path[..4] == "/api" ==> r == GetApiData(m, path[4..], latest))
      && (!isStatic && |path| >= 4 && path[..4] != "/api" ==> r == NotFound)
      && (r.StaticFile? ==> m == Get)
  {
  }

  /** `/api` on its own is the version document. */
  lemma ApiRootIsVersion(latest: DataPoint)
    ensures ApiService(Get, "/api", {}, latest) == Version("v0.1.0")
  {
    ApiHasNoExtension();
    assert "/api"[..4] == ApiPrefix && "/api"[4..] == [];
    assert ApiService(Get, "/api", {}, latest) == GetApiData(Get, [], latest);
  }

  lemma ApiHasNoExtension()
    ensures Extension("/api") == None
  {
    var path := "" + "/" + "api";
    assert path == "/api";
    NoExtension("", "api");
  }

  /** `/latest` answers only GET. */
  lemma PostLatestIsNotFound(latest: DataPoint)
    ensures ApiService(Post, "/api/latest", {}, latest) == NotFound
  {
    assert "/api/latest"[..4] == "/api" && "/api/latest"[4..] == "/latest";
  }

  /** A stylesheet that exists is served as `text/css`. */
  lemma StylesheetIsCss(latest: DataPoint)
    ensures ApiService(Get, "/style.css", {"/style.css"}, latest) == StaticFile("/style.css", "text/css")
  {
    var path := "/style.css";
    assert Extension(path) == Some("css") by {
      assert path == "" + "/" + "style" + "." + "css";
      ExtensionOfFile("", "style", "css");
    }
    StaticRoute(path, {path}, latest);
    ContentTypeMeaning(path);
  }

  /** A GET for a path with an extension other than `/` goes to the static files. */
  lemma StaticRoute(path: string, files: set<string>, latest: DataPoint)
    requires path != "/" && Extension(path).Some?
    ensures ApiService(Get, path, files, latest) == GetStaticFile(path, files)
  {
  }
}
