/**
 * The static-file handler both HLS converter servers embed (`SimpleFileHttpHandler.handle`, the
 * same code in both): it maps the request path to a file under the HLS output directory, answers
 * 200 with a content type chosen by the file suffix, or 404.
 *
 * The file system is an input: `files` maps each relative path the handler may ask about to what
 * `File.exists()`, `File.isDirectory()` and `File.getCanonicalPath()` answer for
 * `new File(basePath, relativePath)`; a path absent from the map does not exist, and a canonical
 * path of `None` means `getCanonicalPath()` throws an `IOException`.
 */
module HlsFileHandler {
  import opened Wrappers
  import opened Text

  const PlaylistName: string := "stream.m3u8"

  const PlaylistType: string := "application/vnd.apple.mpegurl"
  const SegmentType: string := "video/MP2T"
  const DefaultType: string := "application/octet-stream"

  /** What the file system says about an existing file; `None` when resolving its canonical path throws. */
  datatype FileEntry = FileEntry(isDirectory: bool, canonicalPath: Option<string>)

  /**
   * The handler's answer for the file it resolved: 200 with a content type, 404, or no response at
   * all when `getCanonicalPath()` throws and `handle` lets the `IOException` propagate.
   */
  datatype Reply =
    | Served(file: string, contentType: string)
    | NotFound(file: string)
    | NoResponse(file: string)

  /** The status code sent, if any. */
  function Status(r: Reply): Option<int> {
    match r
    case Served(_, _) => Some(200)
    case NotFound(_) => Some(404)
    case NoResponse(_) => None
  }

  /** The response headers the handler sets (none besides the length on a 404). */
  function Headers(r: Reply): map<string, string> {
    if r.Served? then map["Content-Type" := r.contentType, "Access-Control-Allow-Origin" := "*"]
    else map[]
  }

  /** The request path without one leading "/", with "" and "/" replaced by the playlist name. */
  function RelativePath(requestPath: string): (rel: string)
    ensures rel != "" && rel != "/"
    ensures rel == PlaylistName || "/" + rel == requestPath || (rel == requestPath && !StartsWith(requestPath, "/"))
  {
    var stripped := if StartsWith(requestPath, "/") then requestPath[1..] else requestPath;
    if stripped == "" || stripped == "/" then PlaylistName else stripped
  }

  /** The playlist default is taken for exactly the request paths "", "/" and "//". */
  lemma RelativePathDefault(requestPath: string)
    ensures requestPath in {"", "/", "//"} <==>
            RelativePath(requestPath) == PlaylistName && requestPath != PlaylistName && requestPath != "/" + PlaylistName
  {
    if StartsWith(requestPath, "/") {
      assert requestPath == "/" + requestPath[1..];
      if requestPath[1..] == "/" {
        assert requestPath == "//";
      } else if requestPath[1..] == "" {
        assert requestPath == "/";
      } else {
        assert requestPath != "//" && requestPath != "/";
      }
    } else if requestPath != "" {
      assert requestPath != "/";
    }
  }

  /** Every other request path loses exactly its leading "/", if it has one, and nothing else. */
  lemma RelativePathStripsOneSlash(p: string)
    requires p != "" && p != "/"
    ensures RelativePath("/" + p) == p
    ensures !StartsWith(p, "/") ==> RelativePath(p) == p
  {
    assert ("/" + p)[1..] == p;
  }

  /** The content type follows the suffix: ".m3u8" playlist, ".ts" segment, anything else a byte stream. */
  function ContentType(rel: string): (t: string)
    ensures t == PlaylistType || t == SegmentType || t == DefaultType
    ensures t == PlaylistType <==> EndsWith(rel, ".m3u8")
    ensures t == SegmentType <==> EndsWith(rel, ".ts")
  {
    if EndsWith(rel, ".m3u8") then
      assert rel[|rel| - 1] == rel[|rel| - 5..][4] == '8';
      PlaylistType
    else if EndsWith(rel, ".ts") then SegmentType
    else DefaultType
  }

  /**
   * `SimpleFileHttpHandler.handle`, as written. The guard evaluates left to right, so the canonical
   * path is asked for (and can throw) only for an existing file that is not a directory.
   */
  function Handle(basePath: string, requestPath: string, files: map<string, FileEntry>): (r: Reply)
    ensures r.file == RelativePath(requestPath)
    ensures Status(r) == Some(200) <==>
              var rel := RelativePath(requestPath);
              rel in files && !files[rel].isDirectory && files[rel].canonicalPath.Some? &&
              StartsWith(files[rel].canonicalPath.value, basePath)
    ensures Status(r).None? <==>
              var rel := RelativePath(requestPath);
              rel in files && !files[rel].isDirectory && files[rel].canonicalPath.None?
    ensures Status(r) == Some(200) || Status(r) == Some(404) || Status(r).None?
    ensures r.Served? ==> r.contentType == ContentType(r.file) && Headers(r)["Access-Control-Allow-Origin"] == "*"
  {
    var rel := RelativePath(requestPath);
    if rel !in files || files[rel].isDirectory then NotFound(rel)
    else match files[rel].canonicalPath
      case None => NoResponse(rel)
      case Some(canonical) => if StartsWith(canonical, basePath) then Served(rel, ContentType(rel)) else NotFound(rel)
  }

  /** A missing file and a directory are both answered with 404, whatever the canonical path. */
  lemma MissingOrDirectoryIsNotFound(basePath: string, requestPath: string, files: map<string, FileEntry>)
    requires var rel := RelativePath(requestPath); rel !in files || files[rel].isDirectory
    ensures Status(Handle(basePath, requestPath, files)) == Some(404)
  {
  }

  /**
   * The guard compares strings, not path components: with base "/srv/hls_output" a request for
   * "/../hls_output_old/key.ts" resolves to "/srv/hls_output_old/key.ts", which lies outside the
   * served directory, and is served with status 200.
   */
  lemma SiblingDirectoryIsServed()
    ensures var files := map["../hls_output_old/key.ts" := FileEntry(false, Some("/srv/hls_output_old/key.ts"))];
            var r := Handle("/srv/hls_output", "/../hls_output_old/key.ts", files);
            Status(r) == Some(200) && !StartsWith("/srv/hls_output_old/key.ts", "/srv/hls_output/")
  {
    var req := "/../hls_output_old/key.ts";
    assert StartsWith(req, "/");
    assert req[1..] == "../hls_output_old/key.ts";
    assert "/srv/hls_output_old/key.ts"[15] != "/srv/hls_output/"[15];
  }

  /** A canonical path names something strictly inside `basePath` when it starts with the base and a separator. */
  predicate InsideBase(canonicalPath: string, basePath: string) {
    StartsWith(canonicalPath, basePath + "/")
  }

  /**
   * The handler with the containment check the guard intends: the canonical path must lie under the
   * base directory. It sends no response exactly when `Handle` sends none.
   */
  function HandleContained(basePath: string, requestPath: string, files: map<string, FileEntry>): (r: Reply)
    ensures r.file == RelativePath(requestPath)
    ensures r.Served? ==>
              r.file in files && files[r.file].canonicalPath.Some? &&
              InsideBase(files[r.file].canonicalPath.value, basePath)
    ensures r.Served? ==> Handle(basePath, requestPath, files) == r
    ensures r.NoResponse? <==> Handle(basePath, requestPath, files).NoResponse?
    ensures r.NotFound? && Handle(basePath, requestPath, files).Served? ==>
              !InsideBase(files[r.file].canonicalPath.value, basePath)
  {
    var rel := RelativePath(requestPath);
    if rel !in files || files[rel].isDirectory then NotFound(rel)
    else match files[rel].canonicalPath
      case None => NoResponse(rel)
      case Some(canonical) => if InsideBase(canonical, basePath) then Served(rel, ContentType(rel)) else NotFound(rel)
  }
}
