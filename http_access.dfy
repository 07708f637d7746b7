/**
 * The static-file half of the HTTP server: how a request URL is mapped to a
 * file, which files may be served, the content type chosen from the
 * extension, and the status of the response. Path joining and resolution and
 * the file system are inputs of the model (the `Host` below): `resolve` is
 * what the platform makes of a joined path, `read` what reading a resolved
 * path yields.
 */
module HttpAccess {
  import opened Wrappers
  import opened JsStrings
  import FilePath

  /** The outcome of reading a file: its content, or the error code. */
  datatype ReadResult = Content(text: string) | ReadError(code: string)

  /** The environment the handler runs in. */
  datatype Host = Host(
    publicDir: string,          // the directory of the web pages
    userConfig: string,         // the writable `init_data.json`
    bundledConfig: string,      // the `init_data.json` shipped with the program
    userConfigExists: bool,     // whether the writable one is present
    resolve: string -> string,  // path joining and `path.resolve`
    read: string -> ReadResult) // `fs.readFile`

  datatype Response = Response(status: nat, contentType: Option<string>, body: string)

  /** `/` stands for `/index.html`; every other URL is taken as it is. */
  function RequestedUrl(url: string): (r: string)
    ensures url != "/" ==> r == url
  {
    if url == "/" then "/index.html" else url
  }

  /**
   * The file a URL names before resolution: `/init_data.json` is the writable
   * configuration when it exists and the bundled one otherwise; every other
   * URL is looked up under the public directory.
   */
  function IntendedPath(h: Host, url: string): string
  {
    var requested := RequestedUrl(url);
    if requested == "/init_data.json" then
      (if h.userConfigExists then h.userConfig else h.bundledConfig)
    else h.publicDir + requested
  }

  /** The resolved path the handler works on. */
  function ResolvedPath(h: Host, url: string): string
  {
    h.resolve(IntendedPath(h, url))
  }

  /** The public-file test as the handler writes it: the resolved path merely starts with the directory's name. */
  predicate IsPublicAsWritten(publicDir: string, filePath: string)
  {
    publicDir <= filePath
  }

  /** The public-file test as intended: the path is the directory itself or lies below it. */
  predicate IsPublic(publicDir: string, filePath: string)
  {
    filePath == publicDir
    || (|publicDir| < |filePath| && filePath[..|publicDir|] == publicDir && filePath[|publicDir|] == '/')
  }

  /** A resolved path is one of the two configuration files. */
  predicate IsConfigFile(h: Host, filePath: string)
  {
    filePath == h.resolve(h.userConfig) || filePath == h.resolve(h.bundledConfig)
  }

  /** The handler's access check as written: the path passes the written public test, or is a configuration file. */
  predicate IsAllowedAsWritten(h: Host, filePath: string)
  {
    IsPublicAsWritten(h.publicDir, filePath) || IsConfigFile(h, filePath)
  }

  /** The access check as intended: the path lies in the public directory, or is a configuration file. */
  predicate IsAllowed(h: Host, filePath: string)
  {
    IsPublic(h.publicDir, filePath) || IsConfigFile(h, filePath)
  }

  /** The content type for a lower-cased extension. */
  function ContentType(ext: string): (r: string)
    ensures r != "application/octet-stream" ==> |ext| > 0 && ext[0] == '.'
  {
    if ext == ".html" then "text/html"
    else if ext == ".js" then "text/javascript"
    else if ext == ".css" then "text/css"
    else if ext == ".json" then "application/json"
    else if ext == ".png" then "image/png"
    else if ext == ".jpg" then "image/jpeg"
    else if ext == ".gif" then "image/gif"
    else if ext == ".svg" then "image/svg+xml"
    else "application/octet-stream"
  }

  /** The content type of a file, from its extension in lower case. */
  function PageType(filePath: string): (r: string)
  {
    ContentType(ToLowerAscii(FilePath.Extname(filePath)))
  }

  /** The response for the resolved path `filePath`, once the access check has answered `allowed`. */
  function Answer(h: Host, filePath: string, allowed: bool): Response
  {
    if !allowed then Response(403, Some("text/plain"), "Forbidden")
    else
      var contentType := PageType(filePath);
      match h.read(filePath)
      case ReadError(code) =>
        if code == "ENOENT" then Response(404, None, "404 Not Found")
        else Response(500, None, "Sorry, check with the site admin for error: " + code + " ..\n")
      case Content(text) => Response(200, Some(contentType), text)
  }

  /**
   * The response to a GET of `url`, as the handler is written: 200 with the
   * file, 403, 404 for a missing file, or 500 for any other read error.
   */
  function Serve(h: Host, url: string): (r: Response)
    ensures r.status == 200 || r.status == 403 || r.status == 404 || r.status == 500
    ensures r.status == 404 ==> r.body == "404 Not Found"
  {
    var filePath := ResolvedPath(h, url);
    Answer(h, filePath, IsAllowedAsWritten(h, filePath))
  }

  /** The response to a GET of `url` with the intended access check. */
  function ServeIntended(h: Host, url: string): Response
  {
    var filePath := ResolvedPath(h, url);
    Answer(h, filePath, IsAllowed(h, filePath))
  }

  /**
   * The intended test admits exactly the directory and the paths of the form
   * `publicDir + "/" + rest`.
   */
  lemma IsPublicIff(publicDir: string, filePath: string)
    ensures IsPublic(publicDir, filePath) <==>
      filePath == publicDir || exists rest :: filePath == publicDir + "/" + rest
  {
    if filePath != publicDir && IsPublic(publicDir, filePath) {
      var rest := filePath[|publicDir| + 1..];
      assert filePath == publicDir + "/" + rest;
    }
    if exists rest :: filePath == publicDir + "/" + rest {
      var rest :| filePath == publicDir + "/" + rest;
      assert filePath[..|publicDir|] == publicDir;
      assert filePath[|publicDir|] == '/';
    }
  }

  /**
   * The intended test is stricter than the written one, and the paths it
   * drops are exactly those that continue the directory's name with something
   * other than `/`: siblings such as `public-old` next to `public`.
   */
  lemma IntendedIsStricter(publicDir: string, filePath: string)
    ensures IsPublic(publicDir, filePath) ==> IsPublicAsWritten(publicDir, filePath)
    ensures IsPublicAsWritten(publicDir, filePath) && !IsPublic(publicDir, filePath) <==>
      |publicDir| < |filePath| && filePath[..|publicDir|] == publicDir && filePath[|publicDir|] != '/'
  {
  }

  /**
   * The written test lets through a file in a sibling directory whose name
   * starts with the public directory's name.
   */
  lemma SiblingDirectoryAdmitted()
    ensures var dir, p := "/srv/app/public", "/srv/app/public-private/secret.txt";
      IsPublicAsWritten(dir, p) && !IsPublic(dir, p)
  {
    var dir, p := "/srv/app/public", "/srv/app/public-private/secret.txt";
    assert p[..|dir|] == dir;
    assert p[|dir|] == '-';
  }

  /**
   * Refusal depends only on the resolved path: 403 exactly when it neither
   * starts with the public directory's name nor is a configuration file, and
   * then the file is never read.
   */
  lemma ForbiddenIff(h: Host, url: string)
    ensures Serve(h, url).status == 403 <==>
      var p := ResolvedPath(h, url);
      !(h.publicDir <= p) && p != h.resolve(h.userConfig) && p != h.resolve(h.bundledConfig)
    ensures Serve(h, url).status == 403 ==> Serve(h, url) == Response(403, Some("text/plain"), "Forbidden")
    ensures Serve(h, url).status == 403 ==> forall read :: Serve(h.(read := read), url) == Serve(h, url)
  {
  }

  /**
   * As written, a file is sent only when its resolved path starts with the
   * public directory's name or is a configuration file; the body is the file.
   */
  lemma ServedFileIsAllowed(h: Host, url: string)
    requires Serve(h, url).status == 200
    ensures var p := ResolvedPath(h, url);
      h.publicDir <= p || p == h.resolve(h.userConfig) || p == h.resolve(h.bundledConfig)
    ensures Serve(h, url).body == h.read(ResolvedPath(h, url)).text
  {
  }

  /**
   * With the intended check a file is sent only from the public directory or
   * below it, or as one of the configuration files.
   */
  lemma IntendedServesOnlyPublic(h: Host, url: string)
    requires ServeIntended(h, url).status == 200
    ensures var p := ResolvedPath(h, url);
      (p == h.publicDir || exists rest :: p == h.publicDir + "/" + rest)
      || p == h.resolve(h.userConfig) || p == h.resolve(h.bundledConfig)
    ensures ServeIntended(h, url).body == h.read(ResolvedPath(h, url)).text
  {
    IsPublicIff(h.publicDir, ResolvedPath(h, url));
  }

  /**
   * The two handlers answer alike except on a path in a sibling directory
   * whose name extends the public directory's name, which only the written
   * one serves.
   */
  lemma HandlersDifferOnSiblings(h: Host, url: string)
    ensures Serve(h, url) != ServeIntended(h, url) ==>
      var p := ResolvedPath(h, url);
      ServeIntended(h, url).status == 403 && Serve(h, url).status != 403
      && |h.publicDir| < |p| && p[..|h.publicDir|] == h.publicDir && p[|h.publicDir|] != '/'
  {
    IntendedIsStricter(h.publicDir, ResolvedPath(h, url));
  }

  /**
   * A request that resolves into a sibling directory whose name starts with
   * the public directory's name is served by the written handler and refused
   * by the intended one.
   */
  lemma SiblingFileServed(h: Host, url: string, text: string)
    requires url != "/" && url != "/init_data.json"
    requires var p := h.resolve(h.publicDir + url);
      IsPublicAsWritten(h.publicDir, p) && !IsPublic(h.publicDir, p)
      && !IsConfigFile(h, p) && h.read(p) == Content(text)
    ensures Serve(h, url).status == 200 && Serve(h, url).body == text
    ensures ServeIntended(h, url) == Response(403, Some("text/plain"), "Forbidden")
  {
    assert ResolvedPath(h, url) == h.resolve(h.publicDir + url);
  }

  /**
   * The concrete case: with the public directory `/srv/app/public`, the
   * request `/../public-private/secret.txt`, which resolves to
   * `/srv/app/public-private/secret.txt`, is answered with the file as
   * written and with 403 as intended.
   */
  lemma SiblingRequestServed(h: Host, text: string)
    requires h.publicDir == "/srv/app/public"
    requires h.resolve(h.publicDir + "/../public-private/secret.txt") == "/srv/app/public-private/secret.txt"
    requires !IsConfigFile(h, "/srv/app/public-private/secret.txt")
    requires h.read("/srv/app/public-private/secret.txt") == Content(text)
    ensures Serve(h, "/../public-private/secret.txt").status == 200
    ensures Serve(h, "/../public-private/secret.txt").body == text
    ensures ServeIntended(h, "/../public-private/secret.txt").status == 403
  {
    var url := "/../public-private/secret.txt";
    assert |url| != |"/init_data.json"| && |url| != |"/"|;
    SiblingDirectoryAdmitted();
    SiblingFileServed(h, url, text);
  }

  /** The root is the index page. */
  lemma RootIsIndex(h: Host)
    ensures Serve(h, "/") == Serve(h, "/index.html")
  {
  }

  /**
   * `/init_data.json` is never refused: it is the writable configuration when
   * that exists, the bundled one otherwise, wherever the public directory is.
   */
  lemma InitDataServed(h: Host)
    ensures ResolvedPath(h, "/init_data.json") ==
      h.resolve(if h.userConfigExists then h.userConfig else h.bundledConfig)
    ensures Serve(h, "/init_data.json").status != 403
  {
  }

  /** A missing file is a 404, any other read error a 500 naming its code. */
  lemma ReadErrors(h: Host, url: string)
    requires IsAllowedAsWritten(h, ResolvedPath(h, url)) && h.read(ResolvedPath(h, url)).ReadError?
    ensures var code := h.read(ResolvedPath(h, url)).code;
      (code == "ENOENT" ==> Serve(h, url) == Response(404, None, "404 Not Found"))
      && (code != "ENOENT" ==> Serve(h, url).status == 500 && code <= Serve(h, url).body[44..])
  {
    var code := h.read(ResolvedPath(h, url)).code;
    var prefix := "Sorry, check with the site admin for error: ";
    assert |prefix| == 44;
    if code != "ENOENT" {
      var body := prefix + code + " ..\n";
      assert body[44..] == code + " ..\n";
    }
  }

  /** A page that is sent carries the type of its extension, whatever the extension's case. */
  lemma ContentTypeOfPage(h: Host, url: string)
    requires Serve(h, url).status == 200
    ensures Serve(h, url).contentType == Some(PageType(ResolvedPath(h, url)))
  {
    var p := ResolvedPath(h, url);
    assert IsAllowedAsWritten(h, p);
    assert h.read(p).Content?;
  }

  /** Known extensions get their type; a file without an extension is sent as bytes. */
  lemma PageTypes(filePath: string, ext: string)
    requires ToLowerAscii(FilePath.Extname(filePath)) == ext
    ensures ext == ".html" ==> PageType(filePath) == "text/html"
    ensures ext == ".js" ==> PageType(filePath) == "text/javascript"
    ensures ext == ".json" ==> PageType(filePath) == "application/json"
    ensures ext == "" ==> PageType(filePath) == "application/octet-stream"
  {
  }
}
