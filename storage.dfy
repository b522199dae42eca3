/**
 * Where a fetched page is written: one directory per host under the output
 * directory, and a file name derived from the URL's path and query and, for a
 * query, from the response's media type.
 */
module Storage {
  import opened Text
  import opened Urls
  import opened Wrappers

  /** `Storage`, as `NewStorage` builds it. */
  datatype Storage = Storage(baseDir: string)

  /** The three elements `Save` hands to `filepath.Join`: output directory, host, file name. */
  datatype Target = Target(baseDir: string, host: string, name: string)

  /** The one file write a `Save` performs. */
  datatype FileWrite = FileWrite(target: Target, content: seq<byte>)

  const KnownExtensions: set<string> := {".html", ".css", ".js", ".jpg", ".png"}

  /** The media type of a Content-Type header: what precedes the first ';', trimmed. */
  function MediaType(contentType: string): string {
    TrimSpace(BeforeFirst(contentType, ';'))
  }

  /** The extension the switch of `getExtensionFromMIME` assigns to a media type; unknown ones count as HTML. */
  function ExtensionFor(mediaType: string): string {
    match mediaType
    case "text/html" => ".html"
    case "text/css" => ".css"
    case "application/javascript" => ".js"
    case "text/javascript" => ".js"
    case "image/jpeg" => ".jpg"
    case "image/png" => ".png"
    case _ => ".html"
  }

  /** The switch yields a known extension, and each but ".html" for exactly the media types it lists. */
  lemma ExtensionForCases(mediaType: string)
    ensures ExtensionFor(mediaType) in KnownExtensions
    ensures ExtensionFor(mediaType) == ".css" <==> mediaType == "text/css"
    ensures ExtensionFor(mediaType) == ".js" <==> mediaType == "application/javascript" || mediaType == "text/javascript"
    ensures ExtensionFor(mediaType) == ".jpg" <==> mediaType == "image/jpeg"
    ensures ExtensionFor(mediaType) == ".png" <==> mediaType == "image/png"
  {
  }

  /** Each known extension is a '.' followed by letters only. */
  lemma ExtensionShape(ext: string)
    requires ext in KnownExtensions
    ensures ext != [] && ext[0] == '.'
    ensures forall k :: 0 < k < |ext| ==> 'a' <= ext[k] <= 'z'
  {
  }

  /**
   * `getExtensionFromMIME`: the extension for the media type of a Content-Type
   * header, always one of the five known ones.
   */
  function ExtensionFromMime(contentType: string): (ext: string)
    ensures ext in KnownExtensions
    ensures ext != [] && ext[0] == '.'
    ensures forall k :: 0 < k < |ext| ==> 'a' <= ext[k] <= 'z'
  {
    var mediaType := MediaType(contentType);
    ExtensionForCases(mediaType);
    ExtensionShape(ExtensionFor(mediaType));
    ExtensionFor(mediaType)
  }

  /** Parameters after the media type, such as a charset, do not change the extension. */
  lemma ParametersIgnored(mediaType: string, parameters: string)
    requires ';' !in mediaType
    ensures ExtensionFromMime(mediaType + ";" + parameters) == ExtensionFromMime(mediaType)
  {
    var ct := mediaType + ";" + parameters;
    assert ct == mediaType + [';'] + parameters;
    BeforeFirstOfSplit(mediaType, ';', parameters);
    BeforeFirstNoSep(mediaType, ';');
    assert BeforeFirst(ct, ';') == BeforeFirst(mediaType, ';');
  }

  /** The path a file name starts from: the site root becomes `index.html`. */
  function EffectivePath(u: Url): (p: string)
    ensures p == "index.html" <==> u.path == "" || u.path == "/" || u.path == "index.html"
  {
    if u.path == "" || u.path == "/" then "index.html" else u.path
  }

  /**
   * The file name for a URL, before it is joined under the host directory.
   * The site root without a query is `index.html`; any other path without a
   * query is kept, with ".html" appended exactly when its last element has no
   * '.' and the content type starts with "text/html"; with a query, the name is
   * flattened and ends in the extension the media type picks.
   */
  function FileName(u: Url, contentType: string): (name: string)
    ensures u.rawQuery == "" && (u.path == "" || u.path == "/") ==> name == "index.html"
    ensures u.rawQuery == "" && '.' in LastElement(EffectivePath(u)) ==> name == EffectivePath(u)
    ensures u.rawQuery == "" && u.path != "" && u.path != "/" ==>
      && (name == u.path || name == u.path + ".html")
      && (name == u.path + ".html" <==> '.' !in LastElement(u.path) && HasPrefix(contentType, "text/html"))
    ensures u.rawQuery != "" ==> Flattened(name, EffectivePath(u), u.rawQuery, ExtensionFromMime(contentType))
  {
    var path := EffectivePath(u);
    if u.rawQuery != "" then
      var ext := ExtensionFromMime(contentType);
      FlattenedName(path, u.rawQuery, ext);
      ReplaceChar(path, '.', '_') + "_" + ReplaceChar(u.rawQuery, '&', '_') + ext
    else
      ExtEmptyIffNoDot(path);
      IndexHtmlHasDot();
      assert |path + ".html"| != |path|;
      if Ext(path) == "" && HasPrefix(contentType, "text/html") then path + ".html" else path
  }

  /**
   * The name built from a path `p` and a query `q`: `p` with each '.' turned
   * into '_' (so none is left), a '_', `q` with each '&' turned into '_' (so
   * none is left), then `ext`, which is the name's own `filepath.Ext`.
   */
  predicate Flattened(name: string, p: string, q: string, ext: string) {
    && |name| == |p| + 1 + |q| + |ext|
    && name[..|p|] == ReplaceChar(p, '.', '_')
    && '.' !in name[..|p|]
    && name[|p|] == '_'
    && name[|p| + 1..|p| + 1 + |q|] == ReplaceChar(q, '&', '_')
    && '&' !in name[|p| + 1..|p| + 1 + |q|]
    && name[|p| + 1 + |q|..] == ext
    && Ext(name) == ext
  }

  /** `Save`: the write it performs; creating the directories and writing the file are the caller's I/O. */
  function Save(s: Storage, u: Url, content: seq<byte>, contentType: string): (w: FileWrite)
    ensures w.target.baseDir == s.baseDir && w.target.host == u.host
    ensures w.content == content
    ensures w.target.name == FileName(u, contentType)
  {
    FileWrite(Target(s.baseDir, u.host, FileName(u, contentType)), content)
  }

  lemma IndexHtmlHasDot()
    ensures '.' in LastElement("index.html")
  {
    var p := "index.html";
    LastElementNoSlash(p);
    assert p[5] == '.';
  }

  /** The shape of a name built from a path, a query and a known extension. */
  lemma FlattenedName(p: string, q: string, ext: string)
    requires ext in KnownExtensions
    ensures Flattened(ReplaceChar(p, '.', '_') + "_" + ReplaceChar(q, '&', '_') + ext, p, q, ext)
  {
    var p', q' := ReplaceChar(p, '.', '_'), ReplaceChar(q, '&', '_');
    var stem := p' + "_" + q';
    var name := stem + ext;
    assert name[..|p|] == p';
    assert name[|p| + 1..|p| + 1 + |q|] == q';
    ReplaceCharRemoves(p, '.', '_');
    ReplaceCharRemoves(q, '&', '_');
    ExtensionShape(ext);
    ExtOfSuffix(stem, ext);
  }
}
