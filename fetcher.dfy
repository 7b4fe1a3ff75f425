/**
 * The remote component fetcher of `pypes/pypes/src/fetcher.rs`: it parses
 * `remote://registry/skill@version`, answers from the local cache when the
 * component is there, and otherwise downloads the manifest and the component,
 * checks the component's SHA-256 checksum against the manifest, and stores
 * both (and, if the registry has one, the interface file) in the cache.
 *
 * The network and the file system are parameters: the cache's existence test,
 * the HTTP responses by URL, the manifest's TOML reading, the SHA-256 hex
 * digest and the success of each directory creation and file write are
 * functions the caller supplies. The changes a fetch makes to the cache are
 * part of its outcome, on the error paths too.
 */
module Fetcher {
  import opened Wrappers
  import opened Strings

  newtype byte = x: int | 0 <= x < 256

  const Scheme: string := "remote://"

  /** The three parts of a remote URI. */
  datatype RemoteSpec = RemoteSpec(registry: string, skill: string, version: string)

  datatype FetchError =
    | InvalidUri(uri: string)
    | InvalidFormat
    | InvalidSkillSpec
    | RequestFailed(url: string)
    | ManifestUnparsable
    | MissingChecksum
    | UnsupportedChecksum
    | ChecksumMismatch(uri: string)
    | FileSystemFailed(path: Path)

  // ---------------------------------------------------------------------------
  // The URI
  // ---------------------------------------------------------------------------

  /**
   * The URI check and parse at the head of `fetch`: the scheme, at least two
   * `/`-separated parts after it (later parts are ignored), and a skill spec
   * that splits on `@` into exactly two pieces.
   */
  function ParseRemoteUri(uri: string): (r: Result<RemoteSpec, FetchError>)
    ensures !StartsWith(uri, Scheme) ==> r == Err(InvalidUri(uri))
    ensures r.Ok? ==> (StartsWith(uri, Scheme)
      && '/' !in r.value.registry && '/' !in r.value.skill && '/' !in r.value.version
      && '@' !in r.value.skill && '@' !in r.value.version)
  {
    if !StartsWith(uri, Scheme) then Err(InvalidUri(uri))
    else
      var parts := Split(uri[|Scheme|..], '/');
      if |parts| < 2 then Err(InvalidFormat)
      else
        var skillParts := Split(parts[1], '@');
        if |skillParts| != 2 then Err(InvalidSkillSpec)
        else Ok(RemoteSpec(parts[0], skillParts[0], skillParts[1]))
  }

  /** A URI with no `/` after its scheme has too few parts. */
  lemma ParseNeedsTwoParts(uri: string)
    requires StartsWith(uri, Scheme) && '/' !in uri[|Scheme|..]
    ensures ParseRemoteUri(uri) == Err(InvalidFormat)
  {
  }

  lemma SchemeSplit(registry: string, rest: string)
    ensures (Scheme + registry + "/" + rest)[|Scheme|..] == registry + ['/'] + rest
    ensures StartsWith(Scheme + registry + "/" + rest, Scheme)
  {
    var uri := Scheme + registry + "/" + rest;
    assert uri[..|Scheme|] == Scheme;
    assert uri[|Scheme|..] == registry + ['/'] + rest;
  }

  /**
   * With a registry and a skill spec free of `/`, and nothing or a `/` part
   * after them, the URI parses exactly when the spec has exactly one `@`, into
   * the registry, the text before the `@` and the text after it.
   */
  lemma ParseSpec(registry: string, spec: string, tail: string)
    requires '/' !in registry && '/' !in spec
    requires tail == [] || tail[0] == '/'
    ensures var r := ParseRemoteUri(Scheme + registry + "/" + spec + tail);
      (r.Ok? <==> '@' in spec && '@' !in After(spec, '@'))
      && (r.Ok? ==> r.value == RemoteSpec(registry, Before(spec, '@'), After(spec, '@')))
      && (r.Err? ==> r.error == InvalidSkillSpec)
  {
    hide Split, IndexOf;
    var uri := Scheme + registry + "/" + spec + tail;
    SchemeSplit(registry, spec + tail);
    assert uri == Scheme + registry + "/" + (spec + tail);
    SplitJoin(registry, '/', spec + tail);
    var parts := Split(uri[|Scheme|..], '/');
    assert parts == [registry] + Split(spec + tail, '/');
    if tail == [] {
      assert spec + tail == spec;
      assert parts[1] == spec;
    } else {
      assert spec + tail == spec + ['/'] + tail[1..];
      SplitJoin(spec, '/', tail[1..]);
      assert parts[1] == spec;
    }
    if '@' in spec {
      var v := After(spec, '@');
      SplitJoin(Before(spec, '@'), '@', v);
      assert Split(spec, '@') == [Before(spec, '@')] + Split(v, '@');
    }
  }

  /** The documented form `remote://registry/skill@version` parses back into its parts. */
  lemma ParseWellFormed(registry: string, skill: string, version: string)
    requires '/' !in registry && '/' !in skill && '/' !in version
    requires '@' !in skill && '@' !in version
    ensures ParseRemoteUri(Scheme + registry + "/" + skill + "@" + version) == Ok(RemoteSpec(registry, skill, version))
  {
    hide Split;
    var spec := skill + "@" + version;
    assert spec == skill + ['@'] + version;
    BeforeJoin(skill, '@', version);
    ParseSpec(registry, spec, []);
    assert Scheme + registry + "/" + spec + [] == Scheme + registry + "/" + skill + "@" + version;
  }

  /** A skill spec without `@`, or with more than one, is rejected. */
  lemma ParseRejectsSpecs()
    ensures ParseRemoteUri("remote://host/a") == Err(InvalidSkillSpec)
    ensures ParseRemoteUri("remote://host/a@b@c") == Err(InvalidSkillSpec)
  {
    ParseRejectsMissingAt();
    ParseRejectsDoubleAt();
  }

  lemma ParseRejectsMissingAt()
    ensures ParseRemoteUri("remote://host/a") == Err(InvalidSkillSpec)
  {
    hide Split, ParseRemoteUri, IndexOf;
    ParseSpec("host", "a", []);
    assert Scheme + "host" + "/" + "a" + [] == "remote://host/a";
  }

  lemma ParseRejectsDoubleAt()
    ensures ParseRemoteUri("remote://host/a@b@c") == Err(InvalidSkillSpec)
  {
    hide Split, ParseRemoteUri, IndexOf;
    var spec := "a@b@c";
    assert spec == "a" + ['@'] + "b@c";
    BeforeJoin("a", '@', "b@c");
    assert "b@c"[1] == '@';
    ParseSpec("host", spec, []);
    assert Scheme + "host" + "/" + spec + [] == "remote://host/a@b@c";
  }

  // ---------------------------------------------------------------------------
  // Cache path and URLs
  // ---------------------------------------------------------------------------

  /** A file-system path as its components, as `PathBuf::join` builds it. */
  type Path = seq<string>

  /** `cache_dir/registry/skill@version`. */
  function CacheDir(cacheDir: Path, spec: RemoteSpec): Path
  {
    cacheDir + [spec.registry, spec.skill + "@" + spec.version]
  }

  /** `cache_dir/registry/skill@version/component.wasm`. */
  function ComponentPath(cacheDir: Path, spec: RemoteSpec): (r: Path)
    ensures |r| == |cacheDir| + 3 && r[..|cacheDir|] == cacheDir
    ensures r[|cacheDir|] == spec.registry && r[|cacheDir| + 1] == spec.skill + "@" + spec.version
    ensures r[|cacheDir| + 2] == "component.wasm"
  {
    CacheDir(cacheDir, spec) + ["component.wasm"]
  }

  /** Plain `http` for a registry on `localhost`, `https` for every other. */
  function Protocol(registry: string): (r: string)
    ensures r == "http" <==> StartsWith(registry, "localhost")
    ensures r == "http" || r == "https"
  {
    if StartsWith(registry, "localhost") then "http" else "https"
  }

  /** `proto://registry/skill/version`. */
  function BaseUrl(spec: RemoteSpec): string
  {
    Protocol(spec.registry) + "://" + spec.registry + "/" + spec.skill + "/" + spec.version
  }

  function ComponentUrl(spec: RemoteSpec): string { BaseUrl(spec) + "/component.wasm" }

  function ManifestUrl(spec: RemoteSpec): string { BaseUrl(spec) + "/manifest.toml" }

  function WitUrl(spec: RemoteSpec): string { BaseUrl(spec) + "/interface.wit" }

  /**
   * The part of the base URL after `://` splits on `/` back into the registry,
   * the skill and the version: the URL names the parsed component.
   */
  lemma BaseUrlParts(spec: RemoteSpec)
    requires '/' !in spec.registry && '/' !in spec.skill && '/' !in spec.version
    ensures var proto := Protocol(spec.registry);
      BaseUrl(spec) == proto + "://" + (spec.registry + "/" + spec.skill + "/" + spec.version)
      && Split(spec.registry + "/" + spec.skill + "/" + spec.version, '/') == [spec.registry, spec.skill, spec.version]
  {
    hide Split;
    var (r, s, v) := (spec.registry, spec.skill, spec.version);
    assert r + "/" + s + "/" + v == r + ['/'] + (s + ['/'] + v);
    SplitJoin(r, '/', s + ['/'] + v);
    SplitJoin(s, '/', v);
  }

  /** The three URLs are the base URL with different file names. */
  lemma UrlsShareBase(spec: RemoteSpec)
    ensures StartsWith(ComponentUrl(spec), BaseUrl(spec) + "/")
    ensures StartsWith(ManifestUrl(spec), BaseUrl(spec) + "/")
    ensures StartsWith(WitUrl(spec), BaseUrl(spec) + "/")
    ensures ComponentUrl(spec) != ManifestUrl(spec) && ManifestUrl(spec) != WitUrl(spec) && ComponentUrl(spec) != WitUrl(spec)
  {
    var b := BaseUrl(spec);
    assert ComponentUrl(spec)[..|b| + 1] == b + "/";
    assert ManifestUrl(spec)[..|b| + 1] == b + "/";
    assert WitUrl(spec)[..|b| + 1] == b + "/";
    assert ComponentUrl(spec)[|b| + 1] == 'c' && ManifestUrl(spec)[|b| + 1] == 'm' && WitUrl(spec)[|b| + 1] == 'i';
  }

  // ---------------------------------------------------------------------------
  // Checksum
  // ---------------------------------------------------------------------------

  const ChecksumPrefix: string := "sha256:"

  /** `verify_checksum`: only `sha256:` checksums; true exactly when the hex digest matches. */
  function VerifyChecksum(data: seq<byte>, expected: string, digest: seq<byte> -> string): (r: Result<bool, FetchError>)
    ensures r.Err? <==> !StartsWith(expected, ChecksumPrefix)
    ensures r.Err? ==> r.error == UnsupportedChecksum
  {
    if !StartsWith(expected, ChecksumPrefix) then Err(UnsupportedChecksum)
    else Ok(digest(data) == expected[|ChecksumPrefix|..])
  }

  /** A checksum is accepted exactly when it is `sha256:` followed by the data's digest. */
  lemma ChecksumAccepted(data: seq<byte>, expected: string, digest: seq<byte> -> string)
    ensures VerifyChecksum(data, expected, digest) == Ok(true) <==> expected == ChecksumPrefix + digest(data)
  {
    if expected == ChecksumPrefix + digest(data) {
      assert expected[..|ChecksumPrefix|] == ChecksumPrefix;
      assert expected[|ChecksumPrefix|..] == digest(data);
    }
    if VerifyChecksum(data, expected, digest) == Ok(true) {
      assert expected == expected[..|ChecksumPrefix|] + expected[|ChecksumPrefix|..];
    }
  }

  // ---------------------------------------------------------------------------
  // The fetch
  // ---------------------------------------------------------------------------

  /** What a request gives: no response at all, or a status and the body (`None` when reading it fails). */
  datatype Response = NoResponse | Response(success: bool, body: Option<seq<byte>>)

  /** What the TOML reading of the manifest finds at `checksums.component`. */
  datatype ManifestRead = Unparsable | NoChecksum | Checksum(value: string)

  /**
   * The outside world of one fetch: the cache's existence test, the HTTP
   * responses by URL, the manifest's TOML reading, the SHA-256 hex digest, and
   * whether `create_dir_all` and `fs::write` succeed on a path.
   */
  datatype Net = Net(
    cached: Path -> bool,
    get: string -> Response,
    readManifest: seq<byte> -> ManifestRead,
    digest: seq<byte> -> string,
    makeDir: Path -> bool,
    write: Path -> bool)

  /** A change `fetch` makes to the cache. */
  datatype Effect = MadeDir(dir: Path) | Wrote(file: Path, data: seq<byte>)

  /** What `fetch` returns, and the changes it made to the cache before returning, in order. */
  datatype Fetched = Fetched(result: Result<Path, FetchError>, effects: seq<Effect>)

  /** The body of a request whose failure the source propagates with `?`; the status is not checked. */
  function Body(r: Response, url: string): Result<seq<byte>, FetchError>
  {
    if r.NoResponse? || r.body.None? then Err(RequestFailed(url)) else Ok(r.body.value)
  }

  function ManifestPath(cacheDir: Path, spec: RemoteSpec): Path { CacheDir(cacheDir, spec) + ["manifest.toml"] }

  function WitPath(cacheDir: Path, spec: RemoteSpec): Path { CacheDir(cacheDir, spec) + ["interface.wit"] }

  /**
   * `fetch`, from the parse to the cache writes. Every `?` and early return
   * of the source gives its error, together with the changes already made.
   */
  function Fetch(uri: string, cacheDir: Path, net: Net): Fetched
  {
    var parsed := ParseRemoteUri(uri);
    if parsed.Err? then Fetched(Err(parsed.error), [])
    else
      var spec := parsed.value;
      var path := ComponentPath(cacheDir, spec);
      var dir := CacheDir(cacheDir, spec);
      if net.cached(path) then Fetched(Ok(path), [])
      else if !net.makeDir(dir) then Fetched(Err(FileSystemFailed(dir)), [])
      else
        var made := [MadeDir(dir)];
        var manifest := Body(net.get(ManifestUrl(spec)), ManifestUrl(spec));
        if manifest.Err? then Fetched(Err(manifest.error), made)
        else
          var read := net.readManifest(manifest.value);
          if read.Unparsable? then Fetched(Err(ManifestUnparsable), made)
          else if read.NoChecksum? then Fetched(Err(MissingChecksum), made)
          else
            var component := Body(net.get(ComponentUrl(spec)), ComponentUrl(spec));
            if component.Err? then Fetched(Err(component.error), made)
            else
              var ok := VerifyChecksum(component.value, read.value, net.digest);
              if ok.Err? then Fetched(Err(ok.error), made)
              else if !ok.value then Fetched(Err(ChecksumMismatch(uri)), made)
              else if !net.write(path) then Fetched(Err(FileSystemFailed(path)), made)
              else
                var stored := made + [Wrote(path, component.value)];
                var manifestPath := ManifestPath(cacheDir, spec);
                if !net.write(manifestPath) then Fetched(Err(FileSystemFailed(manifestPath)), stored)
                else
                  var saved := stored + [Wrote(manifestPath, manifest.value)];
                  var wit := net.get(WitUrl(spec));
                  if wit.Response? && wit.success then
                    if wit.body.None? then Fetched(Err(RequestFailed(WitUrl(spec))), saved)
                    else if !net.write(WitPath(cacheDir, spec)) then Fetched(Err(FileSystemFailed(WitPath(cacheDir, spec))), saved)
                    else Fetched(Ok(path), saved + [Wrote(WitPath(cacheDir, spec), wit.body.value)])
                  else Fetched(Ok(path), saved)
  }

  /** A cached component is returned as it is, and nothing is downloaded or written. */
  lemma FetchCached(uri: string, cacheDir: Path, net: Net)
    requires ParseRemoteUri(uri).Ok? && net.cached(ComponentPath(cacheDir, ParseRemoteUri(uri).value))
    ensures Fetch(uri, cacheDir, net) == Fetched(Ok(ComponentPath(cacheDir, ParseRemoteUri(uri).value)), [])
  {
  }

  /**
   * Whatever the outcome, a fetch that changed the cache parsed its URI and
   * first created the cache directory. A component it wrote sits at the cache
   * path, and a manifest it wrote beside it names that component's digest.
   * A successful download wrote both, and at most the interface file after
   * them. A successful fetch returns the cache path.
   */
  lemma FetchVerified(uri: string, cacheDir: Path, net: Net)
    ensures var f := Fetch(uri, cacheDir, net);
      (f.result.Ok? || f.effects != []) ==> (ParseRemoteUri(uri).Ok?
        && var spec := ParseRemoteUri(uri).value;
        (f.result.Ok? ==> f.result.value == ComponentPath(cacheDir, spec))
        && |f.effects| <= 4
        && (f.effects != [] ==> f.effects[0] == MadeDir(CacheDir(cacheDir, spec)))
        && (|f.effects| >= 2 ==> f.effects[1].Wrote? && f.effects[1].file == ComponentPath(cacheDir, spec))
        && (|f.effects| >= 3 ==>
              f.effects[2].Wrote? && f.effects[2].file == ManifestPath(cacheDir, spec)
              && net.readManifest(f.effects[2].data) == Checksum(ChecksumPrefix + net.digest(f.effects[1].data)))
        && (|f.effects| == 4 ==> f.effects[3].Wrote? && f.effects[3].file == WitPath(cacheDir, spec))
        && (f.result.Ok? && f.effects != [] ==> |f.effects| >= 3))
  {
    hide ParseRemoteUri;
    var f := Fetch(uri, cacheDir, net);
    if |f.effects| >= 3 {
      var spec := ParseRemoteUri(uri).value;
      var manifest := Body(net.get(ManifestUrl(spec)), ManifestUrl(spec));
      var component := Body(net.get(ComponentUrl(spec)), ComponentUrl(spec));
      var read := net.readManifest(manifest.value);
      ChecksumAccepted(component.value, read.value, net.digest);
    }
  }

  /**
   * Reading the body of a successful `interface.wit` response fails only after
   * the verified component and its manifest are stored: the fetch reports the
   * error, but both files stay in the cache.
   */
  lemma WitBodyFailureKeepsCache(uri: string, cacheDir: Path, net: Net, spec: RemoteSpec, manifest: seq<byte>, component: seq<byte>)
    requires ParseRemoteUri(uri) == Ok(spec) && !net.cached(ComponentPath(cacheDir, spec))
    requires net.makeDir(CacheDir(cacheDir, spec))
    requires net.get(ManifestUrl(spec)) == Response(true, Some(manifest))
    requires net.readManifest(manifest) == Checksum(ChecksumPrefix + net.digest(component))
    requires net.get(ComponentUrl(spec)) == Response(true, Some(component))
    requires net.write(ComponentPath(cacheDir, spec)) && net.write(ManifestPath(cacheDir, spec))
    requires net.get(WitUrl(spec)) == Response(true, None)
    ensures Fetch(uri, cacheDir, net) == Fetched(Err(RequestFailed(WitUrl(spec))),
      [MadeDir(CacheDir(cacheDir, spec)), Wrote(ComponentPath(cacheDir, spec), component), Wrote(ManifestPath(cacheDir, spec), manifest)])
  {
    hide ParseRemoteUri, VerifyChecksum, ComponentPath, CacheDir;
    ChecksumAccepted(component, ChecksumPrefix + net.digest(component), net.digest);
  }

  /**
   * Once a fetch has written the component, even one that then failed, a
   * fetch of the same URI against the cache that now holds it is answered
   * from the cache.
   */
  lemma WrittenThenCached(uri: string, cacheDir: Path, net: Net, i: nat)
    requires i < |Fetch(uri, cacheDir, net).effects|
    requires Fetch(uri, cacheDir, net).effects[i].Wrote?
    ensures var file := Fetch(uri, cacheDir, net).effects[i].file;
      ParseRemoteUri(uri).Ok?
      && (file == ComponentPath(cacheDir, ParseRemoteUri(uri).value) ==>
            Fetch(uri, cacheDir, net.(cached := (p: Path) => net.cached(p) || p == file)) == Fetched(Ok(file), []))
  {
    FetchVerified(uri, cacheDir, net);
  }

  /** A URI that does not parse is rejected before anything is looked up or changed. */
  lemma FetchRejectsBadUri(uri: string, cacheDir: Path, net: Net)
    requires ParseRemoteUri(uri).Err?
    ensures Fetch(uri, cacheDir, net) == Fetched(Err(ParseRemoteUri(uri).error), [])
  {
  }
}
