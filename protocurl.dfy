/** The command's top level: the default request header, the older curl request
    and executable lookup, the order of the workflow's steps, and the version
    string. */
module Protocurl {
  import opened Results
  import opened GoStrings
  import Flags
  import HttpRequest
  import Executables

  /** `DefaultPrependedHeaderArgs`: the curl arguments that set the protobuf
      content type. */
  const DefaultPrependedHeaderArgs: seq<string> := ["-H", "'Content-Type: application/x-protobuf'"]

  /** The record with the default header arguments in front of the user's
      headers; no other field changes. */
  function WithDefaultHeaders(c: Flags.Config): (r: Flags.Config)
    ensures r == c.(RequestHeaders := r.RequestHeaders)
    ensures |r.RequestHeaders| == |c.RequestHeaders| + 2
    ensures r.RequestHeaders[..2] == DefaultPrependedHeaderArgs
    ensures r.RequestHeaders[2..] == c.RequestHeaders
  {
    var headers := DefaultPrependedHeaderArgs + c.RequestHeaders;
    assert headers[2..] == c.RequestHeaders;
    c.(RequestHeaders := headers)
  }

  /** Flag propagation reads no header, so adding the default header before or
      after it gives the same record. */
  lemma DefaultHeadersCommuteWithPropagation(c: Flags.Config)
    ensures Flags.Propagated(WithDefaultHeaders(c)) == WithDefaultHeaders(Flags.Propagated(c))
  {
    var d := WithDefaultHeaders(c);
    assert Flags.Propagated(d).RequestHeaders == d.RequestHeaders;
  }

  /** addDefaultHeaderArgument. */
  method AddDefaultHeaderArgument(g: Flags.GlobalConfig)
    modifies g
    ensures g.current == WithDefaultHeaders(old(g.current))
  {
    g.current := g.current.(RequestHeaders := DefaultPrependedHeaderArgs + g.current.RequestHeaders);
  }

  /** The older revision's curl argument vector: the fixed prefix, the headers,
      the URL, and no extra arguments, which is the current vector with an
      empty list of extra arguments. */
  function LegacyCurlArgVector(curlPath: string, requestFile: string, responseFile: string, headersFile: string,
                               headers: seq<string>, url: string): (r: seq<string>)
    ensures r == HttpRequest.CurlArgVector(curlPath, requestFile, responseFile, headersFile, headers, [], url)
    ensures |r| == 11 + |headers|
    ensures r[10..10 + |headers|] == headers && r[|r| - 1] == url
  {
    var fixed := [curlPath, "-s", "-X", "POST", "--data-binary", "@" + requestFile,
                  "--output", responseFile, "--dump-header", headersFile];
    assert fixed + headers + [] + [url] == fixed + headers + [url];
    fixed + headers + [url]
  }

  /** The older findExecutable as a function of the cache: a hit answers from
      the cache, a successful lookup is stored, and a failed lookup is always
      fatal (the error carries the message printed). */
  function LegacyFindStep(cache: map<string, string>, name: string,
                          lookPath: string -> Executables.LookPathResult): (Result<string, string>, map<string, string>)
  {
    if Executables.CacheHit(cache, name) then (Ok(cache[name]), cache)
    else match lookPath(name)
      case LookupFailed(_) => (Err(Executables.NotOnPathMessage(name)), cache)
      case Located(executable) => (Ok(executable), cache[name := executable])
  }

  /** The older findExecutable is the current one with `force` set: the same
      path on success, the same message on a fatal miss, the same cache after. */
  lemma {:induction false} LegacyFindIsForcedFind(cache: map<string, string>, name: string,
                                                  lookPath: string -> Executables.LookPathResult)
    ensures var (legacy, legacyCache) := LegacyFindStep(cache, name, lookPath);
      var (current, currentCache) := Executables.FindStep(cache, name, true, lookPath);
      && legacyCache == currentCache
      && (legacy.Ok? <==> current.Found?)
      && (legacy.Ok? ==> legacy.value == current.path)
      && (legacy.Err? <==> current.Fatal?)
      && (legacy.Err? ==> legacy.error == current.message)
  {
  }

  /** The older findExecutable, on the shared cache. */
  method LegacyFindExecutable(loc: Executables.ExecutableLocator, name: string,
                              lookPath: string -> Executables.LookPathResult) returns (r: Result<string, string>)
    modifies loc
    ensures (r, loc.foundExecutables) == LegacyFindStep(old(loc.foundExecutables), name, lookPath)
  {
    if name in loc.foundExecutables && loc.foundExecutables[name] != "" {
      return Ok(loc.foundExecutables[name]);
    }
    var looked := lookPath(name);
    if looked.LookupFailed? {
      return Err(Executables.NotOnPathMessage(name));
    }
    loc.foundExecutables := loc.foundExecutables[name := looked.path];
    r := Ok(looked.path);
  }

  /** The older invokeCurlRequest: finds curl (fatal when missing), builds the
      argument vector by appends, stops when curl fails, and otherwise returns
      the body and the trimmed headers without any status check. */
  method LegacyInvokeCurlRequest(loc: Executables.ExecutableLocator, cfg: Flags.Config, tmpDir: string,
                                 join: (string, string) -> string,
                                 lookPath: string -> Executables.LookPathResult,
                                 curl: seq<string> -> HttpRequest.CurlRun)
    returns (r: Result<(HttpRequest.Bytes, string), string>)
    modifies loc
    ensures var (found, cache') := LegacyFindStep(old(loc.foundExecutables), Executables.CurlExecutableName, lookPath);
      && loc.foundExecutables == cache'
      && (found.Err? ==> r == Err(found.error))
      && (found.Ok? ==>
            var run := curl(LegacyCurlArgVector(found.value, join(tmpDir, "request.bin"), join(tmpDir, "response.bin"),
                                                join(tmpDir, "response-headers.txt"), cfg.RequestHeaders, cfg.Url));
            && (run.runError.Some? ==> r == Err(HttpRequest.CurlFailedPrefix + run.runError.value))
            && (run.runError.None? ==> r == Ok((run.body, TrimSpace(run.headerText)))))
  {
    var found := LegacyFindExecutable(loc, Executables.CurlExecutableName, lookPath);
    if found.Err? {
      return Err(found.error);
    }
    var curlPath := found.value;
    var requestBinaryFile := join(tmpDir, "request.bin");
    var responseBinaryFile := join(tmpDir, "response.bin");
    var responseHeadersTextFile := join(tmpDir, "response-headers.txt");

    var curlArgs := [curlPath, "-s", "-X", "POST", "--data-binary", "@" + requestBinaryFile,
                     "--output", responseBinaryFile, "--dump-header", responseHeadersTextFile];
    curlArgs := curlArgs + cfg.RequestHeaders;
    curlArgs := curlArgs + [cfg.Url];
    assert curlArgs == LegacyCurlArgVector(curlPath, requestBinaryFile, responseBinaryFile, responseHeadersTextFile,
                                           cfg.RequestHeaders, cfg.Url);

    var run := curl(curlArgs);
    if run.runError.Some? {
      return Err(HttpRequest.CurlFailedPrefix + run.runError.value);
    }
    r := Ok((run.body, TrimSpace(run.headerText)));
  }

  /** The workflow's four steps, in the order they run. */
  datatype Step = BuildRegistry | Encode | Request | Decode

  const WorkflowOrder: seq<Step> := [BuildRegistry, Encode, Request, Decode]

  /** What the workflow does with a configuration record: the steps started
      and the run's result. Each step starts only after the previous one
      succeeded, and a failure ends the run with that step's error. */
  function WorkflowOutcome<Reg>(cfg: Flags.Config,
                                buildRegistry: () -> Result<Reg, string>,
                                encode: (string, string, Reg) -> Result<HttpRequest.Bytes, string>,
                                request: (Flags.Config, HttpRequest.Bytes) -> Result<(HttpRequest.Bytes, string), string>,
                                decode: (HttpRequest.Bytes, string, Reg) -> Result<string, string>)
    : (seq<Step>, Result<string, string>)
  {
    match buildRegistry()
    case Err(e) => ([BuildRegistry], Err(e))
    case Ok(reg) =>
      match encode(cfg.RequestType, cfg.DataText, reg)
      case Err(e) => ([BuildRegistry, Encode], Err(e))
      case Ok(requestBinary) =>
        match request(cfg, requestBinary)
        case Err(e) => ([BuildRegistry, Encode, Request], Err(e))
        case Ok(response) => (WorkflowOrder, decode(response.0, response.1, reg))
  }

  /** The steps started are a prefix of the four in order, all four when the
      run succeeds, and the first step always starts. */
  lemma WorkflowTraceIsPrefix<Reg>(cfg: Flags.Config,
                                   buildRegistry: () -> Result<Reg, string>,
                                   encode: (string, string, Reg) -> Result<HttpRequest.Bytes, string>,
                                   request: (Flags.Config, HttpRequest.Bytes) -> Result<(HttpRequest.Bytes, string), string>,
                                   decode: (HttpRequest.Bytes, string, Reg) -> Result<string, string>)
    ensures var (trace, r) := WorkflowOutcome(cfg, buildRegistry, encode, request, decode);
      && 1 <= |trace| <= |WorkflowOrder| && trace == WorkflowOrder[..|trace|]
      && (r.Ok? ==> trace == WorkflowOrder)
  {
  }

  /** runProtocurlWorkflow: builds the registry, encodes the request text with
      it, sends the request (which reads the headers and the URL from the
      record), and decodes the response with the same registry. `trace` lists
      the steps started. */
  method RunProtocurlWorkflow<Reg>(cfg: Flags.Config,
                                   buildRegistry: () -> Result<Reg, string>,
                                   encode: (string, string, Reg) -> Result<HttpRequest.Bytes, string>,
                                   request: (Flags.Config, HttpRequest.Bytes) -> Result<(HttpRequest.Bytes, string), string>,
                                   decode: (HttpRequest.Bytes, string, Reg) -> Result<string, string>)
    returns (trace: seq<Step>, r: Result<string, string>)
    ensures 1 <= |trace| <= |WorkflowOrder| && trace == WorkflowOrder[..|trace|]
    ensures r.Ok? ==> trace == WorkflowOrder
    ensures buildRegistry().Err? ==> trace == [BuildRegistry] && r == Err(buildRegistry().error)
    ensures buildRegistry().Ok? ==>
      var reg := buildRegistry().value;
      var requestBinary := encode(cfg.RequestType, cfg.DataText, reg);
      && (requestBinary.Err? ==> trace == [BuildRegistry, Encode] && r == Err(requestBinary.error))
      && (requestBinary.Ok? ==>
            var response := request(cfg, requestBinary.value);
            && (response.Err? ==> trace == [BuildRegistry, Encode, Request] && r == Err(response.error))
            && (response.Ok? ==> trace == WorkflowOrder && r == decode(response.value.0, response.value.1, reg)))
    ensures (trace, r) == WorkflowOutcome(cfg, buildRegistry, encode, request, decode)
  {
    trace := [BuildRegistry];
    var protoRegistryFiles := buildRegistry();
    if protoRegistryFiles.Err? {
      return trace, Err(protoRegistryFiles.error);
    }
    trace := trace + [Encode];
    var requestBinary := encode(cfg.RequestType, cfg.DataText, protoRegistryFiles.value);
    if requestBinary.Err? {
      return trace, Err(requestBinary.error);
    }
    trace := trace + [Request];
    var response := request(cfg, requestBinary.value);
    if response.Err? {
      return trace, Err(response.error);
    }
    trace := trace + [Decode];
    var (responseBinary, responseHeaders) := response.value;
    r := decode(responseBinary, responseHeaders, protoRegistryFiles.value);
  }

  /** The steps in the order list are pairwise different, so a prefix of it runs
      each step at most once. */
  lemma WorkflowStepsRunOnce(trace: seq<Step>)
    requires |trace| <= |WorkflowOrder| && trace == WorkflowOrder[..|trace|]
    ensures forall i, j :: 0 <= i < j < |trace| ==> trace[i] != trace[j]
  {
  }

  /** The root command's run: propagate the flags (stopping on the curl
      conflict), add the default header, then run the workflow on the record
      that results, so the request sees the propagated flags and the default
      header in front of the user's headers. */
  method RunRootCommand<Reg>(g: Flags.GlobalConfig,
                             buildRegistry: () -> Result<Reg, string>,
                             encode: (string, string, Reg) -> Result<HttpRequest.Bytes, string>,
                             request: (Flags.Config, HttpRequest.Bytes) -> Result<(HttpRequest.Bytes, string), string>,
                             decode: (HttpRequest.Bytes, string, Reg) -> Result<string, string>)
    returns (trace: seq<Step>, r: Result<string, string>)
    modifies g
    ensures Flags.CurlConflict(Flags.Propagated(old(g.current))) ==>
      g.current == Flags.Propagated(old(g.current)) && trace == [] && r == Err(Flags.BothCurlModesMessage)
    ensures !Flags.CurlConflict(Flags.Propagated(old(g.current))) ==>
      && g.current == WithDefaultHeaders(Flags.Propagated(old(g.current)))
      && (trace, r) == WorkflowOutcome(g.current, buildRegistry, encode, request, decode)
  {
    var err := g.PropagateFlags();
    if err.Some? {
      return [], Err(err.value);
    }
    AddDefaultHeaderArgument(g);
    trace, r := RunProtocurlWorkflow(g.current, buildRegistry, encode, request, decode);
  }

  /** The version line: `version + ", build " + commit`; both parts can be read
      back from it. */
  function VersionString(version: string, commit: string): (r: string)
    ensures |r| == |version| + 8 + |commit|
    ensures r[..|version|] == version
    ensures r[|version|..|version| + 8] == ", build "
    ensures r[|version| + 8..] == commit
  {
    version + ", build " + commit
  }

  /** The placeholder version and commit the unreleased build carries. */
  const UnreleasedVersion := "todo"

  lemma UnreleasedVersionString()
    ensures VersionString(UnreleasedVersion, UnreleasedVersion) == "todo, build todo"
  {
  }
}
