/** The Request Dispatcher's checkable logic: the 2XX status-line test, the curl
    argument vector, and what the curl and built-in paths do with the header text. */
module HttpRequest {
  import opened Results
  import opened GoStrings
  import Flags

  type Bytes = seq<bv8>

  const StatusErrorPrefix := "Request was unsuccessful. Received response status code outside of 2XX. Got: "
  const CurlFailedPrefix := "Encountered an error while running curl. Error: "

  /** "HTTP/" occurs at index i. */
  predicate HttpAt(line: string, i: int) {
    0 <= i && i + 5 <= |line| && line[i..i + 5] == "HTTP/"
  }

  /** " 2dd " (a space, '2', two digits, a space) occurs at index j. */
  predicate CodeAt(line: string, j: int) {
    0 <= j && j + 5 <= |line| && line[j] == ' ' && line[j + 1] == '2'
    && IsDigit(line[j + 2]) && IsDigit(line[j + 3]) && line[j + 4] == ' '
  }

  /** No line feed in line[lo..hi] (what `.*` in a Go regexp may span). */
  predicate NoNewline(line: string, lo: int, hi: int) {
    0 <= lo <= hi <= |line| && forall k :: lo <= k < hi ==> line[k] != '\n'
  }

  /** Go's unanchored regexp.MatchString("HTTP/.* 2[0-9][0-9] .*", line): some
      "HTTP/" is followed, at or after its end and with no line feed in between,
      by " 2dd "; the final `.*` can match the empty string. */
  ghost predicate StatusPattern(line: string) {
    exists i, j :: HttpAt(line, i) && CodeAt(line, j) && i + 5 <= j && NoNewline(line, i + 5, j)
  }

  /** Whether " 2dd " occurs at or after p with no line feed before it. */
  function CodeFrom(line: string, p: nat): (b: bool)
    requires p <= |line|
    ensures b <==> exists j :: CodeAt(line, j) && p <= j && NoNewline(line, p, j)
    decreases |line| - p
  {
    if p + 5 > |line| then
      assert forall j :: CodeAt(line, j) ==> j + 5 <= |line|;
      false
    else if CodeAt(line, p) then
      assert NoNewline(line, p, p);
      true
    else if line[p] == '\n' then
      false
    else
      var b := CodeFrom(line, p + 1);
      assert forall j :: CodeAt(line, j) && p + 1 <= j && NoNewline(line, p + 1, j) ==> NoNewline(line, p, j);
      b
  }

  /** Whether the pattern matches with its "HTTP/" at or after index i. */
  function HttpFrom(line: string, i: nat): (b: bool)
    requires i <= |line|
    ensures b <==> exists i', j :: HttpAt(line, i') && i <= i' && CodeAt(line, j) && i' + 5 <= j
                                   && NoNewline(line, i' + 5, j)
    decreases |line| - i
  {
    if i + 5 > |line| then false
    else if HttpAt(line, i) && CodeFrom(line, i + 5) then true
    else HttpFrom(line, i + 1)
  }

  /** The regular-expression test, decided by search. */
  function MatchesStatusPattern(line: string): (b: bool)
    ensures b <==> StatusPattern(line)
  {
    HttpFrom(line, 0)
  }

  /** ensureStatusCodeIs2XX: only the text before the first line feed is
      inspected; it passes exactly when it matches the pattern, and otherwise
      the error carries that status line verbatim. */
  function EnsureStatusCodeIs2XX(headers: string): (r: Option<string>)
    ensures r.None? <==> StatusPattern(FirstLine(headers))
    ensures r.Some? ==> r.value == StatusErrorPrefix + FirstLine(headers)
  {
    var httpStatusLine := FirstLine(headers);
    if MatchesStatusPattern(httpStatusLine) then None
    else Some(StatusErrorPrefix + httpStatusLine)
  }

  /** A text without line feeds is its own first line. */
  lemma NoNewlineFirstLine(s: string)
    requires '\n' !in s
    ensures FirstLine(s) == s
  {
  }

  /** The first line of a text that starts with a line and a line feed is that line. */
  lemma {:induction false} FirstLineOfLines(statusLine: string, rest: string)
    requires '\n' !in statusLine
    ensures FirstLine(statusLine + "\n" + rest) == statusLine
  {
    if statusLine != [] {
      var s := statusLine + "\n" + rest;
      assert s[1..] == statusLine[1..] + "\n" + rest;
      FirstLineOfLines(statusLine[1..], rest);
      assert statusLine == [statusLine[0]] + statusLine[1..];
    }
  }

  /** Text after the first line feed never changes the verdict. */
  lemma OnlyFirstLineMatters(statusLine: string, rest: string)
    requires '\n' !in statusLine
    ensures EnsureStatusCodeIs2XX(statusLine + "\n" + rest) == EnsureStatusCodeIs2XX(statusLine)
  {
    FirstLineOfLines(statusLine, rest);
    NoNewlineFirstLine(statusLine);
  }

  /** A single-line header text with "HTTP/" followed, on the same line, by
      " 2dd " passes. */
  lemma SingleLineVerdict(line: string, i: int, j: int)
    requires '\n' !in line
    requires HttpAt(line, i) && CodeAt(line, j) && i + 5 <= j && NoNewline(line, i + 5, j)
    ensures EnsureStatusCodeIs2XX(line).None?
  {
    NoNewlineFirstLine(line);
  }

  /** A 200 status line passes whatever header lines follow it. */
  lemma AcceptsOk(line: string, rest: string)
    requires line == "HTTP/1.1 200 OK\r"
    ensures EnsureStatusCodeIs2XX(line + "\n" + rest).None?
  {
    assert line[..5] == "HTTP/";
    SingleLineVerdict(line, 0, 8);
    OnlyFirstLineMatters(line, rest);
  }

  /** No " 2dd " fits in a line whose '2's all lie too late to start one. */
  lemma NoCodeWithoutTwo(line: string, n: nat)
    requires n <= |line| < n + 4
    requires forall k :: 0 <= k < n ==> line[k] != '2'
    ensures forall j :: !CodeAt(line, j)
  {
  }

  /** A single line with no " 2dd " anywhere is rejected, and the error quotes it. */
  lemma SingleLineRejected(line: string)
    requires '\n' !in line
    requires forall j :: !CodeAt(line, j)
    ensures EnsureStatusCodeIs2XX(line) == Some(StatusErrorPrefix + line)
  {
    NoNewlineFirstLine(line);
  }

  /** A 404 status line is rejected, and the error quotes it. */
  lemma RejectsNotFound(line: string)
    requires line == "HTTP/1.1 404 Not Found"
    ensures EnsureStatusCodeIs2XX(line) == Some(StatusErrorPrefix + line)
  {
    NoCodeWithoutTwo(line, |line|);
    SingleLineRejected(line);
  }

  /** A status line without the space after the code is rejected, and so is the
      empty header text. */
  lemma RejectsMissingReasonSeparator(line: string)
    requires line == "HTTP/1.1 200"
    ensures EnsureStatusCodeIs2XX(line).Some?
    ensures EnsureStatusCodeIs2XX("") == Some(StatusErrorPrefix)
  {
    NoCodeWithoutTwo(line, 9);
    SingleLineRejected(line);
    SingleLineRejected("");
    assert StatusErrorPrefix + "" == StatusErrorPrefix;
  }

  /** The match is unanchored: a " 2dd " later in the line passes a non-2XX status. */
  lemma UnanchoredMatchesLaterCode(line: string)
    requires line == "HTTP/1.1 503 Retry in 250 ms"
    ensures EnsureStatusCodeIs2XX(line).None?
  {
    assert line[..5] == "HTTP/";
    SingleLineVerdict(line, 0, 21);
  }

  /** The curl argument vector: the program, silent POST of the request file,
      the body and header output files, then the headers, then the split extra
      arguments, in order, and the URL last. */
  function CurlArgVector(curlPath: string, requestFile: string, responseFile: string, headersFile: string,
                         headers: seq<string>, extra: seq<string>, url: string): (r: seq<string>)
    ensures |r| == 11 + |headers| + |extra|
    ensures r[..10] == [curlPath, "-s", "-X", "POST", "--data-binary", "@" + requestFile,
                        "--output", responseFile, "--dump-header", headersFile]
    ensures r[10..10 + |headers|] == headers
    ensures r[10 + |headers|..|r| - 1] == extra
    ensures r[|r| - 1] == url
  {
    var fixed := [curlPath, "-s", "-X", "POST", "--data-binary", "@" + requestFile,
                  "--output", responseFile, "--dump-header", headersFile];
    var r := fixed + headers + extra + [url];
    assert r[..10] == fixed;
    assert r[10..10 + |headers|] == headers;
    assert r[10 + |headers|..|r| - 1] == extra;
    r
  }

  /** What the curl subprocess leaves behind: a run error, if any, and the
      contents of the response-body and response-header files. */
  datatype CurlRun = CurlRun(runError: Option<string>, body: Bytes, headerText: string)

  /** The curl path's treatment of the dumped header text: trim it, check the
      status line of the trimmed text, return the trimmed text. */
  function CheckedCurlHeaders(headerText: string): (r: Result<string, string>)
    ensures r.Ok? <==> StatusPattern(FirstLine(TrimSpace(headerText)))
    ensures r.Ok? ==> r.value == TrimSpace(headerText)
    ensures r.Err? ==> r.error == StatusErrorPrefix + FirstLine(TrimSpace(headerText))
  {
    var responseHeadersText := TrimSpace(headerText);
    match EnsureStatusCodeIs2XX(responseHeadersText)
    case None => Ok(responseHeadersText)
    case Some(e) => Err(e)
  }

  /** The built-in client's treatment of its header dump: the status check runs on
      the untrimmed dump, and the trimmed dump is returned. */
  function CheckedInternalHeaders(headerDump: string): (r: Result<string, string>)
    ensures r.Ok? <==> StatusPattern(FirstLine(headerDump))
    ensures r.Ok? ==> r.value == TrimSpace(headerDump)
    ensures r.Err? ==> r.error == StatusErrorPrefix + FirstLine(headerDump)
  {
    match EnsureStatusCodeIs2XX(headerDump)
    case None => Ok(TrimSpace(headerDump))
    case Some(e) => Err(e)
  }

  /** invokeCurlRequest: builds the argument vector step by step, fails before
      running curl when the extra arguments cannot be split, fails when curl
      fails, and otherwise returns the body and the checked, trimmed headers. */
  method InvokeCurlRequest(cfg: Flags.Config, curlPath: string, tmpDir: string,
                           join: (string, string) -> string,
                           split: string -> Result<seq<string>, string>,
                           curl: seq<string> -> CurlRun)
    returns (r: Result<(Bytes, string), string>)
    ensures split(cfg.AdditionalCurlArgs).Err? ==> r == Err(split(cfg.AdditionalCurlArgs).error)
    ensures split(cfg.AdditionalCurlArgs).Ok? ==>
      var run := curl(CurlArgVector(curlPath, join(tmpDir, "request.bin"), join(tmpDir, "response.bin"),
                                    join(tmpDir, "response-headers.txt"), cfg.RequestHeaders,
                                    split(cfg.AdditionalCurlArgs).value, cfg.Url));
      && (run.runError.Some? ==> r == Err(CurlFailedPrefix + run.runError.value))
      && (run.runError.None? && r.Ok? ==>
            r.value == (run.body, TrimSpace(run.headerText)) && StatusPattern(FirstLine(TrimSpace(run.headerText))))
      && (run.runError.None? && r.Err? ==>
            r.error == StatusErrorPrefix + FirstLine(TrimSpace(run.headerText))
            && !StatusPattern(FirstLine(TrimSpace(run.headerText))))
  {
    var requestBinaryFile := join(tmpDir, "request.bin");
    var responseBinaryFile := join(tmpDir, "response.bin");
    var responseHeadersTextFile := join(tmpDir, "response-headers.txt");

    var curlArgs := [curlPath, "-s", "-X", "POST", "--data-binary", "@" + requestBinaryFile,
                     "--output", responseBinaryFile, "--dump-header", responseHeadersTextFile];
    curlArgs := curlArgs + cfg.RequestHeaders;

    var individualAdditionalCurlArgs := split(cfg.AdditionalCurlArgs);
    if individualAdditionalCurlArgs.Err? {
      return Err(individualAdditionalCurlArgs.error);
    }
    curlArgs := curlArgs + individualAdditionalCurlArgs.value;
    curlArgs := curlArgs + [cfg.Url];
    assert curlArgs == CurlArgVector(curlPath, requestBinaryFile, responseBinaryFile, responseHeadersTextFile,
                                     cfg.RequestHeaders, individualAdditionalCurlArgs.value, cfg.Url);

    var run := curl(curlArgs);
    if run.runError.Some? {
      return Err(CurlFailedPrefix + run.runError.value);
    }
    var checked := CheckedCurlHeaders(run.headerText);
    match checked
    case Ok(responseHeadersText) =>
      r := Ok((run.body, responseHeadersText));
    case Err(e) =>
      r := Err(e);
  }
}
