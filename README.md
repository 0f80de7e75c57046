# protocurl core, modelled in Dafny

protocurl is a command-line tool. It sends a Protobuf request, written in
Protobuf's text format, to an HTTP endpoint and prints the response as text.
It compiles the user's `.proto` files with `protoc`, resolves the request and
response types in the compiled registry, and sends the binary payload with
`curl`.

This project models the tool's decision logic and proves its behaviour:

- **Flags** (`flags.dfy`) gives the configuration record and its flag
  defaults. It also gives the flag-propagation rewrite, which makes implied
  flags explicit and rejects contradictory curl flags. `CurrentConfig` is a
  class whose methods rewrite its record in place.
- **ProtoRegistry** (`proto_registry.dfy`) covers the descriptor compiler's
  argument logic and the message resolver:
  - which `.proto` files go to protoc;
  - the dir-prefixed file arguments;
  - the protoc argument vector;
  - how a type identifier resolves to exactly one message. An identifier with
    the inference prefix is found by a pre-order, bare-name search through
    all files. Any other identifier goes to exact lookup.
- **HttpRequest** (`http_request.dfy`) decides what the two transports do
  with a response:
  - the 2XX status-line test, as Go's unanchored `regexp.MatchString` reads
    `HTTP/.* 2[0-9][0-9] .*`;
  - the curl argument vector;
  - on the curl path, trimming the header text before the status check.
- **Executables** (`executables.dfy`) locates executables:
  - the Windows `.exe` suffix rule;
  - custom paths taking precedence;
  - the memoising `foundExecutables` cache, a class over a `map`, with an
    explicit force flag;
  - the choice between the bundled protoc and a global one.
- **Protocurl** (`protocurl.dfy`) is the top level:
  - the default content-type header;
  - the older curl request and the older executable lookup, which is always
    fatal on a miss;
  - the order of the workflow's steps;
  - the version string.
- **GoStrings** (`go_strings.dfy`) restates the parts of Go's `strings`,
  `sort` and `fmt` packages that the core relies on. **Results**
  (`results.dfy`) holds `Option` and `Result`.

Modelling conventions:

- Panics (`PanicOnError`, `PanicWithMessage`, `PanicWithMessageOnError`)
  become `Err`/`Fatal` results.
- The `*[]MessageDescriptor` accumulator of the recursive collectors is an
  input sequence plus an output sequence.
- Collaborators whose code is not modelled become function parameters:
  - `filepath.Join`/`path.Join` (`join`);
  - `shellquote.Split` (`split`);
  - `exec.LookPath` (`lookPath`, taken as fixed for one run);
  - `registry.FindDescriptorByName` (`find`);
  - `runtime.GOOS` (`goos`);
  - `filepath.Separator` (`sep`);
  - the value of `inferredMessagePathPrefix`, which no modelled file
    defines (`inferredPrefix`);
  - the entries `filepath.WalkDir` produces (`walk`), in walk order;
  - the curl subprocess (`curl`, from argument vector to its outcome);
  - the bundled-protoc probe (`bundled`);
  - the four workflow steps.
- Strings are sequences of Unicode code points. Go compares strings bytewise
  on UTF-8, which orders them the same way, so `sort.Strings` is modelled as
  code-point order.

The model follows the code's actual behaviour at three points:

- Exact lookup in `resolveMessageByName` and `findUniqueMessageByFullName`
  calls `EnsureMessageDescriptorIsResolved` with two arguments. The function
  takes three (`src/stdout.go:15`). The model reports the failure that
  function would raise: the "couldn't find any Protobuf message" text,
  followed by the lookup error or the conversion error. The conversion error
  formats the whole descriptor found with `%s` (`src/protoRegistry.go:172`).
  That rendering belongs to the protobuf library, so the model carries it as
  an opaque string (`OtherDescriptor.formatted`) rather than computing it.
- The regular expression is unanchored. A first line such as
  `HTTP/1.1 503 Retry in 250 ms` therefore passes the 2XX check.
  `HttpRequest.UnanchoredMatchesLaterCode` states this. It is modelled as the
  code behaves.
- `findProtocExecutable` discards the error of a forced lookup.
  `Executables.ForcedLookupNeverMissing` shows that the error cannot occur: a
  forced miss is fatal first.

## Model

| member | source | states |
|---|---|---|
| `Flags.DefaultsArePropagated` | src/flags.go:9-59 | Propagating the flag defaults changes nothing and raises no conflict. |
| `Flags.Propagated` | src/flags.go:64-81 | Only `DisplayBinaryAndHttp`, `Verbose`, `ForceCurl` and `GlobalProtoc` change. `Verbose` is true iff `-v` and not `-q`. `-D` is true iff (`-D` or `-v`) and not `-q`. `--curl` is true iff it was given, or curl args are non-empty, or a curl path is set. `--protoc` is true iff it was given or a protoc path is set. |
| `Flags.VerboseImpliesDisplay` | src/flags.go:65-67 | Step 1 sets `-D` when `-v` is set and changes nothing else. |
| `Flags.QuietWins` | src/flags.go:69-72 | Step 2 clears `-v` and `-D` when `-q` is set and changes nothing else. |
| `Flags.ImpliedCurl` | src/flags.go:74-76 | Step 3 sets `--curl` when curl args or a curl path are given and changes nothing else. |
| `Flags.ImpliedProtoc` | src/flags.go:78-80 | Step 4 sets `--protoc` when a protoc path is given and changes nothing else. |
| `Flags.ConflictIff` | src/flags.go:74-84 | Propagation rejects a run iff `--no-curl` is set together with `--curl` or with a flag that implies it, such as `--curl-args` with `--no-curl`. |
| `Flags.PropagatedIdempotent` | src/flags.go:64-85 | Propagating a propagated record gives the same record. |
| `Flags.GlobalConfig.constructor` | src/flags.go:9-59 | Before parsing, the record holds the flag defaults. |
| `Flags.GlobalConfig.PropagateFlags` | src/flags.go:64-85 | The new record is `Propagated` of the old one. The method reports an error iff curl is then both forced and forbidden, with the fixed message. The fields are rewritten even when the error is reported. |
| `Flags.GlobalConfig.ApplyVerboseImpliesDisplay` | src/flags.go:65-67 | The record after the first `if` is step 1 of the old one. |
| `Flags.GlobalConfig.ApplyQuietWins` | src/flags.go:69-72 | The record after the second `if` is step 2 of the old one. |
| `Flags.GlobalConfig.ApplyImpliedCurl` | src/flags.go:74-76 | The record after the third `if` is step 3 of the old one. |
| `Flags.GlobalConfig.ApplyImpliedProtoc` | src/flags.go:78-80 | The record after the fourth `if` is step 4 of the old one. |
| `GoStrings.TrimPrefix` | src/protoRegistry.go:140 | With the prefix present, the prefix followed by the result is the input. Otherwise the result is the input. |
| `GoStrings.TrimSpace` | src/httpRequest.go:97 | The result is a contiguous slice of the input. Only white space (Go's `unicode.IsSpace`) is removed on either side. The result neither starts nor ends with white space. |
| `GoStrings.FirstLine` | src/httpRequest.go:105 | The result is a prefix of the input and has no line feed. It is the whole input or stops at a line feed. |
| `GoStrings.SortStrings` | src/protoRegistry.go:196 | The result is sorted ascending (Go's string order) and is a permutation of the input. Duplicates are kept. |
| `GoStrings.SortedPermutationsAreEqual` | src/protoRegistry.go:196 | Two sorted sequences with the same elements are equal, so a sorted order is unique. |
| `GoStrings.SortStringsIgnoresOrder` | src/protoRegistry.go:196 | Sorting gives the same result for any two orderings of the same elements. |
| `GoStrings.Itoa` | src/protoRegistry.go:244-245 | `%d` of a count is non-empty, all digits and without a leading zero, and the digits denote the count. |
| `GoStrings.FormatStringSlice` | src/protoRegistry.go:244-245 | `%v` of a string slice is the elements in order, separated by single spaces, between brackets. |
| `GoStrings.SplitJoinRoundTrip` | src/protoRegistry.go:244-245 | Splitting the space-joined elements at single spaces gives the elements back, when none is empty or holds a space. |
| `GoStrings.FormatStringSliceRoundTrip` | src/protoRegistry.go:244-245 | The text between the brackets splits back into the elements, in order, under the same condition. |
| `ProtoRegistry.FullNames` | src/protoRegistry.go:192-194 | One full name per match, in match order. |
| `ProtoRegistry.PreOrderAppend` | src/protoRegistry.go:207-216 | Searching two message lists one after the other visits the first list's messages, then the second's. |
| `ProtoRegistry.NamedInAppend` | src/protoRegistry.go:220-224 | The name matches of a concatenation are the first part's matches followed by the second part's. |
| `ProtoRegistry.NamedInMembership` | src/protoRegistry.go:220-224 | A message is collected iff it was visited and its bare name equals the searched name. |
| `ProtoRegistry.TopLevelVisited` | src/protoRegistry.go:207-216 | Every top-level message is visited. |
| `ProtoRegistry.NestedVisitedAfterParent` | src/protoRegistry.go:218-227 | Every message declared inside a visited message is visited later, at any depth. |
| `ProtoRegistry.CollectFromMessage` | src/protoRegistry.go:218-227 | The result is the old accumulator followed by the name matches of the message and its nested messages, in pre-order. |
| `ProtoRegistry.CollectFromMessages` | src/protoRegistry.go:207-216 | The result is the old accumulator followed by the name matches of the whole message list, in pre-order. |
| `ProtoRegistry.ErrorMessage` | src/protoRegistry.go:238-247 | "Not found" puts the searched base name right after its fixed opening. "Not unique" is the count-and-names text. A failed exact lookup and a non-message descriptor give the "couldn't find" text, the latter with the conversion error as cause. |
| `ProtoRegistry.NotResolvedMessage` | src/stdout.go:17-23 | The text is the fixed opening, the message type, the fixed hints and the cause. The type, the hint block and the cause can each be read back at fixed positions. |
| `ProtoRegistry.LayoutReadsBack` | src/protoRegistry.go:244-245 | In the layout opening, count, middle, bracketed list, hint, the count is a maximal digit run denoting the count, and the list splits back into the names. |
| `ProtoRegistry.NotUniqueMessageReadsBack` | src/protoRegistry.go:244-245 | The "not unique" text gives back its count and, for names that are non-empty and space-free, the names in order. |
| `ProtoRegistry.EnsureResolvedMessagesAreUnique` | src/protoRegistry.go:238-247 | The check passes iff there is exactly one name. No name gives "not found". Several names give "not unique", with their count and the names as given. |
| `ProtoRegistry.CollectFromRegistry` | src/protoRegistry.go:185-190 | The matches of every file, file after file, in pre-order within each file. |
| `ProtoRegistry.CollectFullNames` | src/protoRegistry.go:192-194 | The full names of the matches, in match order. |
| `ProtoRegistry.FindUniqueMessageByBaseName` | src/protoRegistry.go:178-205 | No match gives "not found". One match returns it. Several matches give "not unique" with their number and their sorted full names, not deduplicated. |
| `ProtoRegistry.FindUniqueMessageByFullName` | src/protoRegistry.go:229-236 | Exact lookup succeeds iff the registry finds the name. Otherwise the error carries the type name and the lookup error. |
| `ProtoRegistry.ResolveMessageByName` | src/protoRegistry.go:162-176 | An identifier starting with the inference prefix is searched by bare name with the prefix removed, with the outcomes above. The search succeeds iff there is exactly one match. Any other identifier is looked up exactly. A found descriptor that is not a message is an error carrying the descriptor's formatted text. |
| `ProtoRegistry.BaseNameMatchesAppend` | src/protoRegistry.go:185-194 | Searching two groups of files one after the other gives the first group's matches and full names, then the second's. |
| `ProtoRegistry.MatchesIgnoreFileOrder` | src/protoRegistry.go:185-194 | Visiting the same files in any other order finds the same matches and full names, with the same multiplicities. |
| `ProtoRegistry.FileOrderDoesNotChangeOutcome` | src/protoRegistry.go:185-205 | The file order changes neither the number of matches, nor the sole match, nor the sorted names reported. So the sort makes the outcome deterministic. |
| `ProtoRegistry.ResolvedIsTheOnlyMatch` | src/protoRegistry.go:178-205 | A successful bare-name result is a message of the registry with the searched name, and every such message is that one. |
| `ProtoRegistry.ProtoPathsAppend` | src/protoRegistry.go:130-153 | The collected paths follow walk order. Each part of a walk contributes its paths in turn. |
| `ProtoRegistry.ProtoPathsSound` | src/protoRegistry.go:139-145 | Every collected path is a visited `.proto` path with the prefix removed. |
| `ProtoRegistry.ProtoPathsComplete` | src/protoRegistry.go:139-145 | Every visited `.proto` path is collected with the prefix removed. |
| `ProtoRegistry.ProtoPathsMembership` | src/protoRegistry.go:132-148 | A path is collected iff it is a visited `.proto` path with the `baseDir + separator` prefix removed. Walk errors and other files contribute nothing. |
| `ProtoRegistry.ProtoPathsKeepExtension` | src/protoRegistry.go:139-140 | Removing the prefix never destroys the `.proto` ending, as long as the separator does not occur in ".proto". |
| `ProtoRegistry.ListAllProtoFilesInDirectory` | src/protoRegistry.go:130-153 | The file list is exactly the walk's `.proto` paths, in walk order, each relative to the base directory. Each walk error prints one line, in order, and the walk continues. |
| `ProtoRegistry.CollectRelevantProtoFiles` | src/protoRegistry.go:115-128 | In infer mode the result is the directory listing above. Otherwise it is exactly the one configured file. |
| `ProtoRegistry.PrependProtoDirToFiles` | src/protoRegistry.go:155-160 | There is one argument per file, in order, each `Join(ProtoFilesDir, f)`. |
| `ProtoRegistry.ProtocArgs` | src/protoRegistry.go:59-66 | The vector is `[protoc, "--include_imports", "-o", out, "-I", googleInclude, "-I", ProtoFilesDir]` followed by the file arguments. |
| `ProtoRegistry.ProtocCommandLine` | src/protoRegistry.go:44-66 | protoc runs with that fixed prefix, writing to `inputfile.bin` in the temporary directory, followed by one joined argument per relevant file. |
| `HttpRequest.CodeFrom` | src/httpRequest.go:106 | The search finds a true result iff " 2dd " occurs at or after the start position with no line feed before it. |
| `HttpRequest.HttpFrom` | src/httpRequest.go:106 | The search finds a true result iff some "HTTP/" at or after the position is followed, across no line feed, by " 2dd ". |
| `HttpRequest.MatchesStatusPattern` | src/httpRequest.go:106 | The decision procedure agrees with the unanchored matching of `HTTP/.* 2[0-9][0-9] .*`, where `.` excludes a line feed. |
| `HttpRequest.EnsureStatusCodeIs2XX` | src/httpRequest.go:104-113 | Only the text before the first line feed is inspected. It passes iff it matches the pattern. Otherwise the error is the fixed prefix followed by that line verbatim. |
| `HttpRequest.OnlyFirstLineMatters` | src/httpRequest.go:105 | Text after the first line feed never changes the verdict. |
| `HttpRequest.SingleLineVerdict` | src/httpRequest.go:105-106 | A one-line header text with "HTTP/" followed by " 2dd " passes. |
| `HttpRequest.SingleLineRejected` | src/httpRequest.go:105-112 | A one-line header text with no " 2dd " is rejected, and the error quotes it. |
| `HttpRequest.AcceptsOk` | src/httpRequest.go:105-106 | "HTTP/1.1 200 OK\r" passes, whatever header lines follow it. |
| `HttpRequest.RejectsNotFound` | src/httpRequest.go:106-112 | "HTTP/1.1 404 Not Found" is rejected with that line in the message. |
| `HttpRequest.RejectsMissingReasonSeparator` | src/httpRequest.go:105-112 | "HTTP/1.1 200", with no space after the code, is rejected. So is the empty header text, with an empty status line in the message. |
| `HttpRequest.UnanchoredMatchesLaterCode` | src/httpRequest.go:106 | The match is unanchored, so "HTTP/1.1 503 Retry in 250 ms" passes. |
| `HttpRequest.CurlArgVector` | src/httpRequest.go:55-72 | The vector is the program, `-s -X POST --data-binary @req --output resp --dump-header hdr`, then the headers in order, then the split extra arguments in order, then the URL last. |
| `HttpRequest.CheckedCurlHeaders` | src/httpRequest.go:97-101 | The curl path checks the status line of the trimmed header text and returns that same trimmed text. |
| `HttpRequest.CheckedInternalHeaders` | src/httpRequest.go:32-36 | The built-in path checks the untrimmed dump and returns it trimmed. |
| `HttpRequest.InvokeCurlRequest` | src/httpRequest.go:39-102 | A failed split of the extra arguments is fatal before curl runs. A curl failure is fatal with its message. Otherwise curl gets exactly the vector above, and the result is the body with the checked, trimmed headers. |
| `Executables.OsAwareExecutableName` | src/executables.go:56-65 | On Windows, ".exe" is appended unless the path already ends in it, so the result always ends in ".exe". Elsewhere the path is unchanged. |
| `Executables.OsAwareExecutableNameIdempotent` | src/executables.go:56-65 | Applying the rule twice equals applying it once. |
| `Executables.CacheHitSkipsLookup` | src/executables.go:70-72 | A non-empty cache entry is returned, the cache is unchanged, and the outcome is the same for every PATH. |
| `Executables.SuccessfulLookupIsMemoised` | src/executables.go:86-91 | A successful lookup of a non-empty path stores that path. The next call for that name returns the same path, whatever the PATH then says, and leaves the cache as it is. |
| `Executables.FailedLookupKeepsCache` | src/executables.go:74-84 | A failed lookup leaves the cache unchanged. Unforced, it returns the error. Forced, it is fatal with the "could not find" message. |
| `Executables.CustomPathTakesPrecedence` | src/executables.go:44-49 | A non-empty custom path is returned with the suffix rule applied and never fails. It depends on neither the cache nor the PATH, and leaves the cache unchanged. |
| `Executables.ForcedLookupNeverMissing` | src/executables.go:74-78 | With force set, a lookup never returns a recoverable error. |
| `Executables.ExecutableLocator.constructor` | src/executables.go:23 | The cache starts empty. |
| `Executables.ExecutableLocator.FindExecutable` | src/executables.go:69-92 | The outcome and the new cache are those of the cache rules above, applied to the old cache. |
| `Executables.ExecutableLocator.GetExecutablePathOrLookup` | src/executables.go:43-53 | A custom path wins. Otherwise the OS-aware name is looked up with the caller's force flag. |
| `Executables.ExecutableLocator.FindProtocExecutable` | src/executables.go:25-37 | Without `--protoc`, the bundled protoc is used, `isBundled` is true and the cache is untouched. With it, the custom protoc path or a forced lookup of "protoc" decides and `isBundled` is false. |
| `Executables.ExecutableLocator.FindCurlExecutable` | src/executables.go:39-41 | The custom curl path, or a lookup of "curl" with the caller's force flag. |
| `Protocurl.WithDefaultHeaders` | src/protocurl.go:196-201 | The headers become `["-H", "'Content-Type: application/x-protobuf'"]` followed by the old headers in order, two longer. Nothing else changes. |
| `Protocurl.DefaultHeadersCommuteWithPropagation` | src/protocurl.go:73-83 | Adding the default header before or after flag propagation gives the same record. |
| `Protocurl.AddDefaultHeaderArgument` | src/protocurl.go:196-201 | The configuration record becomes `WithDefaultHeaders` of the old one. |
| `Protocurl.LegacyCurlArgVector` | src/protocurl.go:126-138 | The older vector is the fixed prefix, the headers, then the URL, with no extra arguments. It equals the current vector with an empty extra-argument list. |
| `Protocurl.LegacyFindIsForcedFind` | src/protocurl.go:180-194 | The older lookup agrees with the current one run with force set: the same path, the same fatal message and the same cache. |
| `Protocurl.LegacyFindExecutable` | src/protocurl.go:180-194 | A cache hit is returned. A successful lookup is stored. A failed lookup is always fatal. |
| `Protocurl.LegacyInvokeCurlRequest` | src/protocurl.go:110-164 | A missing curl is fatal. Otherwise curl gets the older vector. A curl failure is fatal, and otherwise the body and the trimmed headers are returned without a status check. |
| `Protocurl.RunProtocurlWorkflow` | src/protocurl.go:86-94 | The steps run in the order registry build, encode, request, decode. Each step starts only after the previous one succeeded. A failure ends the run with that step's error. Encode and decode use the same registry, the request receives the configuration record, and decode gets exactly the request's body and headers. The result is `WorkflowOutcome` of the record. |
| `Protocurl.WorkflowTraceIsPrefix` | src/protocurl.go:86-94 | The steps started are a non-empty prefix of the four in order, and all four when the run succeeds. |
| `Protocurl.WorkflowStepsRunOnce` | src/protocurl.go:86-94 | No step occurs twice in a run. |
| `Protocurl.RunRootCommand` | src/protocurl.go:73-83 | Flags are propagated first. On the curl conflict the run stops with the conflict message before any step and keeps the propagated record. Otherwise the record becomes the propagated one with the default header in front, and the run's steps and result are the workflow's on exactly that record, so the request sees the default header. |
| `Protocurl.VersionString` | src/protocurl.go:203-206 | The version line is `version`, then ", build ", then `commit`, and both parts can be read back from it. |
| `Protocurl.UnreleasedVersionString` | src/protocurl.go:36-37 | With the placeholder values, the line is "todo, build todo". |

## Left out

- Protobuf text/binary conversion (`src/protoConversions.go`), registry construction with `protodesc.NewFiles`, and the registration of `google.protobuf.Empty` are library behaviour. The model takes the registry as a value.
- Running protoc and curl, `http.Post`, `httputil.DumpResponse`, temporary directories, and file reads and writes are I/O. Each is a parameter (`curl`, the workflow steps) or is not represented.
- `filepath.WalkDir`, `filepath.Join`/`path.Join`, `shellquote.Split`, `exec.LookPath` and `runtime.GOOS` are library calls. They are parameters.
- Probing for the bundled protoc and its include directory (`src/bundled.go`, `getInternalProtocExec`, `normaliseFilePath`) is filesystem probing. Its outcome is the `bundled` parameter.
- Verbose and informational printing (`src/stdout.go`, the `fmt.Printf` calls) is output only. Exceptions: the walk error lines, which are returned, and error messages, which are results.
- Cobra's required-flag enforcement, argument parsing, and `rootCmd.Version`/help templates are library behaviour. The version string itself is modelled.
- `invokeInternalHttpRequest` is modelled only in how it checks and trims its header dump (`HttpRequest.CheckedInternalHeaders`). The HTTP call itself is I/O.
- `src/protocurl.go` and `src/executables.go` both declare `findExecutable`, `ProtocExecutableName` and `CurlExecutableName`. The executables version is the live cache. The older version is modelled beside it as `Protocurl.LegacyFindExecutable` on the same cache.
- Panics are modelled as error results. Unwinding and the exact panic value (an error value, not the message printed) are not modelled. For fatal lookups, `Executables.FindOutcome.Fatal` keeps both the message and the cause.
- `HttpRequest.MatchesStatusPattern` decides only the one regular expression used. Go's regexp engine in general is not modelled.
- ProtoRegistry.NotUniqueMessageReadsBack: reads the names back only when none is empty or holds a space. Protobuf full names are dotted identifiers and meet this, but `Msg` does not enforce it.
