/** Locating the protoc and curl executables: the Windows suffix rule, the
    custom-path precedence, the memoising PATH lookup, and the choice between
    the bundled and a global protoc. */
module Executables {
  import opened Results
  import opened GoStrings
  import Flags

  const ProtocExecutableName := "protoc"
  const CurlExecutableName := "curl"
  const WindowsExtension := ".exe"

  /** `extensions[runtime.GOOS]`: ".exe" on Windows, Go's zero value elsewhere. */
  function OsExtension(goos: string): string {
    if goos == "windows" then WindowsExtension else ""
  }

  /** osAwareExecutableName: on Windows, appends ".exe" unless the path already
      ends in it; on every other system, the path unchanged. */
  function OsAwareExecutableName(goos: string, path: string): (r: string)
    ensures goos != "windows" ==> r == path
    ensures goos == "windows" ==> HasSuffix(r, WindowsExtension)
    ensures goos == "windows" && HasSuffix(path, WindowsExtension) ==> r == path
    ensures goos == "windows" && !HasSuffix(path, WindowsExtension) ==> r == path + WindowsExtension
  {
    if goos == "windows" && !HasSuffix(path, OsExtension(goos)) then
      var newPath := path + OsExtension(goos);
      assert newPath[|newPath| - |WindowsExtension|..] == WindowsExtension;
      newPath
    else path
  }

  /** Applying the suffix rule twice is applying it once. */
  lemma OsAwareExecutableNameIdempotent(goos: string, path: string)
    ensures OsAwareExecutableName(goos, OsAwareExecutableName(goos, path)) == OsAwareExecutableName(goos, path)
  {
  }

  /** What exec.LookPath answers for a name, for the fixed PATH of one run. */
  datatype LookPathResult = Located(path: string) | LookupFailed(err: string)

  /** What a lookup hands back: a path, an error the caller may handle, or a
      fatal stop carrying the message printed and the error it panics with. */
  datatype FindOutcome = Found(path: string) | Missing(err: string) | Fatal(message: string, cause: string)

  function NotOnPathMessage(name: string): string {
    "I could not find a '" + name + "' executable. Please check your PATH."
  }

  /** A cache entry counts only when it is non-empty (`foundExecutables[name] != ""`,
      where a missing key reads as ""). */
  predicate CacheHit(cache: map<string, string>, name: string) {
    name in cache && cache[name] != ""
  }

  /** findExecutable as a function of the cache before the call: its outcome and
      the cache after it. */
  function FindStep(cache: map<string, string>, name: string, force: bool, lookPath: string -> LookPathResult)
    : (FindOutcome, map<string, string>)
  {
    if CacheHit(cache, name) then (Found(cache[name]), cache)
    else match lookPath(name)
      case LookupFailed(err) =>
        if force then (Fatal(NotOnPathMessage(name), err), cache)
        else (Missing(err), cache)
      case Located(executable) => (Found(executable), cache[name := executable])
  }

  /** A cache hit answers from the cache, leaves it as it is, and consults no
      lookup: every PATH gives the same answer. */
  lemma CacheHitSkipsLookup(cache: map<string, string>, name: string, force: bool,
                            lookPath: string -> LookPathResult, otherPath: string -> LookPathResult)
    requires CacheHit(cache, name)
    ensures FindStep(cache, name, force, lookPath).0 == Found(cache[name])
    ensures FindStep(cache, name, force, lookPath).1 == cache
    ensures FindStep(cache, name, force, lookPath) == FindStep(cache, name, force, otherPath)
  {
  }

  /** A successful lookup of a non-empty path is remembered: the next call for the
      same name returns the same path whatever the PATH then says, and other
      names' entries are untouched. */
  lemma SuccessfulLookupIsMemoised(cache: map<string, string>, name: string, force: bool, force': bool,
                                   lookPath: string -> LookPathResult, later: string -> LookPathResult)
    requires !CacheHit(cache, name)
    requires lookPath(name).Located? && lookPath(name).path != ""
    ensures var (first, cache') := FindStep(cache, name, force, lookPath);
      && first == Found(lookPath(name).path)
      && cache' == cache[name := lookPath(name).path]
      && FindStep(cache', name, force', later).0 == first
      && FindStep(cache', name, force', later).1 == cache'
  {
  }

  /** A failed lookup never changes the cache; unforced it is an error the caller
      sees, forced it is fatal with the "not on PATH" message. */
  lemma FailedLookupKeepsCache(cache: map<string, string>, name: string, force: bool, lookPath: string -> LookPathResult)
    requires !CacheHit(cache, name) && lookPath(name).LookupFailed?
    ensures FindStep(cache, name, force, lookPath).1 == cache
    ensures !force ==> FindStep(cache, name, force, lookPath).0 == Missing(lookPath(name).err)
    ensures force ==> FindStep(cache, name, force, lookPath).0 == Fatal(NotOnPathMessage(name), lookPath(name).err)
  {
  }

  /** getExecutablePathOrLookup as a function of the cache: a custom path wins,
      otherwise the OS-aware name is looked up. */
  function PathOrLookupStep(cache: map<string, string>, goos: string, optionalExecPath: string, name: string,
                            force: bool, lookPath: string -> LookPathResult): (FindOutcome, map<string, string>)
  {
    if optionalExecPath != "" then (Found(OsAwareExecutableName(goos, optionalExecPath)), cache)
    else
      FindStep(cache, OsAwareExecutableName(goos, name), force, lookPath)
  }

  /** A non-empty custom path is returned with the suffix rule applied, never
      fails, and depends on neither the cache nor the PATH. */
  lemma CustomPathTakesPrecedence(cache: map<string, string>, other: map<string, string>, goos: string,
                                  optionalExecPath: string, name: string, force: bool,
                                  lookPath: string -> LookPathResult, otherPath: string -> LookPathResult)
    requires optionalExecPath != ""
    ensures PathOrLookupStep(cache, goos, optionalExecPath, name, force, lookPath)
            == (Found(OsAwareExecutableName(goos, optionalExecPath)), cache)
    ensures PathOrLookupStep(cache, goos, optionalExecPath, name, force, lookPath).0
            == PathOrLookupStep(other, goos, optionalExecPath, name, force, otherPath).0
  {
  }

  /** With a forced lookup the caller never sees a recoverable error. */
  lemma ForcedLookupNeverMissing(cache: map<string, string>, goos: string, optionalExecPath: string, name: string,
                                 lookPath: string -> LookPathResult)
    ensures !PathOrLookupStep(cache, goos, optionalExecPath, name, true, lookPath).0.Missing?
  {
  }

  /** The process-wide `foundExecutables` map. */
  class ExecutableLocator {
    var foundExecutables: map<string, string>

    /** `make(map[string]string)`. */
    constructor ()
      ensures foundExecutables == map[]
    {
      foundExecutables := map[];
    }

    /** findExecutable: answer a cache hit directly; otherwise look the name up,
        remember a success, and on a miss return the error or, when forced, stop. */
    method FindExecutable(name: string, force: bool, lookPath: string -> LookPathResult) returns (r: FindOutcome)
      modifies this
      ensures (r, foundExecutables) == FindStep(old(foundExecutables), name, force, lookPath)
    {
      if name in foundExecutables && foundExecutables[name] != "" {
        return Found(foundExecutables[name]);
      }
      var looked := lookPath(name);
      if looked.LookupFailed? {
        if force {
          return Fatal(NotOnPathMessage(name), looked.err);
        } else {
          return Missing(looked.err);
        }
      }
      foundExecutables := foundExecutables[name := looked.path];
      r := Found(looked.path);
    }

    /** getExecutablePathOrLookup. */
    method GetExecutablePathOrLookup(goos: string, optionalExecPath: string, name: string, force: bool,
                                     lookPath: string -> LookPathResult) returns (r: FindOutcome)
      modifies this
      ensures (r, foundExecutables)
              == PathOrLookupStep(old(foundExecutables), goos, optionalExecPath, name, force, lookPath)
    {
      if optionalExecPath != "" {
        var execPathWithExt := OsAwareExecutableName(goos, optionalExecPath);
        return Found(execPathWithExt);
      } else {
        r := FindExecutable(OsAwareExecutableName(goos, name), force, lookPath);
      }
    }

    /** findProtocExecutable: without --protoc the bundled protoc is used (a
        failure to find it is fatal); with it, the custom protoc path or a
        forced PATH lookup of "protoc" decides, and the result is not bundled. */
    method FindProtocExecutable(cfg: Flags.Config, goos: string, bundled: Result<string, string>,
                                lookPath: string -> LookPathResult)
      returns (protocPath: Result<string, string>, isBundled: bool)
      modifies this
      ensures isBundled <==> !cfg.GlobalProtoc
      ensures !cfg.GlobalProtoc ==> protocPath == bundled && foundExecutables == old(foundExecutables)
      ensures cfg.GlobalProtoc ==>
        var (outcome, cache') := PathOrLookupStep(old(foundExecutables), goos, cfg.CustomProtocPath,
                                                  ProtocExecutableName, true, lookPath);
        && foundExecutables == cache'
        && (outcome.Found? ==> protocPath == Ok(outcome.path))
        && (outcome.Fatal? ==> protocPath == Err(outcome.message))
        && !outcome.Missing?
    {
      if !cfg.GlobalProtoc {
        return bundled, true;
      }
      ForcedLookupNeverMissing(foundExecutables, goos, cfg.CustomProtocPath, ProtocExecutableName, lookPath);
      var outcome := GetExecutablePathOrLookup(goos, cfg.CustomProtocPath, ProtocExecutableName, true, lookPath);
      isBundled := false;
      match outcome
      case Found(p) => protocPath := Ok(p);
      case Fatal(message, _) => protocPath := Err(message);
      case Missing(_) => protocPath := Ok("");
    }

    /** findCurlExecutable: the custom curl path, or a lookup of "curl" with the
        caller's force flag. */
    method FindCurlExecutable(cfg: Flags.Config, goos: string, force: bool, lookPath: string -> LookPathResult)
      returns (r: FindOutcome)
      modifies this
      ensures (r, foundExecutables)
              == PathOrLookupStep(old(foundExecutables), goos, cfg.CustomCurlPath, CurlExecutableName, force, lookPath)
    {
      r := GetExecutablePathOrLookup(goos, cfg.CustomCurlPath, CurlExecutableName, force, lookPath);
    }
  }
}
