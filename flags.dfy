/** The invocation's configuration record, its flag defaults, and the
    rewrite that makes implied flags explicit before anything else runs. */
module Flags {
  import opened Results

  /** Every field of the configuration record that the core reads. */
  datatype Config = Config(
    ProtoFilesDir: string,
    ProtoInputFilePath: string,
    RequestType: string,
    ResponseType: string,
    Url: string,
    DataText: string,
    DisplayBinaryAndHttp: bool,
    BinaryDisplayHexDumpArgs: string,
    RequestHeaders: seq<string>,
    AdditionalCurlArgs: string,
    Verbose: bool,
    ShowOutputOnly: bool,
    GlobalProtoc: bool,
    CustomProtocPath: string,
    ForceCurl: bool,
    CustomCurlPath: string,
    ForceNoCurl: bool,
    InferProtoFiles: bool,
    DecodeRawResponse: bool)

  /** The values the flags take when they are not given on the command line;
      fields without a flag keep Go's zero value. */
  function Defaults(): (c: Config) {
    Config(
      ProtoFilesDir := "/proto",
      ProtoInputFilePath := "",
      RequestType := "",
      ResponseType := "",
      Url := "",
      DataText := "",
      DisplayBinaryAndHttp := false,
      BinaryDisplayHexDumpArgs := "",
      RequestHeaders := [],
      AdditionalCurlArgs := "",
      Verbose := false,
      ShowOutputOnly := false,
      GlobalProtoc := false,
      CustomProtocPath := "",
      ForceCurl := false,
      CustomCurlPath := "",
      ForceNoCurl := false,
      InferProtoFiles := false,
      DecodeRawResponse := false)
  }

  const BothCurlModesMessage := "Both --curl and --no-curl are active.\nI cannot use and not use curl.\nPlease check the supplied and implied arguments via -v."

  /** The record after the four implication steps, in the order propagateFlags applies them:
      -v implies -D; -q switches off -v and -D; curl args or a curl path imply
      --curl; a protoc path implies --protoc. */
  function Propagated(c: Config): (r: Config)
    ensures r == c.(DisplayBinaryAndHttp := r.DisplayBinaryAndHttp, Verbose := r.Verbose,
                    ForceCurl := r.ForceCurl, GlobalProtoc := r.GlobalProtoc)
    ensures r.Verbose <==> c.Verbose && !c.ShowOutputOnly
    ensures r.DisplayBinaryAndHttp <==> (c.DisplayBinaryAndHttp || c.Verbose) && !c.ShowOutputOnly
    ensures r.ForceCurl <==> c.ForceCurl || |c.AdditionalCurlArgs| != 0 || c.CustomCurlPath != ""
    ensures r.GlobalProtoc <==> c.GlobalProtoc || c.CustomProtocPath != ""
  {
    ImpliedProtoc(ImpliedCurl(QuietWins(VerboseImpliesDisplay(c))))
  }

  /** Step 1: -v implies -D. */
  function VerboseImpliesDisplay(c: Config): (r: Config)
    ensures r == c.(DisplayBinaryAndHttp := c.DisplayBinaryAndHttp || c.Verbose)
  {
    if c.Verbose then c.(DisplayBinaryAndHttp := true) else c
  }

  /** Step 2: -q switches off -v and -D. */
  function QuietWins(c: Config): (r: Config)
    ensures r == c.(Verbose := c.Verbose && !c.ShowOutputOnly,
                    DisplayBinaryAndHttp := c.DisplayBinaryAndHttp && !c.ShowOutputOnly)
  {
    if c.ShowOutputOnly then c.(Verbose := false, DisplayBinaryAndHttp := false) else c
  }

  /** Step 3: curl args or a custom curl path imply --curl. */
  function ImpliedCurl(c: Config): (r: Config)
    ensures r == c.(ForceCurl := c.ForceCurl || |c.AdditionalCurlArgs| != 0 || c.CustomCurlPath != "")
  {
    if |c.AdditionalCurlArgs| != 0 || c.CustomCurlPath != "" then c.(ForceCurl := true) else c
  }

  /** Step 4: a custom protoc path implies --protoc. */
  function ImpliedProtoc(c: Config): (r: Config)
    ensures r == c.(GlobalProtoc := c.GlobalProtoc || c.CustomProtocPath != "")
  {
    if c.CustomProtocPath != "" then c.(GlobalProtoc := true) else c
  }

  /** The conflict propagation rejects: curl forced (after the implication) and forbidden. */
  predicate CurlConflict(c: Config) {
    c.ForceCurl && c.ForceNoCurl
  }

  /** Propagation rejects exactly the runs that force and forbid curl, counting
      the flags that imply --curl (for example --curl-args with --no-curl). */
  lemma ConflictIff(c: Config)
    ensures CurlConflict(Propagated(c))
        <==> c.ForceNoCurl && (c.ForceCurl || |c.AdditionalCurlArgs| != 0 || c.CustomCurlPath != "")
  {
  }

  /** Propagating a propagated record changes nothing. */
  lemma PropagatedIdempotent(c: Config)
    ensures Propagated(Propagated(c)) == Propagated(c)
  {
  }

  /** A run with only default flags passes propagation unchanged. */
  lemma DefaultsArePropagated()
    ensures Propagated(Defaults()) == Defaults()
    ensures !CurlConflict(Propagated(Defaults()))
  {
  }

  /** The process-wide `CurrentConfig` record. */
  class GlobalConfig {
    var current: Config

    /** The record as the flag definitions leave it before parsing. */
    constructor ()
      ensures current == Defaults()
    {
      current := Defaults();
    }

    /** propagateFlags: rewrites the record in the four steps, in order, then
        reports the curl conflict. The fields are rewritten even when the
        conflict is reported. */
    method PropagateFlags() returns (err: Option<string>)
      modifies this
      ensures current == Propagated(old(current))
      ensures err.Some? <==> CurlConflict(current)
      ensures err.Some? ==> err.value == BothCurlModesMessage
    {
      ApplyVerboseImpliesDisplay();
      ApplyQuietWins();
      ApplyImpliedCurl();
      ApplyImpliedProtoc();
      if current.ForceCurl && current.ForceNoCurl {
        err := Some(BothCurlModesMessage);
      } else {
        err := None;
      }
    }

    /** The first `if` of propagateFlags. */
    method ApplyVerboseImpliesDisplay()
      modifies this
      ensures current == VerboseImpliesDisplay(old(current))
    {
      if current.Verbose {
        current := current.(DisplayBinaryAndHttp := true);
      }
    }

    /** The second `if`. */
    method ApplyQuietWins()
      modifies this
      ensures current == QuietWins(old(current))
    {
      if current.ShowOutputOnly {
        current := current.(Verbose := false, DisplayBinaryAndHttp := false);
      }
    }

    /** The third `if`. */
    method ApplyImpliedCurl()
      modifies this
      ensures current == ImpliedCurl(old(current))
    {
      if |current.AdditionalCurlArgs| != 0 || current.CustomCurlPath != "" {
        current := current.(ForceCurl := true);
      }
    }

    /** The fourth `if`. */
    method ApplyImpliedProtoc()
      modifies this
      ensures current == ImpliedProtoc(old(current))
    {
      if current.CustomProtocPath != "" {
        current := current.(GlobalProtoc := true);
      }
    }
  }
}
