/** The Descriptor Compiler's argument logic and the Message Resolver:
    which .proto files are handed to protoc and with which arguments, and how
    a type identifier is mapped to exactly one message descriptor. */
module ProtoRegistry {
  import opened Results
  import opened GoStrings
  import Flags

  const ProtoFileExtension := ".proto"

  /** A message descriptor: its fully qualified name, its bare name and the
      messages declared inside it, in declaration order. */
  datatype Msg = Msg(fullName: string, name: string, nested: seq<Msg>)

  /** A file descriptor is its sequence of top-level messages; the registry is
      the sequence of files in the order RangeFiles visits them. */
  type File = seq<Msg>
  type Registry = seq<File>

  /** What an exact-name lookup can resolve to: a message, or a descriptor of
      another kind (an enum, a service, a field, ...). The latter carries the
      text `%s` renders it as; that rendering belongs to the protobuf library
      and is taken as given. */
  datatype Descriptor = MessageDescriptor(msg: Msg) | OtherDescriptor(formatted: string)

  /** FindDescriptorByName's answer. */
  datatype Lookup = Found(descriptor: Descriptor) | NotFound(reason: string)

  datatype ResolutionError =
    | NoMessageWithBaseName(baseName: string)
    | NotUnique(count: nat, fullNames: seq<string>)
    | NoDescriptor(messageType: string, reason: string)
    | NotAMessage(messageType: string, descriptorText: string)

  const NoBaseNameIntro := "No message found with base name: "
  const NoBaseNameHint := ". Check the folder of proto files (-I) and verbose (-v)."
  const NotUniqueIntro := "Message with base name is not unique. Found "
  const NotUniqueMiddle := " messages with package paths: "
  const NotUniqueHint := "\nTry -v verbose or specify the file explicitly via -f <path-to-proto-file>."
  const ConversionErrorIntro := "could not convert descriptor to protoreflect.MessageDescriptor:\n"
  const NotResolvedIntro := "I couldn't find any Protobuf message for the message package-path "
  const NotResolvedHints := ".\n"
    + "Did you correctly -I (include) your proto files directory?\n"
    + "Did you correctly specify the full message package-path to your Protobuf message type?\n"
    + "Try again with -v (verbose).\n"
    + "Error: "

  /** The text of `NotUnique(count, names)`: the count in decimal, then the
      names as `%v` prints them. */
  function NotUniqueMessage(count: nat, names: seq<string>): string {
    NotUniqueIntro + Itoa(count) + NotUniqueMiddle + FormatStringSlice(names) + NotUniqueHint
  }

  /** In `intro + digits + rest`, with `rest` starting with a non-digit, the
      digits after `intro` form a maximal run that denotes `count`. */
  lemma CountReadBack(intro: string, rest: string, count: nat)
    requires rest != [] && !IsDigit(rest[0])
    ensures var r := intro + Itoa(count) + rest;
      var d := |intro| + |Itoa(count)|;
      && d < |r|
      && (forall k :: |intro| <= k < d ==> IsDigit(r[k]))
      && !IsDigit(r[d])
      && DecimalValue(r[|intro|..d]) == count
  {
    var digits := Itoa(count);
    var r := intro + digits + rest;
    assert r[|intro|..|intro| + |digits|] == digits;
  }

  /** In `lead + "[" + words + "]" + hint`, the text between the brackets
      splits back into the words. */
  lemma ListReadBack(lead: string, hint: string, names: seq<string>)
    requires SpaceFreeWords(names)
    ensures var r := lead + FormatStringSlice(names) + hint;
      && |lead| + 1 <= |r| - |hint| - 1
      && SplitOnSpaces(r[|lead| + 1..|r| - |hint| - 1]) == names
  {
    var f := FormatStringSlice(names);
    var r := lead + f + hint;
    assert r[|lead| + 1..|r| - |hint| - 1] == f[1..|f| - 1];
    FormatStringSliceRoundTrip(names);
  }

  /** `r` reads back as `intro`, a maximal run of digits denoting `count`,
      `middle`, then a bracketed list splitting into `names`, then `hint`. */
  predicate CountAndListReadBack(r: string, intro: string, middle: string, hint: string, count: nat,
                                 names: seq<string>)
  {
    var d := |intro| + |Itoa(count)|;
    && d + |middle| + 1 <= |r| - |hint| - 1
    && (forall k :: |intro| <= k < d ==> IsDigit(r[k]))
    && !IsDigit(r[d])
    && DecimalValue(r[|intro|..d]) == count
    && SplitOnSpaces(r[d + |middle| + 1..|r| - |hint| - 1]) == names
  }

  /** The layout `intro + digits + middle + "[" + words + "]" + hint` gives
      back its count and its words when `middle` starts with a non-digit. */
  lemma LayoutReadsBack(intro: string, middle: string, hint: string, count: nat, names: seq<string>)
    requires middle != [] && !IsDigit(middle[0]) && SpaceFreeWords(names)
    ensures CountAndListReadBack(intro + Itoa(count) + middle + FormatStringSlice(names) + hint,
                                 intro, middle, hint, count, names)
  {
    var digits := Itoa(count);
    var f := FormatStringSlice(names);
    var rest := middle + f + hint;
    assert intro + digits + middle + f + hint == intro + digits + rest;
    CountReadBack(intro, rest, count);
    ListReadBack(intro + digits + middle, hint, names);
  }

  /** The count and the full names of a "not unique" report can be read back
      from its text: after the opening comes a maximal run of digits denoting
      the count, and the bracketed list splits into the names, in order, when
      no name is empty or holds a space. */
  lemma NotUniqueMessageReadsBack(count: nat, names: seq<string>)
    requires SpaceFreeWords(names)
    ensures CountAndListReadBack(NotUniqueMessage(count, names), NotUniqueIntro, NotUniqueMiddle, NotUniqueHint,
                                 count, names)
  {
    assert NotUniqueMiddle[0] == ' ';
    LayoutReadsBack(NotUniqueIntro, NotUniqueMiddle, NotUniqueHint, count, names);
  }

  /** The diagnostic each resolution failure is reported with. Each one names
      what was searched for, and an exact-lookup failure ends with its cause. */
  function ErrorMessage(e: ResolutionError): (r: string)
    ensures e.NoMessageWithBaseName? ==>
      |NoBaseNameIntro| + |e.baseName| <= |r| && r[..|NoBaseNameIntro| + |e.baseName|] == NoBaseNameIntro + e.baseName
    ensures e.NotUnique? ==> r == NotUniqueMessage(e.count, e.fullNames)
    ensures e.NoDescriptor? ==> r == NotResolvedMessage(e.messageType, e.reason)
    ensures e.NotAMessage? ==> r == NotResolvedMessage(e.messageType, ConversionErrorIntro + e.descriptorText)
  {
    match e
    case NoMessageWithBaseName(n) =>
      var r := NoBaseNameIntro + n + NoBaseNameHint;
      assert r[..|NoBaseNameIntro| + |n|] == NoBaseNameIntro + n;
      r
    case NotUnique(count, names) => NotUniqueMessage(count, names)
    case NoDescriptor(t, reason) => NotResolvedMessage(t, reason)
    case NotAMessage(t, d) => NotResolvedMessage(t, ConversionErrorIntro + d)
  }

  /** EnsureMessageDescriptorIsResolved's text: the message type follows the
      fixed opening, and the cause ends the text; both can be read back. */
  function NotResolvedMessage(messageType: string, reason: string): (r: string)
    ensures |r| == |NotResolvedIntro| + |messageType| + |NotResolvedHints| + |reason|
    ensures r[..|NotResolvedIntro|] == NotResolvedIntro
    ensures r[|NotResolvedIntro|..|NotResolvedIntro| + |messageType|] == messageType
    ensures r[|NotResolvedIntro| + |messageType|..|r| - |reason|] == NotResolvedHints
    ensures r[|r| - |reason|..] == reason
  {
    var r := NotResolvedIntro + messageType + NotResolvedHints + reason;
    assert r[..|NotResolvedIntro|] == NotResolvedIntro;
    assert r[|NotResolvedIntro|..|NotResolvedIntro| + |messageType|] == messageType;
    assert r[|NotResolvedIntro| + |messageType|..|r| - |reason|] == NotResolvedHints;
    assert r[|r| - |reason|..] == reason;
    r
  }

  // ---------------------------------------------------------------------------
  // Bare-name search

  /** Every message of `ms`, top-level or nested at any depth, each one
      immediately followed by the messages declared inside it (pre-order). */
  function PreOrder(ms: seq<Msg>): seq<Msg>
    decreases ms
  {
    if ms == [] then [] else [ms[0]] + PreOrder(ms[0].nested) + PreOrder(ms[1..])
  }

  /** The messages of `s` whose bare name is `name`, in the order of `s`. */
  function NamedIn(s: seq<Msg>, name: string): seq<Msg> {
    if s == [] then []
    else (if s[0].name == name then [s[0]] else []) + NamedIn(s[1..], name)
  }

  /** All messages of the registry, file after file. */
  function RegistryMessages(reg: Registry): seq<Msg> {
    if reg == [] then [] else RegistryMessages(reg[..|reg| - 1]) + PreOrder(reg[|reg| - 1])
  }

  /** The matches of a bare-name search, in the order the search finds them. */
  function BaseNameMatches(reg: Registry, name: string): seq<Msg> {
    NamedIn(RegistryMessages(reg), name)
  }

  function FullNames(ms: seq<Msg>): (r: seq<string>)
    ensures |r| == |ms|
    ensures forall i :: 0 <= i < |ms| ==> r[i] == ms[i].fullName
  {
    seq(|ms|, i requires 0 <= i < |ms| => ms[i].fullName)
  }

  lemma {:induction false} PreOrderAppend(a: seq<Msg>, b: seq<Msg>)
    ensures PreOrder(a + b) == PreOrder(a) + PreOrder(b)
    decreases a
  {
    if a == [] {
      assert a + b == b;
    } else {
      assert (a + b)[0] == a[0];
      assert (a + b)[1..] == a[1..] + b;
      PreOrderAppend(a[1..], b);
    }
  }

  lemma {:induction false} NamedInAppend(a: seq<Msg>, b: seq<Msg>, name: string)
    ensures NamedIn(a + b, name) == NamedIn(a, name) + NamedIn(b, name)
  {
    if a == [] {
      assert a + b == b;
    } else {
      var head := if a[0].name == name then [a[0]] else [];
      assert (a + b)[0] == a[0];
      assert (a + b)[1..] == a[1..] + b;
      NamedInAppend(a[1..], b, name);
      calc {
        NamedIn(a + b, name);
        head + NamedIn(a[1..] + b, name);
        head + (NamedIn(a[1..], name) + NamedIn(b, name));
        (head + NamedIn(a[1..], name)) + NamedIn(b, name);
      }
    }
  }

  /** A name match is exactly a message of `s` with that bare name. */
  lemma {:induction false} NamedInMembership(s: seq<Msg>, name: string, m: Msg)
    ensures m in NamedIn(s, name) <==> m in s && m.name == name
  {
    if s != [] {
      NamedInMembership(s[1..], name, m);
      assert s == [s[0]] + s[1..];
    }
  }

  /** Every top-level message is visited. */
  lemma {:induction false} TopLevelVisited(ms: seq<Msg>, k: nat)
    requires k < |ms|
    ensures exists j :: 0 <= j < |PreOrder(ms)| && PreOrder(ms)[j] == ms[k]
    decreases ms
  {
    var p := PreOrder(ms);
    var a := PreOrder(ms[0].nested);
    if k == 0 {
      assert p[0] == ms[0];
    } else {
      TopLevelVisited(ms[1..], k - 1);
      var j :| 0 <= j < |PreOrder(ms[1..])| && PreOrder(ms[1..])[j] == ms[1..][k - 1];
      assert p[1 + |a| + j] == ms[k];
    }
  }

  /** Each visited message is visited before every message declared in it, so
      the search reaches nested messages at any depth, parents first. */
  lemma {:induction false} NestedVisitedAfterParent(ms: seq<Msg>, i: nat, c: Msg)
    requires i < |PreOrder(ms)| && c in PreOrder(ms)[i].nested
    ensures exists j :: i < j < |PreOrder(ms)| && PreOrder(ms)[j] == c
    decreases ms
  {
    var p := PreOrder(ms);
    var a := PreOrder(ms[0].nested);
    var rest := PreOrder(ms[1..]);
    assert p == [ms[0]] + a + rest;
    if i == 0 {
      var k :| 0 <= k < |ms[0].nested| && ms[0].nested[k] == c;
      TopLevelVisited(ms[0].nested, k);
      var j :| 0 <= j < |a| && a[j] == c;
      assert p[1 + j] == c;
    } else if i <= |a| {
      assert a[i - 1] == p[i];
      NestedVisitedAfterParent(ms[0].nested, i - 1, c);
      var j :| i - 1 < j < |a| && a[j] == c;
      assert p[1 + j] == c;
    } else {
      assert rest[i - 1 - |a|] == p[i];
      NestedVisitedAfterParent(ms[1..], i - 1 - |a|, c);
      var j :| i - 1 - |a| < j < |rest| && rest[j] == c;
      assert p[1 + |a| + j] == c;
    }
  }

  /** collectRecursivelyAndAppendMessageDescriptorIfNameMatches: appends `m`
      if its bare name matches, then searches the messages nested in it. */
  method CollectFromMessage(m: Msg, name: string, acc: seq<Msg>) returns (out: seq<Msg>)
    ensures out == acc + NamedIn(PreOrder([m]), name)
    decreases m, 0
  {
    out := acc;
    if m.name == name {
      out := out + [m];
    }
    out := CollectFromMessages(m.nested, name, out);
    assert [m][1..] == [];
    assert PreOrder([m]) == [m] + PreOrder(m.nested);
    NamedInAppend([m], PreOrder(m.nested), name);
  }

  /** collectRecursivelyFromMessages: searches each message of `ms` in turn,
      appending the matches to `acc`. */
  method CollectFromMessages(ms: seq<Msg>, name: string, acc: seq<Msg>) returns (out: seq<Msg>)
    ensures out == acc + NamedIn(PreOrder(ms), name)
    decreases ms, 1
  {
    out := acc;
    var i := 0;
    while i < |ms|
      invariant 0 <= i <= |ms|
      invariant out == acc + NamedIn(PreOrder(ms[..i]), name)
    {
      out := CollectFromMessage(ms[i], name, out);
      assert ms[..i + 1] == ms[..i] + [ms[i]];
      PreOrderAppend(ms[..i], [ms[i]]);
      NamedInAppend(PreOrder(ms[..i]), PreOrder([ms[i]]), name);
      i := i + 1;
    }
    assert ms[..i] == ms;
  }

  /** ensureResolvedMessagesAreUnique: zero names is "not found", more than one
      is "not unique" with the count and the names as given; one name passes. */
  function EnsureResolvedMessagesAreUnique(fullNames: seq<string>, searched: string): (r: Option<ResolutionError>)
    ensures r.None? <==> |fullNames| == 1
    ensures |fullNames| == 0 ==> r == Some(NoMessageWithBaseName(searched))
    ensures |fullNames| > 1 ==> r == Some(NotUnique(|fullNames|, fullNames))
  {
    if |fullNames| == 0 then Some(NoMessageWithBaseName(searched))
    else if |fullNames| == 1 then None
    else Some(NotUnique(|fullNames|, fullNames))
  }

  /** registry.RangeFiles with the collecting callback: every file's top-level
      messages, file after file, gathered into one list of matches. */
  method CollectFromRegistry(reg: Registry, searched: string) returns (resolved: seq<Msg>)
    ensures resolved == BaseNameMatches(reg, searched)
  {
    resolved := [];
    var f := 0;
    while f < |reg|
      invariant 0 <= f <= |reg|
      invariant resolved == BaseNameMatches(reg[..f], searched)
    {
      resolved := CollectFromMessages(reg[f], searched, resolved);
      assert reg[..f + 1][..f] == reg[..f];
      NamedInAppend(RegistryMessages(reg[..f]), PreOrder(reg[f]), searched);
      f := f + 1;
    }
    assert reg[..f] == reg;
  }

  /** The loop of findUniqueMessageByBaseName that appends each match's full
      name, in match order. */
  method CollectFullNames(resolved: seq<Msg>) returns (resolvedFullNames: seq<string>)
    ensures resolvedFullNames == FullNames(resolved)
  {
    resolvedFullNames := [];
    var k := 0;
    while k < |resolved|
      invariant 0 <= k <= |resolved|
      invariant resolvedFullNames == FullNames(resolved[..k])
    {
      resolvedFullNames := resolvedFullNames + [resolved[k].fullName];
      k := k + 1;
    }
    assert resolved[..k] == resolved;
  }

  /** findUniqueMessageByBaseName: collects the bare-name matches of every file,
      sorts their full names, and succeeds only on exactly one match. */
  method FindUniqueMessageByBaseName(reg: Registry, searched: string) returns (r: Result<Msg, ResolutionError>)
    ensures var found := BaseNameMatches(reg, searched);
      && (|found| == 0 ==> r == Err(NoMessageWithBaseName(searched)))
      && (|found| == 1 ==> r == Ok(found[0]))
      && (|found| > 1 ==> r == Err(NotUnique(|found|, SortStrings(FullNames(found)))))
  {
    var resolved := CollectFromRegistry(reg, searched);

    var resolvedFullNames := CollectFullNames(resolved);
    resolvedFullNames := SortStrings(resolvedFullNames);

    var check := EnsureResolvedMessagesAreUnique(resolvedFullNames, searched);
    if check.Some? {
      return Err(check.value);
    }
    r := Ok(resolved[0]);
  }

  /** findUniqueMessageByFullName: the registry's exact-name lookup. */
  function FindUniqueMessageByFullName(find: string -> Lookup, messageType: string): (r: Result<Descriptor, ResolutionError>)
    ensures r.Ok? <==> find(messageType).Found?
    ensures r.Ok? ==> r.value == find(messageType).descriptor
    ensures r.Err? ==> r.error == NoDescriptor(messageType, find(messageType).reason)
  {
    match find(messageType)
    case Found(d) => Ok(d)
    case NotFound(reason) => Err(NoDescriptor(messageType, reason))
  }

  /** resolveMessageByName: an identifier starting with the inference prefix is
      searched by bare name (prefix removed); any other identifier is looked up
      exactly, and must then resolve to a message. */
  method ResolveMessageByName(messageType: string, inferredPrefix: string, reg: Registry, find: string -> Lookup)
    returns (r: Result<Msg, ResolutionError>)
    ensures HasPrefix(messageType, inferredPrefix) ==>
      var found := BaseNameMatches(reg, TrimPrefix(messageType, inferredPrefix));
      && (r.Ok? <==> |found| == 1)
      && (r.Ok? ==> r.value == found[0])
      && (|found| == 0 ==> r == Err(NoMessageWithBaseName(TrimPrefix(messageType, inferredPrefix))))
      && (|found| > 1 ==> r == Err(NotUnique(|found|, SortStrings(FullNames(found)))))
    ensures !HasPrefix(messageType, inferredPrefix) ==>
      match find(messageType)
      case NotFound(reason) => r == Err(NoDescriptor(messageType, reason))
      case Found(MessageDescriptor(m)) => r == Ok(m)
      case Found(OtherDescriptor(n)) => r == Err(NotAMessage(messageType, n))
  {
    var descriptor: Result<Descriptor, ResolutionError>;
    if HasPrefix(messageType, inferredPrefix) {
      var byBaseName := FindUniqueMessageByBaseName(reg, TrimPrefix(messageType, inferredPrefix));
      descriptor := match byBaseName
        case Ok(m) => Ok(MessageDescriptor(m))
        case Err(e) => Err(e);
    } else {
      descriptor := FindUniqueMessageByFullName(find, messageType);
    }

    match descriptor
    case Err(e) =>
      r := Err(e);
    case Ok(MessageDescriptor(m)) =>
      r := Ok(m);
    case Ok(OtherDescriptor(n)) =>
      r := Err(NotAMessage(messageType, n));
  }

  /** A successful bare-name resolution returns a message of the registry whose
      bare name is the searched one, and it is the only such message. */
  lemma ResolvedIsTheOnlyMatch(reg: Registry, searched: string, m: Msg)
    requires BaseNameMatches(reg, searched) == [m]
    ensures m in RegistryMessages(reg) && m.name == searched
    ensures forall x :: x in RegistryMessages(reg) && x.name == searched ==> x == m
  {
    NamedInMembership(RegistryMessages(reg), searched, m);
    forall x | x in RegistryMessages(reg) && x.name == searched
      ensures x == m
    {
      NamedInMembership(RegistryMessages(reg), searched, x);
    }
  }

  // ---------------------------------------------------------------------------
  // Independence of the file order

  lemma {:induction false} RegistryMessagesAppend(a: Registry, b: Registry)
    ensures RegistryMessages(a + b) == RegistryMessages(a) + RegistryMessages(b)
    decreases |b|
  {
    if b == [] {
      assert a + b == a;
    } else {
      var b' := b[..|b| - 1];
      assert (a + b)[..|a + b| - 1] == a + b';
      assert (a + b)[|a + b| - 1] == b[|b| - 1];
      RegistryMessagesAppend(a, b');
    }
  }

  lemma FullNamesAppend(x: seq<Msg>, y: seq<Msg>)
    ensures FullNames(x + y) == FullNames(x) + FullNames(y)
  {
  }

  /** The matches of two registries searched one after the other. */
  lemma BaseNameMatchesAppend(a: Registry, b: Registry, name: string)
    ensures BaseNameMatches(a + b, name) == BaseNameMatches(a, name) + BaseNameMatches(b, name)
    ensures FullNames(BaseNameMatches(a + b, name))
            == FullNames(BaseNameMatches(a, name)) + FullNames(BaseNameMatches(b, name))
  {
    RegistryMessagesAppend(a, b);
    NamedInAppend(RegistryMessages(a), RegistryMessages(b), name);
    FullNamesAppend(BaseNameMatches(a, name), BaseNameMatches(b, name));
  }

  /** Taking one file out of the middle of a registry. */
  lemma RemoveFile(reg: Registry, j: nat)
    requires j < |reg|
    ensures reg == reg[..j] + [reg[j]] + reg[j + 1..]
    ensures multiset(reg[..j] + reg[j + 1..]) == multiset(reg) - multiset{reg[j]}
  {
    assert reg == reg[..j] + [reg[j]] + reg[j + 1..];
  }

  /** A file in the middle contributes its matches whatever surrounds it. */
  lemma MatchesAroundFile(left: Registry, f: File, right: Registry, name: string)
    ensures multiset(BaseNameMatches(left + [f] + right, name))
            == multiset(BaseNameMatches(left + right, name)) + multiset(BaseNameMatches([f], name))
    ensures multiset(FullNames(BaseNameMatches(left + [f] + right, name)))
            == multiset(FullNames(BaseNameMatches(left + right, name))) + multiset(FullNames(BaseNameMatches([f], name)))
  {
    BaseNameMatchesAppend(left + [f], right, name);
    BaseNameMatchesAppend(left, [f], name);
    BaseNameMatchesAppend(left, right, name);
  }

  /** Visiting the same files in another order finds the same matches, and
      the same full names, only possibly in another order. */
  lemma {:induction false} MatchesIgnoreFileOrder(reg: Registry, reg': Registry, name: string)
    requires multiset(reg) == multiset(reg')
    ensures multiset(BaseNameMatches(reg, name)) == multiset(BaseNameMatches(reg', name))
    ensures multiset(FullNames(BaseNameMatches(reg, name))) == multiset(FullNames(BaseNameMatches(reg', name)))
    decreases |reg|
  {
    if reg == [] {
      assert |reg'| == |multiset(reg')| == 0;
    } else {
      var init := reg[..|reg| - 1];
      var f := reg[|reg| - 1];
      RemoveFile(reg, |reg| - 1);
      assert reg[|reg|..] == [];
      assert reg == init + [f] + [];
      assert f in multiset(reg');
      var j :| 0 <= j < |reg'| && reg'[j] == f;
      RemoveFile(reg', j);
      var left, right := reg'[..j], reg'[j + 1..];
      MatchesIgnoreFileOrder(init, left + right, name);
      MatchesAroundFile(init, f, [], name);
      assert init + [] == init;
      MatchesAroundFile(left, f, right, name);
    }
  }

  /** The bare-name search's outcome does not depend on the order in which
      the registry's files are visited: the number of matches, the sole match
      when there is one, and the sorted full names reported are the same. */
  lemma FileOrderDoesNotChangeOutcome(reg: Registry, reg': Registry, name: string)
    requires multiset(reg) == multiset(reg')
    ensures |BaseNameMatches(reg, name)| == |BaseNameMatches(reg', name)|
    ensures |BaseNameMatches(reg, name)| == 1 ==> BaseNameMatches(reg, name) == BaseNameMatches(reg', name)
    ensures SortStrings(FullNames(BaseNameMatches(reg, name))) == SortStrings(FullNames(BaseNameMatches(reg', name)))
  {
    var found, found' := BaseNameMatches(reg, name), BaseNameMatches(reg', name);
    MatchesIgnoreFileOrder(reg, reg', name);
    assert |found| == |multiset(found)| == |multiset(found')| == |found'|;
    if |found| == 1 {
      assert found[0] in multiset(found');
      assert found' == [found'[0]];
    }
    SortStringsIgnoresOrder(FullNames(found), FullNames(found'));
  }

  // ---------------------------------------------------------------------------
  // Which files protoc compiles, and its argument vector

  /** One step of the directory walk: a visited path, or an error while walking. */
  datatype WalkEntry = Visited(path: string) | WalkFailed(err: string)

  predicate IsProtoEntry(e: WalkEntry) {
    e.Visited? && HasSuffix(e.path, ProtoFileExtension)
  }

  /** The relative paths the walk contributes: `.proto` paths in walk order,
      with the base-directory prefix removed. */
  function ProtoPaths(walk: seq<WalkEntry>, prefix: string): seq<string> {
    if walk == [] then []
    else
      var last := walk[|walk| - 1];
      ProtoPaths(walk[..|walk| - 1], prefix) + (if IsProtoEntry(last) then [TrimPrefix(last.path, prefix)] else [])
  }

  /** The line printed to standard error for a walk error (PrintError adds
      the "Error: " in front). */
  function WalkErrorLine(baseDir: string, err: string): string {
    "Error: Encountered an error while walking through " + baseDir + ". " + err
  }

  /** The lines printed for the walk's errors, in walk order; the walk goes on
      after each of them. */
  function WalkReports(walk: seq<WalkEntry>, baseDir: string): seq<string> {
    if walk == [] then []
    else
      var last := walk[|walk| - 1];
      WalkReports(walk[..|walk| - 1], baseDir) + (if last.WalkFailed? then [WalkErrorLine(baseDir, last.err)] else [])
  }

  /** The collected paths follow the walk order: the paths of a walk are those
      of its first part followed by those of its second part. */
  lemma {:induction false} ProtoPathsAppend(a: seq<WalkEntry>, b: seq<WalkEntry>, prefix: string)
    ensures ProtoPaths(a + b, prefix) == ProtoPaths(a, prefix) + ProtoPaths(b, prefix)
    decreases |b|
  {
    if b == [] {
      assert a + b == a;
    } else {
      var b' := b[..|b| - 1];
      assert (a + b)[..|a + b| - 1] == a + b';
      assert (a + b)[|a + b| - 1] == b[|b| - 1];
      ProtoPathsAppend(a, b', prefix);
    }
  }

  /** Every collected path comes from a visited `.proto` path of the walk. */
  lemma {:induction false} ProtoPathsSound(walk: seq<WalkEntry>, prefix: string, p: string)
    requires p in ProtoPaths(walk, prefix)
    ensures exists i :: 0 <= i < |walk| && IsProtoEntry(walk[i]) && p == TrimPrefix(walk[i].path, prefix)
  {
    if walk != [] {
      var init := walk[..|walk| - 1];
      if p in ProtoPaths(init, prefix) {
        ProtoPathsSound(init, prefix, p);
        var i :| 0 <= i < |init| && IsProtoEntry(init[i]) && p == TrimPrefix(init[i].path, prefix);
        assert walk[i] == init[i];
      } else {
        assert IsProtoEntry(walk[|walk| - 1]) && p == TrimPrefix(walk[|walk| - 1].path, prefix);
      }
    }
  }

  /** Every visited `.proto` path of the walk is collected, prefix removed. */
  lemma {:induction false} ProtoPathsComplete(walk: seq<WalkEntry>, prefix: string, i: nat)
    requires i < |walk| && IsProtoEntry(walk[i])
    ensures TrimPrefix(walk[i].path, prefix) in ProtoPaths(walk, prefix)
  {
    var init := walk[..|walk| - 1];
    if i < |init| {
      ProtoPathsComplete(init, prefix, i);
      assert init[i] == walk[i];
    }
  }

  /** A path is collected if and only if it is a visited `.proto` path,
      prefix removed; errors and other files contribute nothing. */
  lemma ProtoPathsMembership(walk: seq<WalkEntry>, prefix: string, p: string)
    ensures p in ProtoPaths(walk, prefix)
        <==> exists i :: 0 <= i < |walk| && IsProtoEntry(walk[i]) && p == TrimPrefix(walk[i].path, prefix)
  {
    if p in ProtoPaths(walk, prefix) {
      ProtoPathsSound(walk, prefix, p);
    }
    if exists i :: 0 <= i < |walk| && IsProtoEntry(walk[i]) && p == TrimPrefix(walk[i].path, prefix) {
      var i :| 0 <= i < |walk| && IsProtoEntry(walk[i]) && p == TrimPrefix(walk[i].path, prefix);
      ProtoPathsComplete(walk, prefix, i);
    }
  }

  /** When the prefix ends in a separator that does not occur in ".proto",
      each collected path still ends in ".proto". */
  lemma {:induction false} ProtoPathsKeepExtension(walk: seq<WalkEntry>, baseDir: string, sep: char)
    requires sep !in ProtoFileExtension
    ensures forall p :: p in ProtoPaths(walk, baseDir + [sep]) ==> HasSuffix(p, ProtoFileExtension)
  {
    var prefix := baseDir + [sep];
    forall p | p in ProtoPaths(walk, prefix)
      ensures HasSuffix(p, ProtoFileExtension)
    {
      ProtoPathsMembership(walk, prefix, p);
      var i :| 0 <= i < |walk| && IsProtoEntry(walk[i]) && p == TrimPrefix(walk[i].path, prefix);
      var path := walk[i].path;
      if HasPrefix(path, prefix) {
        var n := |path|;
        assert path[|prefix| - 1] == sep;
        assert p == path[|prefix|..];
        assert p[|p| - |ProtoFileExtension|..] == path[n - |ProtoFileExtension|..];
      }
    }
  }

  /** listAllProtoFilesInDirectory: keeps the `.proto` paths of the walk, in
      walk order, relative to `baseDir`; walk errors are reported and skipped. */
  method ListAllProtoFilesInDirectory(baseDir: string, sep: char, walk: seq<WalkEntry>)
    returns (filePaths: seq<string>, reported: seq<string>)
    ensures filePaths == ProtoPaths(walk, baseDir + [sep])
    ensures reported == WalkReports(walk, baseDir)
  {
    filePaths, reported := [], [];
    var i := 0;
    while i < |walk|
      invariant 0 <= i <= |walk|
      invariant filePaths == ProtoPaths(walk[..i], baseDir + [sep])
      invariant reported == WalkReports(walk[..i], baseDir)
    {
      assert walk[..i + 1][..i] == walk[..i];
      var entry := walk[i];
      if entry.WalkFailed? {
        reported := reported + [WalkErrorLine(baseDir, entry.err)];
      } else if HasSuffix(entry.path, ProtoFileExtension) {
        var filePathFromBasedir := TrimPrefix(entry.path, baseDir + [sep]);
        filePaths := filePaths + [filePathFromBasedir];
      }
      i := i + 1;
    }
    assert walk[..i] == walk;
  }

  /** collectRelevantProtoFiles: all `.proto` files under the proto directory
      in infer mode, otherwise exactly the configured file. */
  method CollectRelevantProtoFiles(cfg: Flags.Config, sep: char, walk: seq<WalkEntry>)
    returns (files: seq<string>, reported: seq<string>)
    ensures cfg.InferProtoFiles ==> files == ProtoPaths(walk, cfg.ProtoFilesDir + [sep])
                                    && reported == WalkReports(walk, cfg.ProtoFilesDir)
    ensures !cfg.InferProtoFiles ==> files == [cfg.ProtoInputFilePath] && reported == []
  {
    if cfg.InferProtoFiles {
      files, reported := ListAllProtoFilesInDirectory(cfg.ProtoFilesDir, sep, walk);
    } else {
      files, reported := [cfg.ProtoInputFilePath], [];
    }
  }

  /** prependProtoDirToFiles: one argument per file, in order, each joined
      onto the proto directory. */
  method PrependProtoDirToFiles(protoFilesDir: string, protoFiles: seq<string>, join: (string, string) -> string)
    returns (protoFilesArgs: seq<string>)
    ensures |protoFilesArgs| == |protoFiles|
    ensures forall i :: 0 <= i < |protoFiles| ==> protoFilesArgs[i] == join(protoFilesDir, protoFiles[i])
  {
    protoFilesArgs := [];
    var i := 0;
    while i < |protoFiles|
      invariant 0 <= i <= |protoFiles|
      invariant |protoFilesArgs| == i
      invariant forall k :: 0 <= k < i ==> protoFilesArgs[k] == join(protoFilesDir, protoFiles[k])
    {
      protoFilesArgs := protoFilesArgs + [join(protoFilesDir, protoFiles[i])];
      i := i + 1;
    }
  }

  /** The protoc argument vector: the program, the fixed options with the output
      file and both include roots, then one argument per file, in order. */
  function ProtocArgs(protocPath: string, outputPath: string, googleInclude: string, protoFilesDir: string,
                      fileArgs: seq<string>): (r: seq<string>)
    ensures |r| == 8 + |fileArgs|
    ensures r[0] == protocPath && r[1] == "--include_imports"
    ensures r[2] == "-o" && r[3] == outputPath
    ensures r[4] == "-I" && r[5] == googleInclude && r[6] == "-I" && r[7] == protoFilesDir
    ensures r[8..] == fileArgs
  {
    [protocPath, "--include_imports", "-o", outputPath, "-I", googleInclude, "-I", protoFilesDir] + fileArgs
  }

  /** The command line convertProtoFilesToProtoRegistryFiles runs protoc with:
      the descriptor set is written to `inputfile.bin` in the temporary directory. */
  method ProtocCommandLine(cfg: Flags.Config, protocPath: string, googleInclude: string, tmpDir: string,
                           sep: char, walk: seq<WalkEntry>, join: (string, string) -> string)
    returns (args: seq<string>, reported: seq<string>)
    ensures var files := if cfg.InferProtoFiles then ProtoPaths(walk, cfg.ProtoFilesDir + [sep])
                         else [cfg.ProtoInputFilePath];
      && |args| == 8 + |files|
      && args[..8] == ProtocArgs(protocPath, join(tmpDir, "inputfile.bin"), googleInclude, cfg.ProtoFilesDir, [])
      && forall i :: 0 <= i < |files| ==> args[8 + i] == join(cfg.ProtoFilesDir, files[i])
    ensures reported == (if cfg.InferProtoFiles then WalkReports(walk, cfg.ProtoFilesDir) else [])
  {
    var inputFileBinPath := join(tmpDir, "inputfile.bin");
    var protoFiles;
    protoFiles, reported := CollectRelevantProtoFiles(cfg, sep, walk);
    var protoFilesArgs := PrependProtoDirToFiles(cfg.ProtoFilesDir, protoFiles, join);
    args := ProtocArgs(protocPath, inputFileBinPath, googleInclude, cfg.ProtoFilesDir, protoFilesArgs);
  }
}
