# dagger-runner, modelled in Dafny

`nexlayer-dagger-runner` is a command-line build runner. It takes a
repository path and two optional flags. It then does the following:

1. It finds the Node.js services in the repository: a `client/` directory, a
   `server/` directory, or a root-level app.
2. It reads the port each service listens on from the `EXPOSE` directive of
   the service's Dockerfile.
3. It writes a plain-text summary of the build graph.
4. If `--llm-optimize` is given, it adds an "LLM insights" text. In this
   version that text comes from a mock and is the same for every repository.
5. It builds and publishes one container image per service.
6. It reports a `BuildResult` (image URLs, a name-to-port map, an error, the
   summary, the insights) and an exit status.

The model covers the logic in `dagger-runner/main.go`. Everything the runner
asks of the outside world is turned into an input value:

- whether the repository path exists;
- whether the Dagger engine connects;
- what `os.Stat` and `os.ReadFile` answer;
- what each publish returns;
- what the insights text is.

Modules:

- `Wrappers`: `Option` and `Result`.
- `Text`: the Go library routines the runner depends on, with their
  round-trip properties:
  - `strings.Split` with a one-rune separator. The runner never joins;
    `Join` is a reference definition that states the split loses nothing;
  - `TrimSpace` (the `unicode.IsSpace` set), `Fields` and `ToUpper`;
  - `strconv.Atoi` over 64-bit `int`, and `fmt`'s `%d`.
- `Dockerfile`: `parseDockerfilePort`. It is a pure first-match search over
  the lines of the file. The search is generic in the line classifier, and
  `Classify` instantiates it.
- `Discovery`: `analyzeRepository`.
  - `AnalyzeRepository` is a method that appends to `services` as the source
    does.
  - It is proved equal to the `Discovered` function, and the lemmas are
    stated about that function.
- `Builder`: `buildAndPushImages`.
  - `BuildAndPushImages` is a loop method with the source's early returns.
  - It is proved equal to the fold `Assembled`/`Upto`, and the lemmas are
    stated about the fold.
- `Summary`: `generateDAGSummary`.
  - `GenerateDAGSummary` is a loop method that appends to `summary`.
  - It is proved equal to `SummaryText`.
  - The summary is also read back line by line.
- `Runner`: the body of `main`.
  - The argument loop is `ParseArgs`, proved equal to `Parsed`.
  - The whole flow is `Execute`, proved equal to `Run`.

## Model

| member | source | states |
|---|---|---|
| Text.Split | dagger-runner/main.go:219 | `strings.Split` always yields at least one piece |
| Text.SplitPiecesFree | dagger-runner/main.go:231-233 | no piece of a split contains the separator, so the text kept before a `/` has no `/` |
| Text.SplitCount | dagger-runner/main.go:231-233 | the split has two or more pieces exactly when the separator occurs in the text |
| Text.SplitFirstPrefix | dagger-runner/main.go:54 | the first piece of a split is a prefix of the text |
| Text.JoinSplit | dagger-runner/main.go:219 | joining the lines of a split with `\n` gives back the file content, so no character is lost or added |
| Text.SplitJoin | dagger-runner/main.go:219 | splitting a join of separator-free pieces gives back those pieces |
| Text.SplitAtSeparator | dagger-runner/main.go:232 | the first piece ends at the first separator |
| Text.SplitNoSeparator | dagger-runner/main.go:232 | text without the separator splits into itself alone |
| Text.ToUpper | dagger-runner/main.go:222 | upper-casing keeps the length of the line |
| Text.ToUpperRunes | dagger-runner/main.go:222 | the upper-cased line holds no lower-case ASCII letter, and every rune that is not a letter stays where it was |
| Text.ToUpperIdempotent | dagger-runner/main.go:222 | upper-casing twice is upper-casing once |
| Text.ToUpperConcat | dagger-runner/main.go:222 | upper-casing distributes over concatenation |
| Text.TrimSpace | dagger-runner/main.go:222 | the trimmed line neither starts nor ends with a space rune |
| Text.TrimLeftSpace | dagger-runner/main.go:222 | the result is a suffix of the input that does not start with a space |
| Text.TrimRightSpace | dagger-runner/main.go:222 | the result is a prefix of the input that does not end with a space |
| Text.TrimSpacePadded | dagger-runner/main.go:222 | whitespace around a text does not change what trimming gives |
| Text.TrimSpaceUnpadded | dagger-runner/main.go:222 | text that neither starts nor ends with a space is left unchanged |
| Text.TrimLeftPadded | dagger-runner/main.go:222 | leading whitespace is removed |
| Text.TrimRightPadded | dagger-runner/main.go:222 | trailing whitespace is removed |
| Text.Fields | dagger-runner/main.go:227 | there are no fields exactly when nothing is left after dropping leading spaces |
| Text.FieldsNoneIff | dagger-runner/main.go:227-228 | a line has no fields exactly when it is all whitespace |
| Text.FieldsAreWords | dagger-runner/main.go:227 | every field of `strings.Fields` is a non-empty run of non-space runes |
| Text.FieldsOfJoin | dagger-runner/main.go:227 | words joined by single spaces split back into the same words |
| Text.FieldsAfterWord | dagger-runner/main.go:227 | a word followed by nothing or by a space is the first field, and the rest splits as before |
| Text.Atoi | dagger-runner/main.go:235 | `Atoi` succeeds exactly on an optional sign followed by one or more digits whose value fits in int64, and then returns that value (`+` and leading zeros accepted, `-` negates) |
| Text.LeadingZero | dagger-runner/main.go:235 | a leading zero does not change the value of a digit string |
| Text.NatToDecimal | dagger-runner/main.go:241 | the digits printed for n are digits, have no leading zero, and read back as n |
| Text.Decimal | dagger-runner/main.go:349-356 | `%d` never prints a newline, a `/` or a space |
| Text.AtoiDecimal | dagger-runner/main.go:235 | `Atoi` reads back what `%d` prints, for every int64 |
| Dockerfile.StripProtocol | dagger-runner/main.go:231-233 | the port text kept from a field contains no `/` |
| Dockerfile.Normalize | dagger-runner/main.go:222 | the normalized line is no longer than the line and has no surrounding whitespace |
| Dockerfile.NormalizedUpper | dagger-runner/main.go:222 | the normalized line holds no lower-case ASCII letter |
| Dockerfile.IsExposeLine | dagger-runner/main.go:225-228 | defines the lines the scan acts on: the normalized line starts with `EXPOSE` and has at least two fields (no contract of its own; ExposeLineKeyword and NoExposeDirectiveIff state its properties) |
| Dockerfile.ExposeLineKeyword | dagger-runner/main.go:225-228 | the first field of an EXPOSE line begins with `EXPOSE`; as a prefix test it also admits a run-on keyword such as `EXPOSED` |
| Dockerfile.PortOfField | dagger-runner/main.go:229-244 | with n the text before any `/`: the field yields a port exactly when n is a decimal integer in 1..65535, and then yields its value; text that is not a decimal integer, or a decimal integer beyond the int64 range, gives an invalid-number error carrying n; a decimal integer in int64 range outside 1..65535 gives the out-of-range error carrying it |
| Dockerfile.PortOfDirective | dagger-runner/main.go:227-244 | the second field of an EXPOSE line yields a port in 1..65535, or the error is an invalid number or a port out of range |
| Dockerfile.SignedPortField | dagger-runner/main.go:235-244 | the field `+p` yields p |
| Dockerfile.LeadingZeroField | dagger-runner/main.go:235-244 | the field `0p` yields p |
| Dockerfile.NonPositiveField | dagger-runner/main.go:235-241 | `0` and negative numbers are read and then refused as out of range, carrying the number |
| Dockerfile.AboveRangeField | dagger-runner/main.go:235-241 | every number from 65536 up to the int64 maximum is read and then refused as out of range, carrying the number |
| Dockerfile.Classify | dagger-runner/main.go:222-245 | a line decides the outcome exactly when it is an EXPOSE line with two or more fields; a decided port is in 1..65535; a decided error is an invalid number or out of range, never "no EXPOSE" |
| Dockerfile.FirstDecision | dagger-runner/main.go:220-249 | the search ends with "no EXPOSE directive" or with the outcome of one of the lines |
| Dockerfile.PortFromLines | dagger-runner/main.go:219-249 | any port found is in 1..65535, and scanning lines never reports a read failure |
| Dockerfile.ParseDockerfilePort | dagger-runner/main.go:212-250 | any port returned is in 1..65535, and the read-failure error occurs exactly when the file could not be read |
| Dockerfile.FirstDecisionAt | dagger-runner/main.go:220-247 | the first deciding line gives the outcome, and the lines after it are never consulted |
| Dockerfile.FirstDecisionNone | dagger-runner/main.go:249 | with no deciding line the search ends with "no EXPOSE directive" |
| Dockerfile.FirstDecisionFound | dagger-runner/main.go:220-249 | with a deciding line the search does not end with "no EXPOSE directive" |
| Dockerfile.FirstDecisionSecond | dagger-runner/main.go:220-245 | when the first of two lines is skipped, the second decides |
| Dockerfile.FirstExposeLineDecides | dagger-runner/main.go:219-247 | the first EXPOSE line decides the result, whatever follows it |
| Dockerfile.NoExposeDirectiveIff | dagger-runner/main.go:219-249 | "no EXPOSE directive" is returned exactly when no line is an EXPOSE line with two fields |
| Dockerfile.ProtocolSuffixIgnored | dagger-runner/main.go:230-233 | a field `N/proto` yields the same outcome as `N` |
| Dockerfile.ExposeLineDirective | dagger-runner/main.go:221-229 | a line of whitespace, `expose` in any case, a space, one word and whitespace is an EXPOSE line whose port field is the upper-cased word |
| Dockerfile.ExposeLineYieldsPort | dagger-runner/main.go:221-244 | such a line naming a valid port p yields p |
| Dockerfile.ExposeLineWithProtocol | dagger-runner/main.go:221-244 | such a line naming `p/proto` with p valid yields p |
| Dockerfile.ExposeLineSignedPort | dagger-runner/main.go:221-244 | an EXPOSE line naming `+p`, in any case and with any padding, yields p |
| Dockerfile.SuffixedPortField | dagger-runner/main.go:229-235 | `p/proto` is one field, and upper-cased it still parses to p |
| Dockerfile.DecimalPortWord | dagger-runner/main.go:227-235 | the decimal text of a port is one field of digits that upper-casing leaves alone |
| Dockerfile.UpperExposeLine | dagger-runner/main.go:222 | upper-casing an EXPOSE line keeps its padding and upper-cases its argument |
| Dockerfile.NormalizeExposeLine | dagger-runner/main.go:222 | the trimmed, upper-cased line is `EXPOSE` followed by one space and the upper-cased argument |
| Dockerfile.ExposeCoreTrimmed | dagger-runner/main.go:222 | `EXPOSE` followed by a space and one word has nothing to trim |
| Dockerfile.ExposeCoreFields | dagger-runner/main.go:227 | `EXPOSE` followed by a space and one word has exactly those two fields |
| Dockerfile.ExposeLineFields | dagger-runner/main.go:222-228 | the fields of such a line are `EXPOSE` and the upper-cased argument |
| Dockerfile.NormalizedExpose | dagger-runner/main.go:225-228 | a line that normalizes to `EXPOSE` followed by a space and a word is an EXPOSE line |
| Dockerfile.BareKeywordSkipped | dagger-runner/main.go:227-228 | a line holding only `EXPOSE` has one field and is skipped |
| Dockerfile.BareExposeSkipped | dagger-runner/main.go:225-228 | for the lines `EXPOSE` then `expose 8080` the result is 8080: the bare line is skipped, not an error |
| Dockerfile.SkipThenDecide | dagger-runner/main.go:220-245 | of a non-EXPOSE line followed by an EXPOSE line, the second decides |
| Dockerfile.PaddedLowerCaseLine | dagger-runner/main.go:221-225 | the line `"  expose 8080\r"` yields 8080 |
| Dockerfile.ProtocolSuffixExample | dagger-runner/main.go:230-233 | `EXPOSE 3000/tcp` yields 3000 |
| Dockerfile.OutOfRangeStopsScan | dagger-runner/main.go:240-241 | `EXPOSE 70000` followed by `EXPOSE 80` gives the out-of-range error for 70000, and the later line is not consulted |
| Dockerfile.OutOfRangeField | dagger-runner/main.go:235-241 | the field `70000` parses but is out of range |
| Discovery.JoinPath | dagger-runner/main.go:122 | the service path is the repository path, a `/`, then the directory name |
| Discovery.ResolvePort | dagger-runner/main.go:125-135 | the port is the parsed EXPOSE port when a Dockerfile exists and parses, otherwise the default, and it lies in 1..65535 when the default does |
| Discovery.PortFor | dagger-runner/main.go:125-135 | the port block of each branch computes ResolvePort |
| Discovery.Service | dagger-runner/main.go:137-142 | a service keeps its name, path and Dockerfile flag, and its port is a valid TCP port whenever the default is |
| Discovery.Discovered | dagger-runner/main.go:118-202 | at most two services are found, each the client at `<repo>/client`, the server at `<repo>/server`, or the app at the repository root |
| Discovery.AnalyzeRepository | dagger-runner/main.go:118-202 | the appended services are exactly `Discovered`: client, then server, then app only when neither directory exists |
| Discovery.DiscoveredNames | dagger-runner/main.go:137-192 | the names are client before server, or app alone, or none |
| Discovery.ClientService | dagger-runner/main.go:121-144 | with `client/` present, the first service is the client at `<repo>/client`, with its Dockerfile flag and its resolved port (default 3000) |
| Discovery.ServerService | dagger-runner/main.go:146-169 | with `server/` present, the server is the last service and comes after the client if there is one; its default port is 5000 |
| Discovery.AppService | dagger-runner/main.go:171-199 | an app service appears exactly when neither directory exists and `package.json` does; it is then the only service, rooted at the repository path, with default port 3000 |
| Discovery.NothingFound | dagger-runner/main.go:118-202 | no service is found exactly when there is no `client/`, no `server/` and no `package.json` |
| Discovery.DiscoveredWellFormed | dagger-runner/main.go:118-202 | every discovered port is in 1..65535 and no two services share a name |
| Builder.BuildAndPushImages | dagger-runner/main.go:260-320 | the loop with its early returns computes `Assembled`, the fold that stops at the first error |
| Builder.Store | dagger-runner/main.go:305-316 | storing a service sets its port under its name and changes neither the error nor the summary; the server field takes the URL only for `server`; a client URL is replaced only by a service named `client` |
| Builder.Step | dagger-runner/main.go:279-316 | a buildable service keeps the error unset and records its port; any other sets the error and changes no port or URL |
| Builder.Upto | dagger-runner/main.go:261-317 | the loop never sets the summary or the insights |
| Builder.Assembled | dagger-runner/main.go:260-320 | the result leaves the summary and insights empty, and its only errors are a missing Dockerfile or a failed push |
| Builder.FailureIsFinal | dagger-runner/main.go:280-300 | once an error is set, the remaining services change nothing |
| Builder.BuildErrors | dagger-runner/main.go:280-300 | the loop only stops for a missing Dockerfile or a failed push |
| Builder.NoErrorIff | dagger-runner/main.go:268-317 | the first n services pass exactly when each has a Dockerfile and publishes |
| Builder.SucceedsIff | dagger-runner/main.go:268-319 | the build succeeds exactly when every service has a Dockerfile and publishes |
| Builder.NamesUpTo | dagger-runner/main.go:305 | the set holds exactly the names of the first n services |
| Builder.PortKeysSoFar | dagger-runner/main.go:305 | while no error is set, the ports map holds exactly the names seen so far |
| Builder.PortValuesSoFar | dagger-runner/main.go:305 | while no error is set, each name seen maps to the port of the last service with that name |
| Builder.PortsOnSuccess | dagger-runner/main.go:305 | on success, Ports has a key for every service name and no other key, and maps each name to its service's port |
| Builder.StopsAtFirstFailure | dagger-runner/main.go:280-300 | the first service without a Dockerfile or with a failed push sets the error, and only earlier services have ports |
| Builder.LastIndexNamed | dagger-runner/main.go:306-310 | the index found is that of the last service with the name, or -1 when there is none |
| Builder.FirstOtherUrlIsOther | dagger-runner/main.go:311-315 | a URL found for the client field this way belongs to a service other than client and server |
| Builder.ExpectedClient | dagger-runner/main.go:306-315 | the client field is empty or the URL of a service in range that is not named server |
| Builder.FirstOtherUrlExtend | dagger-runner/main.go:311-315 | the first non-empty URL of a service other than client and server changes with one more service only while none was found |
| Builder.ServerSoFar | dagger-runner/main.go:309-310 | while no error is set, Server is the URL of the last service named server |
| Builder.ClientSoFar | dagger-runner/main.go:307-315 | while no error is set, Client is the URL of the last service named client, or if that is empty, the first non-empty URL of another service after it |
| Builder.ClientStep | dagger-runner/main.go:305-316 | storing one published service keeps the Client field as described above |
| Builder.ClientAndServerFields | dagger-runner/main.go:305-316 | on success, the Client and Server fields are as described above |
| Summary.BulletLines | dagger-runner/main.go:351-357 | there is one bullet per service |
| Summary.BulletLineAt | dagger-runner/main.go:351-357 | the i-th bullet describes the i-th service |
| Summary.GenerateDAGSummary | dagger-runner/main.go:348-368 | the header, the bullets appended in the loop and the steps make up `SummaryText` |
| Summary.HeaderLine | dagger-runner/main.go:349 | the header is a single line |
| Summary.HeaderCount | dagger-runner/main.go:349 | the count in the header reads back as the number of services |
| Summary.BulletLine | dagger-runner/main.go:351-357 | defines a bullet for both Dockerfile cases (no contract of its own; BulletLineShape, BulletLineAt and BulletLineUnbroken state its properties) |
| Summary.BulletLineShape | dagger-runner/main.go:351-357 | a bullet opens with the service's name and port and ends with the bracketed Dockerfile note |
| Summary.SummaryText | dagger-runner/main.go:348-368 | the summary starts with the header line and ends with the build steps |
| Summary.BulletLineUnbroken | dagger-runner/main.go:351-357 | a bullet is a single line when the service name holds no newline |
| Summary.BulletLinesUnbroken | dagger-runner/main.go:351-357 | no bullet holds a newline |
| Summary.SummarySplitsIntoLines | dagger-runner/main.go:348-368 | the summary reads back as the header with the service count, then one bullet per service in order, then the step lines, which do not depend on the services |
| Runner.ParseArgs | dagger-runner/main.go:36-56 | the argument loop computes `Parsed` |
| Runner.Parsed | dagger-runner/main.go:35-56 | the command line is refused, with the usage error, exactly when it has fewer than two or more than four entries; otherwise the second entry is the repository path |
| Runner.ProviderOf | dagger-runner/main.go:53-54 | the provider holds no `=` and is the text right after `--llm-provider=` |
| Runner.ProviderFrom | dagger-runner/main.go:46-56 | the provider selected never holds `=` |
| Runner.OptimizeIff | dagger-runner/main.go:51-52 | `--llm-optimize` is on exactly when some optional argument equals it |
| Runner.ProviderValue | dagger-runner/main.go:53-54 | `--llm-provider=X` gives X up to any second `=` |
| Runner.ProviderIsLast | dagger-runner/main.go:46-56 | without a `--llm-provider=` argument the provider is `openai`; otherwise the last one decides |
| Runner.UnknownIgnored | dagger-runner/main.go:49-56 | an optional argument that is neither flag is ignored: dropping it leaves the options unchanged |
| Runner.ProviderDropUnknown | dagger-runner/main.go:53-54 | dropping an unrelated argument does not change the provider |
| Runner.FlagDropUnknown | dagger-runner/main.go:51-52 | dropping an unrelated argument does not change the flag |
| Runner.Execute | dagger-runner/main.go:36-115 | main's early exits and final build compute `Run` |
| Runner.Run | dagger-runner/main.go:35-115 | the exit status is 0 or 1; a bad command line exits 1 with only the usage error; a missing repository is reported with its path |
| Runner.Build | dagger-runner/main.go:95-114 | after a build the reported error is the build's error, never "no services", and the status is 1 exactly when it is set |
| Runner.ExitCodeIff | dagger-runner/main.go:41-114 | the exit status is 0 exactly when there is no error or the error is "no services", and 1 otherwise |
| Runner.SuccessfulRun | dagger-runner/main.go:83-114 | a run without an error found services and built them all; Ports has exactly their names and ports; the summary describes them; insights are present only with `--llm-optimize` |
| Runner.BuiltAll | dagger-runner/main.go:95-114 | a build without an error published every service, has exactly their names and ports in Ports, the summary of them, and insights only with `--llm-optimize` |
| Runner.NothingToBuild | dagger-runner/main.go:85-91 | with nothing to build, the result has an empty ports map, the "no services" error, nothing else, and status 0 |

## Left out

- Filesystem access is not modelled. This covers `os.Stat`, `os.ReadFile`,
  `checkDockerfileExists` and `hasNodeProject`. Their answers are the
  `RepoFacts`/`SiteProbe` inputs and the `repoMissing` input. Only "does not
  exist" aborts `main`; other `Stat` errors do not abort it in the source
  either.
- The Dagger SDK is not modelled: `Connect`, `Host().Directory`,
  `Container.Build`, `Publish`.
  - Connecting is the `connectError` input.
  - Publishing the i-th service is the input `publish(i)`, which returns a
    URL or a failure.
- `buildWithDockerfile` always returns a nil error. Because of this, the
  "Failed to build" branch (lines 286-289) can never run, and it is not a
  case of the model.
- The uuid build ID and the `ttl.sh/...:1h` image name are left out. They
  only shape the URL passed to `Publish`, and the published URL is an input.
- `log.Printf`, `outputResult` (JSON marshalling, `omitempty`) and
  `os.Exit` are left out. The exit status is returned as a value.
- Error messages are not modelled as text. Each is a `Failure` or
  `PortError` constructor that carries the formatted values.
- Builder.BuildResult: the usage, missing-path and connect errors leave
  `Ports` nil in the source, which marshals as `null`. The model uses an
  empty map for them.
- `performLLMDAGAnalysis`, `buildLLMPrompt` and `mockLLMCall` are left out.
  In the source the insights are a constant text: `mockLLMCall` ignores the
  prompt and the provider. The model generalises this to the `analyze`
  input, applied to the repository path, the services and the provider, so
  its properties hold for the constant text as well.
- Discovery.JoinPath: `filepath.Join` also cleans the path (`..`, double
  and trailing slashes). The model joins with a single `/`.
- Text.ToUpper maps only the ASCII letters and the two non-ASCII runes
  whose upper case is ASCII. Other non-ASCII runes stay unchanged. This can
  only change the text carried by `InvalidPortNumber`, never whether a line
  is an EXPOSE line or which port it names.
- Go strings are byte sequences. The model works on runes, so invalid UTF-8
  in a Dockerfile is not modelled.
- Summary.SummarySplitsIntoLines gives the step lines as the split of the
  constant step text. It does not list the six lines one by one.
- The tool server's session trace store, with its REST and dispatch
  layers, is not part of this model.
