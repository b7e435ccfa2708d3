/** The runner's main: check the command line, read the two optional flags,
    then analyse the repository, summarise the build graph, optionally ask
    for LLM insights, build and publish, and report a BuildResult with an exit
    status. The environment is lifted out: whether the repository path
    exists, whether the Dagger engine connects, what the filesystem holds,
    what each publish returns and what the LLM analysis answers are inputs. */
module Runner {
  import opened Wrappers
  import opened Text
  import opened Discovery
  import opened Builder
  import Summary

  /** The options main runs with. */
  datatype Options = Options(repoPath: string, llmOptimize: bool, llmProvider: string)

  const OptimizeFlag: string := "--llm-optimize"
  const ProviderPrefix: string := "--llm-provider="
  const DefaultProvider: string := "openai"

  // ---------------------------------------------------------------------
  // Command-line arguments

  /** strings.Split(arg, "=")[1] for an argument starting with
      --llm-provider=: the text after the first '=' up to any second one. */
  function ProviderOf(arg: string): (provider: string)
    requires ProviderPrefix <= arg
    ensures '=' !in provider
    ensures ProviderPrefix + provider <= arg
  {
    var key := "--llm-provider";
    var rest := arg[|ProviderPrefix|..];
    assert '=' !in key;
    assert arg == key + ['='] + rest;
    SplitAtSeparator(key, rest, '=');
    SplitFirstPrefix(rest, '=');
    SplitPiecesFree(rest, '=');
    Split(arg, '=')[1]
  }

  /** The provider the optional arguments select: that of the last
      --llm-provider= argument, "openai" when there is none. */
  function ProviderFrom(extra: seq<string>): (provider: string)
    ensures '=' !in provider
  {
    assert '=' !in DefaultProvider;
    if extra == [] then DefaultProvider
    else
      var arg := extra[|extra| - 1];
      if arg != OptimizeFlag && ProviderPrefix <= arg then ProviderOf(arg)
      else ProviderFrom(extra[..|extra| - 1])
  }

  /** What main makes of os.Args: a usage error unless there are two to four
      entries; otherwise the repository path and the two optional flags. */
  function Parsed(args: seq<string>): (r: Result<Options, Failure>)
    ensures r.Err? <==> |args| < 2 || |args| > 4
    ensures r.Err? ==> r.error == Usage
    ensures r.Ok? ==> r.value.repoPath == args[1]
  {
    if |args| < 2 || |args| > 4 then Err(Usage)
    else Ok(Options(args[1], OptimizeFlag in args[2..], ProviderFrom(args[2..])))
  }

  /** The argument handling at the head of main. */
  method ParseArgs(args: seq<string>) returns (parsed: Result<Options, Failure>)
    ensures parsed == Parsed(args)
  {
    if |args| < 2 || |args| > 4 {
      return Err(Usage);
    }
    var repoPath := args[1];
    var llmOptimize := false;
    var llmProvider := DefaultProvider;
    for i := 2 to |args|
      invariant llmOptimize == (OptimizeFlag in args[2..i])
      invariant llmProvider == ProviderFrom(args[2..i])
    {
      var arg := args[i];
      assert args[2..i + 1] == args[2..i] + [arg];
      assert args[2..i + 1][..i - 2] == args[2..i];
      if arg == OptimizeFlag {
        llmOptimize := true;
      } else if ProviderPrefix <= arg {
        llmProvider := ProviderOf(arg);
      }
    }
    assert args[2..|args|] == args[2..];
    return Ok(Options(repoPath, llmOptimize, llmProvider));
  }

  // ---------------------------------------------------------------------
  // Properties of the argument handling

  /** --llm-optimize anywhere among the optional arguments turns the
      analysis on; nothing else does. */
  lemma OptimizeIff(args: seq<string>)
    requires 2 <= |args| <= 4
    ensures Parsed(args).value.llmOptimize <==> exists i :: 2 <= i < |args| && args[i] == OptimizeFlag
  {
    if exists i :: 2 <= i < |args| && args[i] == OptimizeFlag {
      var i :| 2 <= i < |args| && args[i] == OptimizeFlag;
      assert args[2..][i - 2] == OptimizeFlag;
    }
  }

  /** The provider is the value of --llm-provider=: the text after its '='
      up to the next '=', or all of it when there is no other '='. */
  lemma ProviderValue(value: string, more: string)
    requires '=' !in value
    ensures ProviderOf(ProviderPrefix + value) == value
    ensures ProviderOf(ProviderPrefix + value + "=" + more) == value
  {
    var key := "--llm-provider";
    assert '=' !in key;
    assert ProviderPrefix + value == key + ['='] + value;
    assert ProviderPrefix + value + "=" + more == key + ['='] + (value + ['='] + more);
    SplitAtSeparator(key, value, '=');
    SplitNoSeparator(value, '=');
    SplitAtSeparator(key, value + ['='] + more, '=');
    SplitAtSeparator(value, more, '=');
  }

  /** Without a --llm-provider= argument the provider is "openai"; otherwise
      the last such argument decides it. */
  lemma {:induction false} ProviderIsLast(extra: seq<string>)
    ensures (forall i :: 0 <= i < |extra| ==> !(ProviderPrefix <= extra[i]))
            ==> ProviderFrom(extra) == DefaultProvider
    ensures forall k :: 0 <= k < |extra| && ProviderPrefix <= extra[k]
                        && (forall j :: k < j < |extra| ==> !(ProviderPrefix <= extra[j]))
                        ==> ProviderFrom(extra) == ProviderOf(extra[k])
  {
    if extra != [] {
      var init := extra[..|extra| - 1];
      ProviderIsLast(init);
      assert forall i :: 0 <= i < |init| ==> init[i] == extra[i];
      assert OptimizeFlag[|ProviderPrefix| - 2] != ProviderPrefix[|ProviderPrefix| - 2];
    }
  }

  /** An optional argument that is neither flag is ignored: dropping it
      leaves the options unchanged. */
  lemma UnknownIgnored(args: seq<string>, k: int)
    requires 2 <= k < |args| <= 4
    requires args[k] != OptimizeFlag && !(ProviderPrefix <= args[k])
    ensures Parsed(args[..k] + args[k + 1..]) == Parsed(args)
  {
    var extra := args[2..];
    var fewer := args[..k] + args[k + 1..];
    assert fewer[2..] == extra[..k - 2] + extra[k - 1..];
    assert fewer[1] == args[1];
    ProviderDropUnknown(extra, k - 2);
    FlagDropUnknown(extra, k - 2);
  }

  lemma FlagDropUnknown(extra: seq<string>, k: int)
    requires 0 <= k < |extra| && extra[k] != OptimizeFlag
    ensures OptimizeFlag in extra[..k] + extra[k + 1..] <==> OptimizeFlag in extra
  {
    assert extra == extra[..k] + [extra[k]] + extra[k + 1..];
  }

  lemma {:induction false} ProviderDropUnknown(extra: seq<string>, k: int)
    requires 0 <= k < |extra|
    requires extra[k] != OptimizeFlag && !(ProviderPrefix <= extra[k])
    ensures ProviderFrom(extra[..k] + extra[k + 1..]) == ProviderFrom(extra)
    decreases |extra|
  {
    var init := extra[..|extra| - 1];
    if k == |extra| - 1 {
      assert extra[..k] + extra[k + 1..] == init;
    } else {
      var fewer := extra[..k] + extra[k + 1..];
      assert fewer[|fewer| - 1] == extra[|extra| - 1];
      assert fewer[..|fewer| - 1] == init[..k] + init[k + 1..];
      ProviderDropUnknown(init, k);
    }
  }

  // ---------------------------------------------------------------------
  // The main flow

  /** What the environment answers main: whether the repository path is
      missing, the error Dagger's connection reported if any, the
      filesystem facts, the publish outcome of each service in turn and what
      the LLM analysis returns for a repository, its services and a
      provider. */
  datatype Environment = Environment(
    repoMissing: bool,
    connectError: Option<string>,
    facts: RepoFacts,
    publish: nat -> PublishOutcome,
    analyze: (string, seq<ServiceConfig>, string) -> string)

  /** The result main reports, and its exit status. */
  datatype Outcome = Outcome(result: BuildResult, exitCode: int)

  /** A result that carries only an error. */
  function Failed(f: Failure): BuildResult
  {
    Initial.(error := Some(f))
  }

  /** main, as a value. */
  function Run(args: seq<string>, env: Environment): (o: Outcome)
    ensures o.exitCode == 0 || o.exitCode == 1
    ensures Parsed(args).Err? ==> o == Outcome(Failed(Usage), 1)
    ensures Parsed(args).Ok? && env.repoMissing ==> o.result.error == Some(RepoMissing(args[1]))
  {
    match Parsed(args)
    case Err(f) => Outcome(Failed(f), 1)
    case Ok(opts) =>
      if env.repoMissing then Outcome(Failed(RepoMissing(opts.repoPath)), 1)
      else if env.connectError.Some? then Outcome(Failed(ConnectFailed(env.connectError.value)), 1)
      else
        var services := Discovered(opts.repoPath, env.facts);
        if services == [] then Outcome(Failed(NoServices), 0)
        else Build(opts, env, services)
  }

  /** The end of main once services were found: summarise, ask for
      insights if requested, build and publish; exit 1 on a build error. */
  function Build(opts: Options, env: Environment, services: seq<ServiceConfig>): (o: Outcome)
    ensures o.result.error == Assembled(services, env.publish).error
    ensures o.result.error != Some(NoServices)
    ensures o.exitCode == 0 <==> o.result.error.None?
    ensures o.exitCode == 1 <==> o.result.error.Some?
  {
    var insights := if opts.llmOptimize then env.analyze(opts.repoPath, services, opts.llmProvider) else "";
    var built := Assembled(services, env.publish);
    var result := built.(dagSummary := Summary.SummaryText(services), llmInsights := insights);
    Outcome(result, if result.error.Some? then 1 else 0)
  }

  /** main: each early exit in turn, then the build. */
  method Execute(args: seq<string>, env: Environment) returns (outcome: Outcome)
    ensures outcome == Run(args, env)
  {
    var parsed := ParseArgs(args);
    if parsed.Err? {
      return Outcome(Failed(parsed.error), 1);
    }
    var opts := parsed.value;

    if env.repoMissing {
      return Outcome(Failed(RepoMissing(opts.repoPath)), 1);
    }
    if env.connectError.Some? {
      return Outcome(Failed(ConnectFailed(env.connectError.value)), 1);
    }

    var services := AnalyzeRepository(opts.repoPath, env.facts);
    if |services| == 0 {
      return Outcome(Failed(NoServices), 0);
    }

    var dagSummary := Summary.GenerateDAGSummary(services);
    var llmInsights := "";
    if opts.llmOptimize {
      llmInsights := env.analyze(opts.repoPath, services, opts.llmProvider);
    }

    var result := BuildAndPushImages(services, env.publish);
    result := result.(dagSummary := dagSummary, llmInsights := llmInsights);

    var exitCode := if result.error.Some? then 1 else 0;
    return Outcome(result, exitCode);
  }

  // ---------------------------------------------------------------------
  // Properties of the main flow

  /** The exit status is 1 exactly when an error is reported, except that
      finding no service is reported as an error with status 0. */
  lemma ExitCodeIff(args: seq<string>, env: Environment)
    ensures var o := Run(args, env);
      o.exitCode == 0 <==> o.result.error.None? || o.result.error == Some(NoServices)
    ensures var o := Run(args, env);
      o.exitCode == 1 <==> o.result.error.Some? && o.result.error != Some(NoServices)
  {
    var o := Run(args, env);
    if Parsed(args).Ok? && !env.repoMissing && env.connectError.None? {
      var opts := Parsed(args).value;
      var services := Discovered(opts.repoPath, env.facts);
    }
  }

  /** A run that exits 0 without an error built every service: the ports map
      holds each discovered service's port, the summary describes the
      services, and insights are present only when --llm-optimize was given. */
  lemma SuccessfulRun(args: seq<string>, env: Environment)
    requires Run(args, env).result.error.None?
    ensures Parsed(args).Ok?
    ensures var opts := Parsed(args).value;
      var services := Discovered(opts.repoPath, env.facts);
      var r := Run(args, env).result;
      && services != []
      && (forall i :: 0 <= i < |services| ==> Builder.Buildable(services[i], env.publish(i)))
      && (forall i :: 0 <= i < |services| ==> services[i].name in r.ports && r.ports[services[i].name] == services[i].port)
      && (forall name :: name in r.ports ==> exists i :: 0 <= i < |services| && services[i].name == name)
      && r.dagSummary == Summary.SummaryText(services)
      && r.llmInsights == (if opts.llmOptimize then env.analyze(opts.repoPath, services, opts.llmProvider) else "")
  {
    var opts := Parsed(args).value;
    var services := Discovered(opts.repoPath, env.facts);
    assert services != [] && Run(args, env) == Build(opts, env, services);
    DiscoveredWellFormed(opts.repoPath, env.facts);
    BuiltAll(opts, env, services);
  }

  /** A build without an error published every service and recorded each
      one's port under its name, and no other name. */
  lemma BuiltAll(opts: Options, env: Environment, services: seq<ServiceConfig>)
    requires Build(opts, env, services).result.error.None?
    requires forall i, j :: 0 <= i < j < |services| ==> services[i].name != services[j].name
    ensures forall i :: 0 <= i < |services| ==> Builder.Buildable(services[i], env.publish(i))
    ensures var ports := Build(opts, env, services).result.ports;
      forall i :: 0 <= i < |services| ==> services[i].name in ports && ports[services[i].name] == services[i].port
    ensures var ports := Build(opts, env, services).result.ports;
      forall name :: name in ports ==> exists i :: 0 <= i < |services| && services[i].name == name
    ensures Build(opts, env, services).result.dagSummary == Summary.SummaryText(services)
    ensures Build(opts, env, services).result.llmInsights
            == (if opts.llmOptimize then env.analyze(opts.repoPath, services, opts.llmProvider) else "")
  {
    var built := Assembled(services, env.publish);
    var ports := Build(opts, env, services).result.ports;
    assert ports == built.ports && built.error.None?;
    SucceedsIff(services, env.publish);
    PortsOnSuccess(services, env.publish);
    forall i | 0 <= i < |services|
      ensures services[i].name in ports && ports[services[i].name] == services[i].port
    {
      assert exists k :: 0 <= k < |services| && services[k].name == services[i].name;
    }
  }

  /** Finding no service is reported before anything is built: an empty
      ports map, no URLs, no summary and status 0. */
  lemma NothingToBuild(args: seq<string>, env: Environment)
    requires Parsed(args).Ok? && !env.repoMissing && env.connectError.None?
    requires !env.facts.clientIsDir && !env.facts.serverIsDir && !env.facts.hasPackageJson
    ensures Run(args, env) == Outcome(BuildResult("", "", map[], Some(NoServices), "", ""), 0)
  {
    NothingFound(Parsed(args).value.repoPath, env.facts);
  }
}
