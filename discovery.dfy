/** analyzeRepository: which services a repository holds, where they live,
    which port each listens on and whether it brings its own Dockerfile.
    The filesystem is lifted out: the method receives what os.Stat and
    os.ReadFile answered for the paths it would have looked at. */
module Discovery {
  import opened Wrappers
  import Dockerfile

  /** ServiceConfig: one buildable service. */
  datatype ServiceConfig = ServiceConfig(name: string, path: string, port: int, dockerfileExists: bool)

  /** What the filesystem says about one candidate service directory: whether
      <dir>/Dockerfile can be stat'ed, and what reading it returns (None when
      os.ReadFile fails). */
  datatype SiteProbe = SiteProbe(dockerfileExists: bool, dockerfile: Option<string>)

  /** The answers analyzeRepository gets from the filesystem: whether client/
      and server/ are directories, what each candidate directory holds, and
      whether the repository root has a package.json. */
  datatype RepoFacts = RepoFacts(
    clientIsDir: bool, client: SiteProbe,
    serverIsDir: bool, server: SiteProbe,
    hasPackageJson: bool, root: SiteProbe)

  const DefaultClientPort: int := 3000
  const DefaultServerPort: int := 5000
  const DefaultRootPort: int := 3000

  const ClientName: string := "client"
  const ServerName: string := "server"
  const AppName: string := "app"

  /** filepath.Join(dir, elem) for a plain directory name. */
  function JoinPath(dir: string, elem: string): (p: string)
    ensures |p| == |dir| + 1 + |elem| && p[|dir|] == '/'
    ensures p[..|dir|] == dir && p[|dir| + 1..] == elem
  {
    dir + "/" + elem
  }

  /** The port a service gets: the Dockerfile's EXPOSE port when there is a
      Dockerfile and it parses, the default otherwise. */
  function ResolvePort(site: SiteProbe, default: int): (port: int)
    ensures site.dockerfileExists && Dockerfile.ParseDockerfilePort(site.dockerfile).Ok?
            ==> port == Dockerfile.ParseDockerfilePort(site.dockerfile).value
    ensures !site.dockerfileExists || Dockerfile.ParseDockerfilePort(site.dockerfile).Err?
            ==> port == default
    ensures Dockerfile.MinPort <= default <= Dockerfile.MaxPort
            ==> Dockerfile.MinPort <= port <= Dockerfile.MaxPort
  {
    if site.dockerfileExists then
      match Dockerfile.ParseDockerfilePort(site.dockerfile)
      case Ok(p) => p
      case Err(_) => default
    else default
  }

  /** The port block of each branch of analyzeRepository, statement by
      statement: `port := default`, then, when a Dockerfile exists and
      parses, `port = parsed`. ResolvePort is the value it computes. */
  method PortFor(site: SiteProbe, default: int) returns (port: int)
    ensures port == ResolvePort(site, default)
  {
    port := default;
    if site.dockerfileExists {
      var parsed := Dockerfile.ParseDockerfilePort(site.dockerfile);
      if parsed.Ok? {
        port := parsed.value;
      }
    }
  }

  /** The service found in directory path: its port is the resolved one, so
      a valid TCP port whenever the default is. */
  function Service(name: string, path: string, site: SiteProbe, default: int): (s: ServiceConfig)
    ensures s.name == name && s.path == path && s.dockerfileExists == site.dockerfileExists
    ensures Dockerfile.MinPort <= default <= Dockerfile.MaxPort ==> Dockerfile.MinPort <= s.port <= Dockerfile.MaxPort
  {
    ServiceConfig(name, path, ResolvePort(site, default), site.dockerfileExists)
  }

  /** The services analyzeRepository reports, as a value: client, then
      server, each when its directory exists; the root-level app only when
      neither directory exists and package.json does. */
  function Discovered(repoPath: string, facts: RepoFacts): (ss: seq<ServiceConfig>)
    ensures |ss| <= 2
    ensures forall i :: 0 <= i < |ss| ==>
      (ss[i].name == ClientName && ss[i].path == JoinPath(repoPath, ClientName)) ||
      (ss[i].name == ServerName && ss[i].path == JoinPath(repoPath, ServerName)) ||
      (ss[i].name == AppName && ss[i].path == repoPath)
  {
    var client := if facts.clientIsDir
      then [Service(ClientName, JoinPath(repoPath, ClientName), facts.client, DefaultClientPort)] else [];
    var server := if facts.serverIsDir
      then [Service(ServerName, JoinPath(repoPath, ServerName), facts.server, DefaultServerPort)] else [];
    var app := if !facts.clientIsDir && !facts.serverIsDir && facts.hasPackageJson
      then [Service(AppName, repoPath, facts.root, DefaultRootPort)] else [];
    client + server + app
  }

  /** analyzeRepository, appending to services as the source does. */
  method AnalyzeRepository(repoPath: string, facts: RepoFacts) returns (services: seq<ServiceConfig>)
    ensures services == Discovered(repoPath, facts)
  {
    services := [];

    var clientPath := JoinPath(repoPath, ClientName);
    if facts.clientIsDir {
      var dockerfileExists := facts.client.dockerfileExists;
      var port := PortFor(facts.client, DefaultClientPort);
      services := services + [ServiceConfig(ClientName, clientPath, port, dockerfileExists)];
    }

    var serverPath := JoinPath(repoPath, ServerName);
    if facts.serverIsDir {
      var dockerfileExists := facts.server.dockerfileExists;
      var port := PortFor(facts.server, DefaultServerPort);
      services := services + [ServiceConfig(ServerName, serverPath, port, dockerfileExists)];
    }

    if |services| == 0 {
      if facts.hasPackageJson {
        var dockerfileExists := facts.root.dockerfileExists;
        var port := PortFor(facts.root, DefaultRootPort);
        services := services + [ServiceConfig(AppName, repoPath, port, dockerfileExists)];
      }
    }
  }

  // ---------------------------------------------------------------------
  // Properties of the discovered services

  /** The names, in order: client before server; app alone. */
  function Names(services: seq<ServiceConfig>): (names: seq<string>)
    ensures |names| == |services|
    ensures forall i :: 0 <= i < |services| ==> names[i] == services[i].name
  {
    if services == [] then [] else [services[0].name] + Names(services[1..])
  }

  lemma DiscoveredNames(repoPath: string, facts: RepoFacts)
    ensures Names(Discovered(repoPath, facts)) ==
      if facts.clientIsDir || facts.serverIsDir then
        (if facts.clientIsDir then [ClientName] else []) + (if facts.serverIsDir then [ServerName] else [])
      else if facts.hasPackageJson then [AppName]
      else []
  {
    var ss := Discovered(repoPath, facts);
    var names := Names(ss);
    assert |ss| <= 2;
  }

  /** When client/ exists the first service is the client, at client/, with
      its Dockerfile flag and the port ResolvePort gives it (default 3000). */
  lemma ClientService(repoPath: string, facts: RepoFacts)
    requires facts.clientIsDir
    ensures var ss := Discovered(repoPath, facts);
      |ss| >= 1 && ss[0] == ServiceConfig(ClientName, JoinPath(repoPath, ClientName),
                                           ResolvePort(facts.client, DefaultClientPort),
                                           facts.client.dockerfileExists)
  {
  }

  /** When server/ exists the server is the last service, after the client
      if there is one; its default port is 5000. */
  lemma ServerService(repoPath: string, facts: RepoFacts)
    requires facts.serverIsDir
    ensures var ss := Discovered(repoPath, facts);
      |ss| == (if facts.clientIsDir then 2 else 1) &&
      ss[|ss| - 1] == ServiceConfig(ServerName, JoinPath(repoPath, ServerName),
                                    ResolvePort(facts.server, DefaultServerPort),
                                    facts.server.dockerfileExists)
  {
  }

  /** The root-level app is reported exactly when neither client/ nor server/
      exists and package.json does, and then it is the only service, rooted
      at the repository path. */
  lemma AppService(repoPath: string, facts: RepoFacts)
    ensures var ss := Discovered(repoPath, facts);
      (exists i :: 0 <= i < |ss| && ss[i].name == AppName)
        <==> !facts.clientIsDir && !facts.serverIsDir && facts.hasPackageJson
    ensures !facts.clientIsDir && !facts.serverIsDir && facts.hasPackageJson ==>
      Discovered(repoPath, facts) == [ServiceConfig(AppName, repoPath, ResolvePort(facts.root, DefaultRootPort),
                                                    facts.root.dockerfileExists)]
  {
    var ss := Discovered(repoPath, facts);
    if facts.clientIsDir || facts.serverIsDir {
      assert forall i :: 0 <= i < |ss| ==> ss[i].name == ClientName || ss[i].name == ServerName;
    } else if facts.hasPackageJson {
      assert ss[0].name == AppName;
    }
  }

  /** Nothing is found exactly when there is no client/, no server/ and no
      package.json. */
  lemma NothingFound(repoPath: string, facts: RepoFacts)
    ensures Discovered(repoPath, facts) == []
        <==> !facts.clientIsDir && !facts.serverIsDir && !facts.hasPackageJson
  {
  }

  /** Every discovered service has a valid TCP port and a distinct name. */
  lemma DiscoveredWellFormed(repoPath: string, facts: RepoFacts)
    ensures var ss := Discovered(repoPath, facts);
      forall i :: 0 <= i < |ss| ==> Dockerfile.MinPort <= ss[i].port <= Dockerfile.MaxPort
    ensures var ss := Discovered(repoPath, facts);
      forall i, j :: 0 <= i < j < |ss| ==> ss[i].name != ss[j].name
  {
    var ss := Discovered(repoPath, facts);
    assert |ss| <= 2;
  }
}
