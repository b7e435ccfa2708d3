/** buildAndPushImages: build each discovered service from its Dockerfile,
    publish the image, and collect the published URLs and ports into a
    BuildResult, stopping at the first service that cannot be built or
    published. The container engine is lifted out: publishing the i-th
    service yields an abstract outcome, a URL or a failure. */
module Builder {
  import opened Wrappers
  import opened Discovery

  /** What publishing one image returned: the published reference, or the
      error Publish reported. */
  datatype PublishOutcome = Published(url: string) | PublishFailed(reason: string)

  /** Why a run ended in error; each case is one error message of the runner. */
  datatype Failure =
    | Usage                                   // wrong number of arguments
    | RepoMissing(path: string)               // the repository path does not exist
    | ConnectFailed(reason: string)           // the Dagger engine could not be reached
    | NoServices                              // analyzeRepository found nothing
    | NoDockerfile(service: string)           // a service without a Dockerfile
    | PushFailed(service: string, reason: string) // publishing an image failed

  /** BuildResult; `error` is None where the JSON field is omitted. */
  datatype BuildResult = BuildResult(
    client: string, server: string, ports: map<string, int>,
    error: Option<Failure>, dagSummary: string, llmInsights: string)

  /** The result buildAndPushImages starts from: nothing set, no ports. */
  const Initial: BuildResult := BuildResult("", "", map[], None, "", "")

  /** A service can be built and published. */
  predicate Buildable(s: ServiceConfig, outcome: PublishOutcome)
  {
    s.dockerfileExists && outcome.Published?
  }

  /** The error a service that is not Buildable stops the loop with. */
  function FailureOf(s: ServiceConfig, outcome: PublishOutcome): Failure
    requires !Buildable(s, outcome)
  {
    if !s.dockerfileExists then NoDockerfile(s.name) else PushFailed(s.name, outcome.reason)
  }

  /** Recording a published service: its port under its name, its URL in the
      client or server field by name; any other service takes the client
      field only while that is still empty. */
  function Store(r: BuildResult, s: ServiceConfig, url: string): (r': BuildResult)
    ensures r'.ports == r.ports[s.name := s.port]
    ensures r'.error == r.error && r'.dagSummary == r.dagSummary && r'.llmInsights == r.llmInsights
    ensures r'.server == (if s.name == ServerName then url else r.server)
    ensures r'.client == url || r'.client == r.client
    ensures s.name == ClientName ==> r'.client == url
    ensures s.name == ServerName ==> r'.client == r.client
    ensures s.name != ClientName && r.client != "" ==> r'.client == r.client
  {
    var r' := r.(ports := r.ports[s.name := s.port]);
    if s.name == ClientName then r'.(client := url)
    else if s.name == ServerName then r'.(server := url)
    else if r'.client == "" then r'.(client := url)
    else r'
  }

  /** One iteration of the loop over the services. */
  function Step(r: BuildResult, s: ServiceConfig, outcome: PublishOutcome): (r': BuildResult)
    ensures r'.dagSummary == r.dagSummary && r'.llmInsights == r.llmInsights
    ensures Buildable(s, outcome) ==> r'.error == r.error && s.name in r'.ports && r'.ports[s.name] == s.port
    ensures !Buildable(s, outcome) ==> r'.error.Some? && r'.ports == r.ports
                                       && r'.client == r.client && r'.server == r.server
  {
    if Buildable(s, outcome) then Store(r, s, outcome.url)
    else r.(error := Some(FailureOf(s, outcome)))
  }

  /** The result after the loop has looked at the first n services; once an
      error is set nothing further happens. */
  function Upto(services: seq<ServiceConfig>, publish: nat -> PublishOutcome, n: nat): (r: BuildResult)
    requires n <= |services|
    ensures r.dagSummary == "" && r.llmInsights == ""
  {
    if n == 0 then Initial
    else
      var prev := Upto(services, publish, n - 1);
      if prev.error.Some? then prev else Step(prev, services[n - 1], publish(n - 1))
  }

  /** What buildAndPushImages returns: the summary and insights are left
      empty for main to fill, and the only errors are a missing Dockerfile
      and a failed push. */
  function Assembled(services: seq<ServiceConfig>, publish: nat -> PublishOutcome): (r: BuildResult)
    ensures r.dagSummary == "" && r.llmInsights == ""
    ensures r.error.Some? ==> r.error.value.NoDockerfile? || r.error.value.PushFailed?
  {
    BuildErrors(services, publish, |services|);
    Upto(services, publish, |services|)
  }

  /** buildAndPushImages: the loop with its early returns. */
  method BuildAndPushImages(services: seq<ServiceConfig>, publish: nat -> PublishOutcome)
    returns (result: BuildResult)
    ensures result == Assembled(services, publish)
  {
    result := Initial;
    for i := 0 to |services|
      invariant result == Upto(services, publish, i)
      invariant result.error.None?
    {
      var service := services[i];
      if !service.dockerfileExists {
        result := result.(error := Some(NoDockerfile(service.name)));
        FailureIsFinal(services, publish, i + 1);
        return;
      }
      var outcome := publish(i);
      if outcome.PublishFailed? {
        result := result.(error := Some(PushFailed(service.name, outcome.reason)));
        FailureIsFinal(services, publish, i + 1);
        return;
      }
      var url := outcome.url;
      result := result.(ports := result.ports[service.name := service.port]);
      if service.name == ClientName {
        result := result.(client := url);
      } else if service.name == ServerName {
        result := result.(server := url);
      } else if result.client == "" {
        result := result.(client := url);
      }
    }
  }

  // ---------------------------------------------------------------------
  // Properties of the assembled result

  /** Once an error is set, the rest of the services change nothing. */
  lemma {:induction false} FailureIsFinal(services: seq<ServiceConfig>, publish: nat -> PublishOutcome, k: nat)
    requires k <= |services| && Upto(services, publish, k).error.Some?
    ensures Assembled(services, publish) == Upto(services, publish, k)
    decreases |services| - k
  {
    if k < |services| {
      FailureIsFinal(services, publish, k + 1);
    }
  }

  /** The loop only ever stops with a missing Dockerfile or a failed push. */
  lemma {:induction false} BuildErrors(services: seq<ServiceConfig>, publish: nat -> PublishOutcome, n: nat)
    requires n <= |services|
    ensures var e := Upto(services, publish, n).error;
      e.Some? ==> e.value.NoDockerfile? || e.value.PushFailed?
  {
    if n > 0 {
      BuildErrors(services, publish, n - 1);
    }
  }

  /** The loop gets past the first n services exactly when each of them has a
      Dockerfile and publishes. */
  lemma {:induction false} NoErrorIff(services: seq<ServiceConfig>, publish: nat -> PublishOutcome, n: nat)
    requires n <= |services|
    ensures Upto(services, publish, n).error.None?
        <==> forall i :: 0 <= i < n ==> Buildable(services[i], publish(i))
  {
    if n > 0 {
      NoErrorIff(services, publish, n - 1);
    }
  }

  /** buildAndPushImages succeeds exactly when every service is Buildable. */
  lemma SucceedsIff(services: seq<ServiceConfig>, publish: nat -> PublishOutcome)
    ensures Assembled(services, publish).error.None?
        <==> forall i :: 0 <= i < |services| ==> Buildable(services[i], publish(i))
  {
    NoErrorIff(services, publish, |services|);
  }

  /** A step that leaves no error stored a published service. */
  lemma StoredStep(services: seq<ServiceConfig>, publish: nat -> PublishOutcome, n: nat)
    requires 0 < n <= |services| && Upto(services, publish, n).error.None?
    ensures Upto(services, publish, n - 1).error.None?
    ensures Buildable(services[n - 1], publish(n - 1))
    ensures Upto(services, publish, n)
         == Store(Upto(services, publish, n - 1), services[n - 1], publish(n - 1).url)
  {
  }

  /** The names of the first n services. */
  function NamesUpTo(services: seq<ServiceConfig>, n: nat): (names: set<string>)
    requires n <= |services|
    ensures forall name :: name in names <==> exists i :: 0 <= i < n && services[i].name == name
  {
    if n == 0 then {} else NamesUpTo(services, n - 1) + {services[n - 1].name}
  }

  /** While no error is set, the ports map holds exactly the names seen so far. */
  lemma {:induction false} PortKeysSoFar(services: seq<ServiceConfig>, publish: nat -> PublishOutcome, n: nat)
    requires n <= |services| && Upto(services, publish, n).error.None?
    ensures Upto(services, publish, n).ports.Keys == NamesUpTo(services, n)
  {
    if n > 0 {
      StoredStep(services, publish, n);
      PortKeysSoFar(services, publish, n - 1);
    }
  }

  /** While no error is set, each name seen so far maps to the port of the
      last service with that name. */
  lemma {:induction false} PortValuesSoFar(services: seq<ServiceConfig>, publish: nat -> PublishOutcome, n: nat)
    requires n <= |services| && Upto(services, publish, n).error.None?
    ensures var ports := Upto(services, publish, n).ports;
      forall i :: 0 <= i < n && (forall j :: i < j < n ==> services[j].name != services[i].name)
        ==> services[i].name in ports && ports[services[i].name] == services[i].port
  {
    if n > 0 {
      StoredStep(services, publish, n);
      PortValuesSoFar(services, publish, n - 1);
      var s := services[n - 1];
      var ports := Upto(services, publish, n - 1).ports[s.name := s.port];
      assert Upto(services, publish, n).ports == ports;
      forall i | 0 <= i < n && (forall j :: i < j < n ==> services[j].name != services[i].name)
        ensures services[i].name in ports && ports[services[i].name] == services[i].port
      {
        if i < n - 1 {
          assert services[n - 1].name != services[i].name;
        }
      }
    }
  }

  /** On success, Ports maps every service's name to its port (the last one
      wins when two services share a name) and holds nothing else. */
  lemma PortsOnSuccess(services: seq<ServiceConfig>, publish: nat -> PublishOutcome)
    requires Assembled(services, publish).error.None?
    ensures var ports := Assembled(services, publish).ports;
      forall name :: name in ports <==> exists i :: 0 <= i < |services| && services[i].name == name
    ensures var ports := Assembled(services, publish).ports;
      forall i :: 0 <= i < |services| && (forall j :: i < j < |services| ==> services[j].name != services[i].name)
        ==> ports[services[i].name] == services[i].port
  {
    PortKeysSoFar(services, publish, |services|);
    PortValuesSoFar(services, publish, |services|);
  }

  /** The first service that is not Buildable decides the error, and only
      the services before it have ports recorded. */
  lemma StopsAtFirstFailure(services: seq<ServiceConfig>, publish: nat -> PublishOutcome, k: nat)
    requires k < |services|
    requires forall i :: 0 <= i < k ==> Buildable(services[i], publish(i))
    requires !Buildable(services[k], publish(k))
    ensures Assembled(services, publish).error == Some(FailureOf(services[k], publish(k)))
    ensures var ports := Assembled(services, publish).ports;
      forall name :: name in ports <==> exists i :: 0 <= i < k && services[i].name == name
  {
    NoErrorIff(services, publish, k);
    PortKeysSoFar(services, publish, k);
    FailureIsFinal(services, publish, k + 1);
  }

  // ---------------------------------------------------------------------
  // The client and server fields

  /** The URL an outcome carries ("" for a failure). */
  function UrlOf(outcome: PublishOutcome): string
  {
    if outcome.Published? then outcome.url else ""
  }

  /** The URL of the last of the first n services with the given name, or ""
      when there is none. */
  function LastUrlNamed(services: seq<ServiceConfig>, publish: nat -> PublishOutcome, n: nat, name: string): string
    requires n <= |services|
  {
    if n == 0 then ""
    else if services[n - 1].name == name then UrlOf(publish(n - 1))
    else LastUrlNamed(services, publish, n - 1, name)
  }

  /** The index of the last of the first n services with the given name, or
      -1 when there is none. */
  function LastIndexNamed(services: seq<ServiceConfig>, n: nat, name: string): (k: int)
    requires n <= |services|
    ensures -1 <= k < n
    ensures k >= 0 ==> services[k].name == name
    ensures forall j :: k < j < n ==> services[j].name != name
  {
    if n == 0 then -1
    else if services[n - 1].name == name then n - 1
    else LastIndexNamed(services, n - 1, name)
  }

  /** A service other than client and server, which may fill the client field. */
  predicate IsOther(s: ServiceConfig)
  {
    s.name != ClientName && s.name != ServerName
  }

  /** The first non-empty URL among the other services with index in
      [from, n), or "" when there is none. */
  function FirstOtherUrl(services: seq<ServiceConfig>, publish: nat -> PublishOutcome, from: nat, n: nat): string
    requires n <= |services|
    decreases n - from
  {
    if from >= n then ""
    else if IsOther(services[from]) && UrlOf(publish(from)) != "" then UrlOf(publish(from))
    else FirstOtherUrl(services, publish, from + 1, n)
  }

  /** The client field as the switch of buildAndPushImages leaves it: the
      URL of the last service named client, unless that is empty; then the
      first non-empty URL of another service published after it. It is never
      a server's URL. */
  function ExpectedClient(services: seq<ServiceConfig>, publish: nat -> PublishOutcome, n: nat): (c: string)
    requires n <= |services|
    ensures c != "" ==> exists i :: 0 <= i < n && c == UrlOf(publish(i)) && services[i].name != ServerName
  {
    FirstOtherUrlIsOther(services, publish, LastIndexNamed(services, n, ClientName) + 1, n);
    var k := LastIndexNamed(services, n, ClientName);
    var own := if k >= 0 then UrlOf(publish(k)) else "";
    if own != "" then own else FirstOtherUrl(services, publish, k + 1, n)
  }

  /** A URL FirstOtherUrl finds is that of another service in its range. */
  lemma {:induction false} FirstOtherUrlIsOther(services: seq<ServiceConfig>, publish: nat -> PublishOutcome, from: nat, n: nat)
    requires n <= |services|
    ensures var u := FirstOtherUrl(services, publish, from, n);
      u != "" ==> exists i :: from <= i < n && IsOther(services[i]) && u == UrlOf(publish(i))
    decreases n - from
  {
    if from < n {
      FirstOtherUrlIsOther(services, publish, from + 1, n);
    }
  }

  /** Extending the range of FirstOtherUrl by one service only matters when
      nothing was found before it. */
  lemma {:induction false} FirstOtherUrlExtend(services: seq<ServiceConfig>, publish: nat -> PublishOutcome, from: nat, n: nat)
    requires from <= n < |services|
    ensures FirstOtherUrl(services, publish, from, n + 1) ==
      var found := FirstOtherUrl(services, publish, from, n);
      if found != "" then found
      else if IsOther(services[n]) then UrlOf(publish(n))
      else ""
    decreases n - from
  {
    if from < n {
      FirstOtherUrlExtend(services, publish, from + 1, n);
    }
  }

  /** While no error is set, server is the URL of the last service named server. */
  lemma {:induction false} ServerSoFar(services: seq<ServiceConfig>, publish: nat -> PublishOutcome, n: nat)
    requires n <= |services| && Upto(services, publish, n).error.None?
    ensures Upto(services, publish, n).server == LastUrlNamed(services, publish, n, ServerName)
  {
    if n > 0 {
      StoredStep(services, publish, n);
      ServerSoFar(services, publish, n - 1);
    }
  }

  /** While no error is set, client is ExpectedClient. */
  lemma {:induction false} ClientSoFar(services: seq<ServiceConfig>, publish: nat -> PublishOutcome, n: nat)
    requires n <= |services| && Upto(services, publish, n).error.None?
    ensures Upto(services, publish, n).client == ExpectedClient(services, publish, n)
  {
    if n > 0 {
      StoredStep(services, publish, n);
      ClientSoFar(services, publish, n - 1);
      ClientStep(services, publish, n);
    }
  }

  /** One published service keeps the client field equal to ExpectedClient. */
  lemma ClientStep(services: seq<ServiceConfig>, publish: nat -> PublishOutcome, n: nat)
    requires 0 < n <= |services| && Buildable(services[n - 1], publish(n - 1))
    requires Upto(services, publish, n - 1).error.None?
    requires Upto(services, publish, n - 1).client == ExpectedClient(services, publish, n - 1)
    ensures Store(Upto(services, publish, n - 1), services[n - 1], publish(n - 1).url).client
            == ExpectedClient(services, publish, n)
  {
    var s := services[n - 1];
    var url := publish(n - 1).url;
    var prev := Upto(services, publish, n - 1);
    if s.name == ClientName {
      assert LastIndexNamed(services, n, ClientName) == n - 1;
      assert FirstOtherUrl(services, publish, n, n) == "";
    } else {
      var k := LastIndexNamed(services, n - 1, ClientName);
      assert LastIndexNamed(services, n, ClientName) == k;
      FirstOtherUrlExtend(services, publish, k + 1, n - 1);
      if s.name == ServerName {
        assert Store(prev, s, url).client == prev.client;
      } else if prev.client == "" {
        assert Store(prev, s, url).client == url;
      } else {
        assert Store(prev, s, url).client == prev.client;
      }
    }
  }

  /** On success the server field holds the URL of the last service named
      server, and the client field is ExpectedClient. */
  lemma ClientAndServerFields(services: seq<ServiceConfig>, publish: nat -> PublishOutcome)
    requires Assembled(services, publish).error.None?
    ensures Assembled(services, publish).server == LastUrlNamed(services, publish, |services|, ServerName)
    ensures Assembled(services, publish).client == ExpectedClient(services, publish, |services|)
  {
    ServerSoFar(services, publish, |services|);
    ClientSoFar(services, publish, |services|);
  }
}
