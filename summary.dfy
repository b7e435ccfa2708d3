/** generateDAGSummary: the plain-text description of the build graph the
    runner hands to the LLM analysis and reports in its result: a header with
    the number of services, one bullet per service in order, then the fixed
    list of build steps. */
module Summary {
  import opened Wrappers
  import opened Text
  import opened Discovery

  /** "Build DAG for %d service(s):", a single line. */
  function HeaderLine(count: int): (h: string)
    ensures '\n' !in h
  {
    "Build DAG for " + Decimal(count) + " service(s):"
  }

  /** The bullet of one service: its name and port, and whether it brings its
      own Dockerfile (repeating the port as the EXPOSE value) or needs one
      generated. */
  function BulletLine(s: ServiceConfig): string
  {
    if s.dockerfileExists then
      "- " + s.name + ": Node.js service (port " + Decimal(s.port) + ") [Dockerfile with EXPOSE " + Decimal(s.port) + "]"
    else
      "- " + s.name + ": Node.js service (port " + Decimal(s.port) + ") [Auto-generated Dockerfile]"
  }

  /** The bullets of the services, in order. */
  function BulletLines(services: seq<ServiceConfig>): (lines: seq<string>)
    ensures |lines| == |services|
  {
    if services == [] then [] else [BulletLine(services[0])] + BulletLines(services[1..])
  }

  /** The build steps, after a blank line and their title, as appended after
      the bullets. */
  const StepText: string :=
    "\nBuild steps per service:\n"
    + "1. Parse Dockerfile EXPOSE directive for port detection\n"
    + "2. Platform: linux/amd64 (Nexlayer compatibility)\n"
    + "3. Use MCP-generated Dockerfile (nexlayer_generate_dockerfile)\n"
    + "4. Build container from Dockerfile\n"
    + "5. Push to ttl.sh registry\n"
    + "6. Return image URLs with detected ports for YAML generation\n"

  /** The lines, each followed by a newline, as the source appends them. */
  function Terminated(lines: seq<string>): string
  {
    if lines == [] then "" else lines[0] + "\n" + Terminated(lines[1..])
  }

  /** The whole summary: the header line, the bullets and the steps, each
      ending in a newline. */
  function SummaryText(services: seq<ServiceConfig>): (t: string)
    ensures HeaderLine(|services|) + "\n" <= t
    ensures |StepText| <= |t| && t[|t| - |StepText|..] == StepText
  {
    HeaderLine(|services|) + "\n" + Terminated(BulletLines(services)) + StepText
  }

  /** generateDAGSummary: the header, one bullet per service appended in a
      loop, then the build steps. */
  method GenerateDAGSummary(services: seq<ServiceConfig>) returns (summary: string)
    ensures summary == SummaryText(services)
  {
    var header := "Build DAG for " + Decimal(|services|) + " service(s):";
    summary := header + "\n";
    ghost var head := summary;
    assert Terminated(BulletLines(services[..0])) == [];
    assert summary == head + Terminated(BulletLines(services[..0]));
    for i := 0 to |services|
      invariant summary == head + Terminated(BulletLines(services[..i]))
    {
      var service := services[i];
      var line;
      if service.dockerfileExists {
        line := "- " + service.name + ": Node.js service (port " + Decimal(service.port)
          + ") [Dockerfile with EXPOSE " + Decimal(service.port) + "]";
      } else {
        line := "- " + service.name + ": Node.js service (port " + Decimal(service.port)
          + ") [Auto-generated Dockerfile]";
      }
      BulletsStep(head, services, i, line);
      summary := summary + line + "\n";
    }
    assert services[..|services|] == services;
    ghost var bullets := summary;
    summary := summary + "\nBuild steps per service:\n";
    summary := summary + "1. Parse Dockerfile EXPOSE directive for port detection\n";
    summary := summary + "2. Platform: linux/amd64 (Nexlayer compatibility)\n";
    summary := summary + "3. Use MCP-generated Dockerfile (nexlayer_generate_dockerfile)\n";
    summary := summary + "4. Build container from Dockerfile\n";
    summary := summary + "5. Push to ttl.sh registry\n";
    summary := summary + "6. Return image URLs with detected ports for YAML generation\n";
    AppendSeven(bullets, "\nBuild steps per service:\n",
      "1. Parse Dockerfile EXPOSE directive for port detection\n",
      "2. Platform: linux/amd64 (Nexlayer compatibility)\n",
      "3. Use MCP-generated Dockerfile (nexlayer_generate_dockerfile)\n",
      "4. Build container from Dockerfile\n",
      "5. Push to ttl.sh registry\n",
      "6. Return image URLs with detected ports for YAML generation\n");
  }

  /** Appending pieces one by one appends their concatenation. */
  lemma AppendSeven(p: string, a: string, b: string, c: string, d: string, e: string, f: string, g: string)
    ensures p + a + b + c + d + e + f + g == p + (a + b + c + d + e + f + g)
  {
  }

  /** One more turn of the loop: the bullets so far grow by the next one. */
  lemma BulletsStep(head: string, services: seq<ServiceConfig>, i: int, line: string)
    requires 0 <= i < |services| && line == BulletLine(services[i])
    ensures head + Terminated(BulletLines(services[..i])) + line + "\n"
            == head + Terminated(BulletLines(services[..i + 1]))
  {
    var before := BulletLines(services[..i]);
    BulletLinesSnoc(services, i, line);
    TerminatedSnoc(before, line);
    AppendLine(head, Terminated(before), line);
  }

  lemma BulletLinesSnoc(services: seq<ServiceConfig>, i: int, line: string)
    requires 0 <= i < |services| && line == BulletLine(services[i])
    ensures BulletLines(services[..i + 1]) == BulletLines(services[..i]) + [line]
  {
    assert services[..i + 1] == services[..i] + [services[i]];
    BulletLinesAppend(services[..i], services[i]);
  }

  lemma {:induction false} BulletLinesAppend(services: seq<ServiceConfig>, s: ServiceConfig)
    ensures BulletLines(services + [s]) == BulletLines(services) + [BulletLine(s)]
  {
    if services != [] {
      assert (services + [s])[1..] == services[1..] + [s];
      BulletLinesAppend(services[1..], s);
    }
  }

  /** A bullet opens with the service's name and port and closes with the
      bracketed note on its Dockerfile. */
  lemma BulletLineShape(s: ServiceConfig)
    ensures "- " + s.name + ": Node.js service (port " + Decimal(s.port) + ") [" <= BulletLine(s)
    ensures BulletLine(s)[|BulletLine(s)| - 1] == ']'
  {
  }

  /** The i-th bullet describes the i-th service. */
  lemma {:induction false} BulletLineAt(services: seq<ServiceConfig>, i: int)
    requires 0 <= i < |services|
    ensures BulletLines(services)[i] == BulletLine(services[i])
  {
    var rest := BulletLines(services[1..]);
    assert BulletLines(services) == [BulletLine(services[0])] + rest;
    if i > 0 {
      BulletLineAt(services[1..], i - 1);
      assert services[1..][i - 1] == services[i];
    }
  }

  /** The first line, its newline, then the other lines and the rest. */
  lemma TerminatedFront(lines: seq<string>, rest: string)
    requires lines != []
    ensures Terminated(lines) + rest == lines[0] + ['\n'] + (Terminated(lines[1..]) + rest)
  {
    var t := Terminated(lines[1..]);
    assert Terminated(lines) == lines[0] + "\n" + t;
    AppendAssociates(lines[0] + "\n", t, rest);
  }

  lemma AppendAssociates(a: string, b: string, c: string)
    ensures a + b + c == a + (b + c)
  {
  }

  lemma AppendLine(head: string, text: string, line: string)
    ensures head + text + line + "\n" == head + (text + line + "\n")
  {
  }

  /** Appending one more line adds it and its newline at the end. */
  lemma {:induction false} TerminatedSnoc(lines: seq<string>, line: string)
    ensures Terminated(lines + [line]) == Terminated(lines) + line + "\n"
  {
    if lines != [] {
      TerminatedSnoc(lines[1..], line);
      assert (lines + [line])[1..] == lines[1..] + [line];
    }
  }

  // ---------------------------------------------------------------------
  // The summary, line by line

  /** Splitting newline-free lines, each followed by a newline, and then more
      text gives back the lines, then the pieces of the rest. */
  lemma {:induction false} SplitTerminated(lines: seq<string>, rest: string)
    requires forall i :: 0 <= i < |lines| ==> '\n' !in lines[i]
    ensures Split(Terminated(lines) + rest, '\n') == lines + Split(rest, '\n')
  {
    if lines != [] {
      SplitTerminated(lines[1..], rest);
      SplitTerminatedStep(lines, rest);
    } else {
      assert Terminated(lines) + rest == rest;
    }
  }

  lemma SplitTerminatedStep(lines: seq<string>, rest: string)
    requires lines != [] && '\n' !in lines[0]
    requires Split(Terminated(lines[1..]) + rest, '\n') == lines[1..] + Split(rest, '\n')
    ensures Split(Terminated(lines) + rest, '\n') == lines + Split(rest, '\n')
  {
    var pieces := Split(rest, '\n');
    var others := Terminated(lines[1..]) + rest;
    assert Split(Terminated(lines) + rest, '\n') == [lines[0]] + Split(others, '\n') by {
      TerminatedFront(lines, rest);
      SplitAtSeparator(lines[0], others, '\n');
    }
    assert [lines[0]] + (lines[1..] + pieces) == lines + pieces by {
      assert lines == [lines[0]] + lines[1..];
    }
  }

  /** The count in the header reads back as the number of services. */
  lemma HeaderCount(count: int)
    requires MinInt64 <= count <= MaxInt64
    ensures var h := HeaderLine(count);
      |h| >= 26 && Atoi(h[14..|h| - 12]) == Some(count)
  {
    var d := Decimal(count);
    var h := HeaderLine(count);
    assert h[14..|h| - 12] == d;
    AtoiDecimal(count);
  }

  lemma BulletLineUnbroken(s: ServiceConfig)
    requires '\n' !in s.name
    ensures '\n' !in BulletLine(s)
  {
    BulletTextUnbroken();
    var port := Decimal(s.port);
    var lead := "- " + s.name + ": Node.js service (port " + port;
    assert '\n' !in lead by {
      UnbrokenConcat("- ", s.name);
      UnbrokenConcat("- " + s.name, ": Node.js service (port ");
      UnbrokenConcat("- " + s.name + ": Node.js service (port ", port);
    }
    if s.dockerfileExists {
      UnbrokenConcat(lead, ") [Dockerfile with EXPOSE ");
      UnbrokenConcat(lead + ") [Dockerfile with EXPOSE ", port);
      UnbrokenConcat(lead + ") [Dockerfile with EXPOSE " + port, "]");
    } else {
      UnbrokenConcat(lead, ") [Auto-generated Dockerfile]");
    }
  }

  /** The fixed text of a bullet holds no newline. */
  lemma BulletTextUnbroken()
    ensures '\n' !in "- " && '\n' !in ": Node.js service (port "
    ensures '\n' !in ") [Dockerfile with EXPOSE " && '\n' !in "]"
    ensures '\n' !in ") [Auto-generated Dockerfile]"
  {
    PortTextUnbroken();
    ExposeTextUnbroken();
    GeneratedTextUnbroken();
  }

  lemma PortTextUnbroken() ensures '\n' !in ": Node.js service (port " {}
  lemma ExposeTextUnbroken() ensures '\n' !in ") [Dockerfile with EXPOSE " {}
  lemma GeneratedTextUnbroken() ensures '\n' !in ") [Auto-generated Dockerfile]" {}

  lemma UnbrokenConcat(a: string, b: string)
    requires '\n' !in a && '\n' !in b
    ensures '\n' !in a + b
  {
  }

  /** Read back line by line, the summary gives the header with the number of
      services, then one bullet per service in service order, then the lines of
      the build steps, which are the same whatever the services. */
  lemma SummarySplitsIntoLines(services: seq<ServiceConfig>)
    requires forall i :: 0 <= i < |services| ==> '\n' !in services[i].name
    ensures Split(SummaryText(services), '\n')
            == [HeaderLine(|services|)] + BulletLines(services) + Split(StepText, '\n')
  {
    BulletLinesUnbroken(services);
    SplitAfterHeader(HeaderLine(|services|), BulletLines(services), StepText);
  }

  lemma BulletLinesUnbroken(services: seq<ServiceConfig>)
    requires forall i :: 0 <= i < |services| ==> '\n' !in services[i].name
    ensures forall i :: 0 <= i < |services| ==> '\n' !in BulletLines(services)[i]
  {
    forall i | 0 <= i < |services|
      ensures '\n' !in BulletLines(services)[i]
    {
      BulletLineAt(services, i);
      BulletLineUnbroken(services[i]);
    }
  }

  lemma SplitAfterHeader(header: string, lines: seq<string>, rest: string)
    requires '\n' !in header
    requires forall i :: 0 <= i < |lines| ==> '\n' !in lines[i]
    ensures Split(header + "\n" + Terminated(lines) + rest, '\n') == [header] + lines + Split(rest, '\n')
  {
    SplitTerminated([header] + lines, rest);
    assert Terminated([header] + lines) == header + "\n" + Terminated(lines) by {
      assert ([header] + lines)[1..] == lines;
    }
  }
}
