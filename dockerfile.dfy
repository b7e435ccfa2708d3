/** parseDockerfilePort: the port a Dockerfile's first usable EXPOSE
    directive names. Reading the file is lifted out: the function receives
    what os.ReadFile returned, the content or a read failure. */
module Dockerfile {
  import opened Wrappers
  import opened Text

  datatype PortError =
    | ReadFailed                     // "failed to read Dockerfile"
    | InvalidPortNumber(text: string) // "invalid port number in EXPOSE directive"
    | PortOutOfRange(port: int)       // "port number out of range"
    | NoExposeDirective               // "no EXPOSE directive found in Dockerfile"

  const MinPort: int := 1
  const MaxPort: int := 65535

  /** A line as the parser compares it: upper-cased, then trimmed, so with
      no surrounding whitespace left. */
  function Normalize(line: string): (t: string)
    ensures |t| <= |line|
    ensures t == [] || (!IsSpace(t[0]) && !IsSpace(t[|t| - 1]))
  {
    TrimSpace(ToUpper(line))
  }

  /** A line the parser acts on: it starts with EXPOSE once normalized and
      has a second whitespace-separated field. */
  predicate IsExposeLine(line: string)
  {
    var t := Normalize(line);
    "EXPOSE" <= t && |Fields(t)| >= 2
  }

  /** What Normalize leaves holds no lower-case ASCII letter. */
  lemma NormalizedUpper(line: string)
    ensures forall i :: 0 <= i < |Normalize(line)| ==> !('a' <= Normalize(line)[i] <= 'z')
  {
    var u := ToUpper(line);
    assert forall i :: 0 <= i < |u| ==> !('a' <= u[i] <= 'z') by { ToUpperRunes(line); }
    var left := TrimLeftSpace(u);
    NoLowerWithin(u, left, |u| - |left|);
    var t := TrimRightSpace(left);
    NoLowerWithin(left, t, 0);
    assert t == Normalize(line);
  }

  lemma NoLowerWithin(u: string, t: string, k: int)
    requires 0 <= k && k + |t| <= |u| && t == u[k..k + |t|]
    requires forall i :: 0 <= i < |u| ==> !('a' <= u[i] <= 'z')
    ensures forall i :: 0 <= i < |t| ==> !('a' <= t[i] <= 'z')
  {
    assert forall i :: 0 <= i < |t| ==> t[i] == u[k + i];
  }

  /** The first field of an EXPOSE line begins with the keyword: the test is
      a prefix test, so a run-on keyword ("EXPOSED 80") passes it as well. */
  lemma ExposeLineKeyword(line: string)
    requires IsExposeLine(line)
    ensures "EXPOSE" <= Fields(Normalize(line))[0]
  {
    var t := Normalize(line);
    KeywordIsWord();
    TakeWordPrefix("EXPOSE", t);
    assert TrimLeftSpace(t) == t;
  }

  /** The text before the first '/', if there is one ("3000/tcp" gives "3000"). */
  function StripProtocol(field: string): (number: string)
    ensures '/' !in number
  {
    if '/' in field then SplitPiecesFree(field, '/'); Split(field, '/')[0] else field
  }

  /** The port one EXPOSE field names: Atoi of the text before any protocol
      suffix, which must lie in 1..65535. Text that is not a decimal integer
      is an invalid number, and so is one beyond the int64 range, which Atoi
      refuses; a decimal integer in int64 range outside 1..65535 is out of
      range. */
  function PortOfField(field: string): (r: Result<int, PortError>)
    ensures r.Ok? ==> MinPort <= r.value <= MaxPort
    ensures r.Err? ==> r.error.InvalidPortNumber? || r.error.PortOutOfRange?
    ensures var n := StripProtocol(field);
      r.Ok? <==> IsIntText(n) && MinPort <= IntValue(n) <= MaxPort
    ensures var n := StripProtocol(field);
      r.Ok? ==> r.value == IntValue(n)
    ensures var n := StripProtocol(field);
      !IsIntText(n) ==> r == Err(InvalidPortNumber(n))
    ensures var n := StripProtocol(field);
      (IsIntText(n) && MinInt64 <= IntValue(n) <= MaxInt64 && !(MinPort <= IntValue(n) <= MaxPort))
        ==> r == Err(PortOutOfRange(IntValue(n)))
    ensures var n := StripProtocol(field);
      (IsIntText(n) && !(MinInt64 <= IntValue(n) <= MaxInt64)) ==> r == Err(InvalidPortNumber(n))
  {
    var number := StripProtocol(field);
    match Atoi(number)
    case None => Err(InvalidPortNumber(number))
    case Some(p) => if p < MinPort || p > MaxPort then Err(PortOutOfRange(p)) else Ok(p)
  }

  /** The outcome an EXPOSE line decides: that of its second field. */
  function PortOfDirective(line: string): (r: Result<int, PortError>)
    requires IsExposeLine(line)
    ensures r.Ok? ==> MinPort <= r.value <= MaxPort
    ensures r.Err? ==> r.error.InvalidPortNumber? || r.error.PortOutOfRange?
  {
    PortOfField(Fields(Normalize(line))[1])
  }

  /** What one line tells the scan: nothing (keep looking), or the outcome. */
  datatype LineVerdict = Skip | Decide(outcome: Result<int, PortError>)

  /** An EXPOSE line decides the outcome; every other line is skipped. */
  function Classify(line: string): (v: LineVerdict)
    ensures v.Decide? <==> IsExposeLine(line)
    ensures v != Decide(Err(NoExposeDirective))
    ensures v.Decide? && v.outcome.Ok? ==> MinPort <= v.outcome.value <= MaxPort
    ensures v.Decide? && v.outcome.Err? ==> v.outcome.error.InvalidPortNumber? || v.outcome.error.PortOutOfRange?
  {
    if IsExposeLine(line) then Decide(PortOfDirective(line)) else Skip
  }

  /** The first-match search of the loop over the lines: the first line that
      decides gives the outcome; when none does, NoExposeDirective. */
  function FirstDecision(lines: seq<string>, classify: string -> LineVerdict): (r: Result<int, PortError>)
    ensures r == Err(NoExposeDirective) || exists i :: 0 <= i < |lines| && classify(lines[i]) == Decide(r)
  {
    if lines == [] then Err(NoExposeDirective)
    else match classify(lines[0])
      case Decide(outcome) => outcome
      case Skip =>
        var rest := lines[1..];
        var r := FirstDecision(rest, classify);
        assert forall i :: 0 <= i < |rest| ==> rest[i] == lines[i + 1];
        r
  }

  /** The scan of parseDockerfilePort over the Dockerfile's lines. */
  function PortFromLines(lines: seq<string>): (r: Result<int, PortError>)
    ensures r.Ok? ==> MinPort <= r.value <= MaxPort
    ensures r.Err? ==> r.error != ReadFailed
  {
    FirstDecision(lines, Classify)
  }

  /** parseDockerfilePort, given the result of reading the Dockerfile. */
  function ParseDockerfilePort(content: Option<string>): (r: Result<int, PortError>)
    ensures r.Ok? ==> MinPort <= r.value <= MaxPort
    ensures r == Err(ReadFailed) <==> content.None?
  {
    match content
    case None => Err(ReadFailed)
    case Some(text) => PortFromLines(Split(text, '\n'))
  }

  // ---------------------------------------------------------------------
  // Properties of the scan

  /** The first deciding line gives the outcome, whatever follows it. */
  lemma {:induction false} FirstDecisionAt(before: seq<string>, line: string, after: seq<string>, classify: string -> LineVerdict)
    requires forall i :: 0 <= i < |before| ==> classify(before[i]) == Skip
    requires classify(line).Decide?
    ensures FirstDecision(before + [line] + after, classify) == classify(line).outcome
  {
    var lines := before + [line] + after;
    if before == [] {
      assert lines == [line] + after;
    } else {
      assert lines[0] == before[0];
      assert lines[1..] == before[1..] + [line] + after;
      FirstDecisionAt(before[1..], line, after, classify);
    }
  }

  /** Without a deciding line the search ends with NoExposeDirective. */
  lemma {:induction false} FirstDecisionNone(lines: seq<string>, classify: string -> LineVerdict)
    requires forall i :: 0 <= i < |lines| ==> classify(lines[i]) == Skip
    ensures FirstDecision(lines, classify) == Err(NoExposeDirective)
  {
    if lines != [] {
      assert classify(lines[0]) == Skip;
      FirstDecisionNone(lines[1..], classify);
    }
  }

  /** Of two lines, a skipped first leaves the decision to the second. */
  lemma FirstDecisionSecond(first: string, second: string, classify: string -> LineVerdict)
    requires classify(first) == Skip && classify(second).Decide?
    ensures FirstDecision([first, second], classify) == classify(second).outcome
  {
    var lines := [first, second];
    assert lines[1..] == [second];
  }

  /** A deciding line is found when there is one: the search then ends with
      one of the decided outcomes, not with NoExposeDirective. */
  lemma {:induction false} FirstDecisionFound(lines: seq<string>, classify: string -> LineVerdict, k: nat)
    requires k < |lines| && classify(lines[k]).Decide?
    requires forall line :: classify(line) != Decide(Err(NoExposeDirective))
    ensures FirstDecision(lines, classify) != Err(NoExposeDirective)
  {
    if classify(lines[0]).Skip? {
      var rest := lines[1..];
      assert forall i :: 0 <= i < |rest| ==> rest[i] == lines[i + 1];
      FirstDecisionFound(rest, classify, k - 1);
    }
  }

  /** The first EXPOSE line decides: lines before it are skipped, lines after
      it are never looked at. */
  lemma FirstExposeLineDecides(before: seq<string>, line: string, after: seq<string>)
    requires forall i :: 0 <= i < |before| ==> !IsExposeLine(before[i])
    requires IsExposeLine(line)
    ensures PortFromLines(before + [line] + after) == PortOfDirective(line)
  {
    assert forall i :: 0 <= i < |before| ==> Classify(before[i]) == Skip;
    FirstDecisionAt(before, line, after, Classify);
  }

  /** NoExposeDirective is reported exactly when no line is an EXPOSE line. */
  lemma NoExposeDirectiveIff(lines: seq<string>)
    ensures PortFromLines(lines) == Err(NoExposeDirective)
        <==> forall i :: 0 <= i < |lines| ==> !IsExposeLine(lines[i])
  {
    if forall i :: 0 <= i < |lines| ==> !IsExposeLine(lines[i]) {
      assert forall i :: 0 <= i < |lines| ==> Classify(lines[i]) == Skip;
      FirstDecisionNone(lines, Classify);
    } else {
      var k :| 0 <= k < |lines| && IsExposeLine(lines[k]);
      FirstDecisionFound(lines, Classify, k);
    }
  }

  /** A protocol suffix does not change the outcome of a field. */
  lemma ProtocolSuffixIgnored(number: string, protocol: string)
    requires '/' !in number
    ensures PortOfField(number + "/" + protocol) == PortOfField(number)
  {
    SplitAtSeparator(number, protocol, '/');
  }

  /** An EXPOSE line whose argument is one word decides what that word, upper-cased,
      names as a port. */
  lemma ExposeLineDirective(lead: string, keyword: string, arg: string, trail: string)
    requires AllSpace(lead) && AllSpace(trail)
    requires ToUpper(keyword) == "EXPOSE"
    requires IsWord(arg)
    ensures IsExposeLine(lead + keyword + " " + arg + trail)
    ensures PortOfDirective(lead + keyword + " " + arg + trail) == PortOfField(ToUpper(arg))
  {
    ExposeLineFields(lead, keyword, arg, trail);
  }

  /** An EXPOSE line naming p, written in any letter case and with any
      surrounding whitespace, yields p. */
  lemma ExposeLineYieldsPort(lead: string, keyword: string, p: int, trail: string)
    requires AllSpace(lead) && AllSpace(trail)
    requires ToUpper(keyword) == "EXPOSE"
    requires MinPort <= p <= MaxPort
    ensures IsExposeLine(lead + keyword + " " + Decimal(p) + trail)
    ensures PortOfDirective(lead + keyword + " " + Decimal(p) + trail) == Ok(p)
  {
    var number := Decimal(p);
    DecimalPortWord(p);
    AtoiDecimal(p);
    ExposeLineDirective(lead, keyword, number, trail);
  }

  /** The same with a protocol suffix such as "/tcp" after the number. */
  lemma ExposeLineWithProtocol(lead: string, keyword: string, p: int, protocol: string, trail: string)
    requires AllSpace(lead) && AllSpace(trail)
    requires ToUpper(keyword) == "EXPOSE"
    requires MinPort <= p <= MaxPort
    requires forall i :: 0 <= i < |protocol| ==> !IsSpace(protocol[i])
    ensures IsExposeLine(lead + keyword + " " + Decimal(p) + "/" + protocol + trail)
    ensures PortOfDirective(lead + keyword + " " + Decimal(p) + "/" + protocol + trail) == Ok(p)
  {
    var arg := Decimal(p) + "/" + protocol;
    assert lead + keyword + " " + arg + trail == lead + keyword + " " + Decimal(p) + "/" + protocol + trail;
    SuffixedPortField(p, protocol);
    ExposeLineDirective(lead, keyword, arg, trail);
  }

  /** "p/protocol" is one word, and upper-cased it still names p. */
  lemma SuffixedPortField(p: int, protocol: string)
    requires MinPort <= p <= MaxPort
    requires forall i :: 0 <= i < |protocol| ==> !IsSpace(protocol[i])
    ensures IsWord(Decimal(p) + "/" + protocol)
    ensures PortOfField(ToUpper(Decimal(p) + "/" + protocol)) == Ok(p)
  {
    var number := Decimal(p);
    var arg := number + "/" + protocol;
    DecimalPortWord(p);
    assert IsWord(arg) by {
      assert forall i :: 0 <= i < |arg| ==> (i < |number| && arg[i] == number[i]) || arg[i] == '/' || (i > |number| && arg[i] == protocol[i - |number| - 1]);
    }
    assert ToUpper(arg) == number + "/" + ToUpper(protocol) by {
      ToUpperConcat(number, "/" + protocol);
      ToUpperConcat("/", protocol);
      ToUpperFixed("/");
    }
    ProtocolSuffixIgnored(number, ToUpper(protocol));
    AtoiDecimal(p);
  }

  /** A '+' sign before the number is accepted: "+p" names p. */
  lemma SignedPortField(p: int)
    requires MinPort <= p <= MaxPort
    ensures PortOfField("+" + Decimal(p)) == Ok(p)
  {
    var d := Decimal(p);
    var f := "+" + d;
    assert f[1..] == d;
    assert '/' !in f;
    assert IsIntText(f) && IntValue(f) == p;
  }

  /** Leading zeros are accepted: "0p" names p. */
  lemma LeadingZeroField(p: int)
    requires MinPort <= p <= MaxPort
    ensures PortOfField("0" + Decimal(p)) == Ok(p)
  {
    var d := Decimal(p);
    var f := "0" + d;
    LeadingZero(d);
    assert '/' !in f;
    assert IsIntText(f) && IntValue(f) == p;
  }

  /** Zero and negative numbers are read, then refused as out of range. */
  lemma NonPositiveField(n: int)
    requires MinInt64 <= n <= 0
    ensures PortOfField(Decimal(n)) == Err(PortOutOfRange(n))
  {
    AtoiDecimal(n);
  }

  /** A number above 65535 is read, then refused as out of range. */
  lemma AboveRangeField(n: int)
    requires MaxPort < n <= MaxInt64
    ensures PortOfField(Decimal(n)) == Err(PortOutOfRange(n))
  {
    AtoiDecimal(n);
  }

  /** An EXPOSE line naming "+p" yields p, like one naming p. */
  lemma ExposeLineSignedPort(lead: string, keyword: string, p: int, trail: string)
    requires AllSpace(lead) && AllSpace(trail)
    requires ToUpper(keyword) == "EXPOSE"
    requires MinPort <= p <= MaxPort
    ensures IsExposeLine(lead + keyword + " +" + Decimal(p) + trail)
    ensures PortOfDirective(lead + keyword + " +" + Decimal(p) + trail) == Ok(p)
  {
    var arg := "+" + Decimal(p);
    DecimalPortWord(p);
    assert IsWord(arg) && ToUpper(arg) == arg by {
      assert forall i :: 0 <= i < |arg| ==> arg[i] == '+' || IsDigit(arg[i]);
      ToUpperFixed(arg);
    }
    assert lead + keyword + " " + arg + trail == lead + keyword + " +" + Decimal(p) + trail;
    SignedPortField(p);
    ExposeLineDirective(lead, keyword, arg, trail);
  }

  /** The decimal text of a port is one word of digits, unchanged by ToUpper. */
  lemma DecimalPortWord(p: int)
    requires MinPort <= p <= MaxPort
    ensures IsWord(Decimal(p)) && ToUpper(Decimal(p)) == Decimal(p)
  {
    var d := Decimal(p);
    assert forall i :: 0 <= i < |d| ==> IsDigit(d[i]);
    ToUpperFixed(d);
  }

  /** The keyword is one word. */
  lemma KeywordIsWord()
    ensures IsWord("EXPOSE")
  {
    var k := "EXPOSE";
    assert forall i :: 0 <= i < |k| ==> 'A' <= k[i] <= 'Z';
  }

  /** ToUpper leaves the keyword alone. */
  lemma UpperKeyword()
    ensures ToUpper("EXPOSE") == "EXPOSE"
  {
    var k := "EXPOSE";
    assert forall i :: 0 <= i < |k| ==> 'A' <= k[i] <= 'Z';
    ToUpperFixed(k);
  }

  /** The lower-case keyword upper-cases to the keyword. */
  lemma LowerKeyword()
    ensures ToUpper("expose") == "EXPOSE"
  {
    var k := "expose";
    assert forall i :: 0 <= i < |k| ==> 'a' <= k[i] <= 'z';
  }

  /** Upper-casing a line keeps its whitespace and the space after the keyword. */
  lemma UpperExposeLine(lead: string, keyword: string, arg: string, trail: string)
    requires AllSpace(lead) && AllSpace(trail)
    requires ToUpper(keyword) == "EXPOSE"
    ensures ToUpper(lead + keyword + " " + arg + trail) == lead + ("EXPOSE " + ToUpper(arg)) + trail
  {
    ToUpperConcat(lead + keyword + " " + arg, trail);
    ToUpperConcat(lead + keyword + " ", arg);
    ToUpperConcat(lead + keyword, " ");
    ToUpperConcat(lead, keyword);
    ToUpperFixed(lead);
    ToUpperFixed(trail);
    ToUpperFixed(" ");
  }

  /** "EXPOSE " followed by one word is already trimmed. */
  lemma ExposeCoreTrimmed(u: string)
    requires IsWord(u)
    ensures TrimSpace("EXPOSE " + u) == "EXPOSE " + u
  {
    var core := "EXPOSE " + u;
    assert core[0] == 'E' && core[|core| - 1] == u[|u| - 1];
    TrimSpaceUnpadded(core);
  }

  /** "EXPOSE " followed by one word has exactly those two fields. */
  lemma ExposeCoreFields(u: string)
    requires IsWord(u)
    ensures Fields("EXPOSE " + u) == ["EXPOSE", u]
  {
    var ws := ["EXPOSE", u];
    KeywordIsWord();
    assert IsWord(ws[0]) && IsWord(ws[1]);
    assert Join(ws, ' ') == "EXPOSE " + u;
    FieldsOfJoin(ws);
  }

  /** The fields of a normalized EXPOSE line whose argument is one word. */
  lemma ExposeLineFields(lead: string, keyword: string, arg: string, trail: string)
    requires AllSpace(lead) && AllSpace(trail)
    requires ToUpper(keyword) == "EXPOSE"
    requires IsWord(arg)
    ensures IsExposeLine(lead + keyword + " " + arg + trail)
    ensures Fields(Normalize(lead + keyword + " " + arg + trail)) == ["EXPOSE", ToUpper(arg)]
  {
    var u := ToUpper(arg);
    assert IsWord(u);
    NormalizeExposeLine(lead, keyword, arg, trail);
    NormalizedExpose(lead + keyword + " " + arg + trail, u);
  }

  /** Normalizing such a line leaves "EXPOSE", one space and the upper-cased argument. */
  lemma NormalizeExposeLine(lead: string, keyword: string, arg: string, trail: string)
    requires AllSpace(lead) && AllSpace(trail)
    requires ToUpper(keyword) == "EXPOSE"
    requires IsWord(ToUpper(arg))
    ensures Normalize(lead + keyword + " " + arg + trail) == "EXPOSE " + ToUpper(arg)
  {
    UpperExposeLine(lead, keyword, arg, trail);
    ExposeCoreTrimmed(ToUpper(arg));
    TrimSpacePadded(lead, "EXPOSE " + ToUpper(arg), trail);
  }

  /** A line that normalizes to "EXPOSE" and one word is an EXPOSE line with those fields. */
  lemma NormalizedExpose(line: string, u: string)
    requires IsWord(u)
    requires Normalize(line) == "EXPOSE " + u
    ensures IsExposeLine(line)
    ensures Fields(Normalize(line)) == ["EXPOSE", u]
  {
    assert "EXPOSE" <= "EXPOSE " + u;
    ExposeCoreFields(u);
  }

  // ---------------------------------------------------------------------
  // Examples of the scan's edge cases

  /** The decimal texts the examples use. */
  lemma Decimal8080()
    ensures Decimal(8080) == "8080"
  {
    assert NatToDecimal(8) == "8";
    assert NatToDecimal(80) == "80";
    assert NatToDecimal(808) == "808";
  }

  lemma Decimal3000()
    ensures Decimal(3000) == "3000"
  {
    assert NatToDecimal(3) == "3";
    assert NatToDecimal(30) == "30";
    assert NatToDecimal(300) == "300";
  }

  lemma Decimal70000()
    ensures Decimal(70000) == "70000"
  {
    assert NatToDecimal(7) == "7";
    assert NatToDecimal(70) == "70";
    assert NatToDecimal(700) == "700";
    assert NatToDecimal(7000) == "7000";
  }

  /** A bare EXPOSE line is skipped, not an error. */
  lemma BareExposeSkipped()
    ensures PortFromLines(["EXPOSE", "expose 8080"]) == Ok(8080)
  {
    assert IsExposeLine("expose 8080") && PortOfDirective("expose 8080") == Ok(8080) by {
      Decimal8080();
      assert "" + "expose" + " " + Decimal(8080) + "" == "expose 8080";
      LowerKeyword();
      ExposeLineYieldsPort("", "expose", 8080, "");
    }
    BareKeywordSkipped();
    SkipThenDecide("EXPOSE", "expose 8080");
  }

  /** Two lines, the first no EXPOSE line: the second decides. */
  lemma SkipThenDecide(first: string, second: string)
    requires !IsExposeLine(first) && IsExposeLine(second)
    ensures PortFromLines([first, second]) == PortOfDirective(second)
  {
    FirstDecisionSecond(first, second, Classify);
  }

  /** The keyword alone is not an EXPOSE line: it has one field. */
  lemma BareKeywordSkipped()
    ensures !IsExposeLine("EXPOSE")
  {
    UpperKeyword();
    TrimSpaceUnpadded("EXPOSE");
    KeywordFields();
  }

  /** The keyword alone is one field. */
  lemma KeywordFields()
    ensures Fields("EXPOSE") == ["EXPOSE"]
  {
    KeywordIsWord();
    assert "EXPOSE" + "" == "EXPOSE";
    FieldsAfterWord("EXPOSE", "");
  }

  /** A line such as "  expose 8080\r" yields 8080. */
  lemma PaddedLowerCaseLine()
    ensures PortFromLines(["  expose 8080\r"]) == Ok(8080)
  {
    assert [] + ["  expose 8080\r"] + [] == ["  expose 8080\r"];
    assert IsExposeLine("  expose 8080\r") && PortOfDirective("  expose 8080\r") == Ok(8080) by {
      Decimal8080();
      assert "  " + "expose" + " " + Decimal(8080) + "\r" == "  expose 8080\r";
      LowerKeyword();
      ExposeLineYieldsPort("  ", "expose", 8080, "\r");
    }
    FirstExposeLineDecides([], "  expose 8080\r", []);
  }

  /** "EXPOSE 3000/tcp" yields 3000. */
  lemma ProtocolSuffixExample()
    ensures PortFromLines(["EXPOSE 3000/tcp"]) == Ok(3000)
  {
    assert [] + ["EXPOSE 3000/tcp"] + [] == ["EXPOSE 3000/tcp"];
    assert IsExposeLine("EXPOSE 3000/tcp") && PortOfDirective("EXPOSE 3000/tcp") == Ok(3000) by {
      Decimal3000();
      assert "" + "EXPOSE" + " " + Decimal(3000) + "/" + "tcp" + "" == "EXPOSE 3000/tcp";
      UpperKeyword();
      ExposeLineWithProtocol("", "EXPOSE", 3000, "tcp", "");
    }
    FirstExposeLineDecides([], "EXPOSE 3000/tcp", []);
  }

  /** An out-of-range port in the first EXPOSE line is an error even when a
      later line holds a valid one. */
  lemma OutOfRangeStopsScan()
    ensures PortFromLines(["EXPOSE 70000", "EXPOSE 80"]) == Err(PortOutOfRange(70000))
  {
    assert [] + ["EXPOSE 70000"] + ["EXPOSE 80"] == ["EXPOSE 70000", "EXPOSE 80"];
    assert IsExposeLine("EXPOSE 70000") && PortOfDirective("EXPOSE 70000") == Err(PortOutOfRange(70000)) by {
      Decimal70000();
      assert "" + "EXPOSE" + " " + Decimal(70000) + "" == "EXPOSE 70000";
      OutOfRangeField();
      UpperKeyword();
      ExposeLineDirective("", "EXPOSE", Decimal(70000), "");
    }
    FirstExposeLineDecides([], "EXPOSE 70000", ["EXPOSE 80"]);
  }

  /** The field "70000" is one word and parses to a port out of range. */
  lemma OutOfRangeField()
    ensures IsWord(Decimal(70000)) && PortOfField(ToUpper(Decimal(70000))) == Err(PortOutOfRange(70000))
  {
    var d := Decimal(70000);
    assert forall i :: 0 <= i < |d| ==> IsDigit(d[i]);
    ToUpperFixed(d);
    AtoiDecimal(70000);
  }
}
