/** What the pipeline promises, proved about the specification in module
    Recon: the dependency check, the JS-URL extraction, the precondition
    guards, the brute-force preparation, and the run as a whole. */
module Properties {
  import opened Wrappers
  import opened Text
  import opened Order
  import opened Url
  import opened Recon

  // ----- Dependency check -----

  lemma RankOfIndex(i: nat)
    requires i < |Tools|
    ensures Rank(Tools[i]) == i
  {
  }

  lemma {:induction false} MissingPrefix(k: nat, installed: Tool -> bool)
    requires k <= |Tools|
    ensures var m := MissingAmong(Tools[..k], installed);
            (forall t :: t in m <==> Rank(t) < k && !installed(t))
            && (forall i, j :: 0 <= i < j < |m| ==> Rank(m[i]) < Rank(m[j]))
            && (forall i :: 0 <= i < |m| ==> Rank(m[i]) < k)
  {
    if k > 0 {
      MissingPrefix(k - 1, installed);
      assert Tools[..k][..k - 1] == Tools[..k - 1];
      RankOfIndex(k - 1);
      forall t ensures Rank(t) < k ==> Rank(t) < k - 1 || t == Tools[k - 1] {
        RankOfIndex(Rank(t));
      }
    }
  }

  /** check_dependencies reports exactly the tools that are not installed,
      in the order it declares them, and succeeds iff there are none. */
  lemma MissingTools(installed: Tool -> bool)
    ensures var m := MissingAmong(Tools, installed);
            (forall t :: t in m <==> !installed(t))
            && (m == [] <==> forall t :: installed(t))
            && (forall i, j :: 0 <= i < j < |m| ==> Rank(m[i]) < Rank(m[j]))
  {
    MissingPrefix(|Tools|, installed);
    assert Tools[..|Tools|] == Tools;
    var m := MissingAmong(Tools, installed);
    if m != [] {
      assert m[0] in m;
    }
  }

  // ----- JS-URL extraction -----

  /** Each collected URL is a stripped line that still carries the marker;
      nothing is collected iff no line matches. */
  lemma JsUrlsInProperties(lines: seq<string>)
    ensures forall x :: x in JsUrlsIn(lines) ==> x != [] && IsJsLine(x) && Strip(x) == x
    ensures JsUrlsIn(lines) == {} <==> forall l :: l in lines ==> !IsJsLine(l)
  {
    forall x | x in JsUrlsIn(lines) ensures x != [] && IsJsLine(x) && Strip(x) == x {
      var l :| l in lines && IsJsLine(l) && Strip(l) == x;
      StripKeepsJsMarker(l);
      StripIdempotent(l);
    }
    if exists l :: l in lines && IsJsLine(l) {
      var l :| l in lines && IsJsLine(l);
      assert Strip(l) in JsUrlsIn(lines);
    }
  }

  /** extract_js_files: the written list holds exactly the stripped matching
      lines of the crawl output and the wayback list (a missing file adds
      nothing), strictly sorted so without repeats, one per collected URL;
      without a match it fails and leaves everything as it was. */
  lemma ExtractJsResult(s: Snapshot)
    ensures var (ok, s') := ExtractJs(s);
            var sources := Lines(s.files, KatanaFile) + Lines(s.files, WaybackFile);
            (ok <==> exists l :: l in sources && IsJsLine(l))
            && (!ok ==> s' == s)
            && (ok ==> JsFile in s'.files
                       && s'.files == s.files[JsFile := s'.files[JsFile]]
                       && s'.log == s.log
                       && Ascending(s'.files[JsFile])
                       && |s'.files[JsFile]| == |JsUrls(s.files)|
                       && (forall x :: x in s'.files[JsFile] <==>
                             exists l :: l in sources && IsJsLine(l) && Strip(l) == x)
                       && (forall x :: x in s'.files[JsFile] ==> IsJsLine(x) && Strip(x) == x))
  {
    var katana, wayback := Lines(s.files, KatanaFile), Lines(s.files, WaybackFile);
    var sources := katana + wayback;
    JsUrlsInProperties(katana);
    JsUrlsInProperties(wayback);
    assert forall l :: l in sources <==> l in katana || l in wayback;
    var (ok, s') := ExtractJs(s);
    if ok {
      var listing := s'.files[JsFile];
      assert listing == SortedListing(JsUrls(s.files));
      forall x ensures x in listing <==> exists l :: l in sources && IsJsLine(l) && Strip(l) == x {
        if x in listing {
          assert x in JsUrlsIn(katana) || x in JsUrlsIn(wayback);
        }
      }
    } else {
      assert JsUrls(s.files) == {};
    }
  }

  /** The written list is the only strictly sorted list of the collected URLs. */
  lemma JsListDetermined(s: Snapshot, r: seq<string>)
    requires ExtractJs(s).0
    requires Ascending(r) && forall x :: x in r <==> x in JsUrls(s.files)
    ensures ExtractJs(s).1.files[JsFile] == r
  {
    AscendingUnique(r, SortedListing(JsUrls(s.files)));
  }

  // ----- Precondition guards -----

  /** A step whose input file is missing fails without starting its tool and
      without changing any file. */
  lemma GuardSkips(stage: Stage, s: Snapshot, env: Env, domain: string)
    requires InputOf(stage).Some? && InputOf(stage).value !in s.files
    ensures Perform(stage, s, env, domain) == (false, s)
  {
  }

  /** waybackurls always leaves its file behind, even when the tool fails. */
  lemma WaybackFileExists(s: Snapshot, env: Env, domain: string)
    ensures var s' := Perform(RunWaybackurls, s, env, domain).1;
            WaybackFile in s'.files
            && (env.run(Waybackurls).output.None? ==> s'.files[WaybackFile] == [])
  {
  }

  // ----- Directory brute-force -----

  /** Once alive.txt exists the wordlist holds the twelve built-in entries,
      in order, whatever happens afterwards. */
  lemma WordlistWritten(s: Snapshot, env: Env)
    requires AliveFile in s.files
    ensures Bruteforce(s, env).1.files[WordlistFile] == CommonDirs
    ensures |CommonDirs| == 12
  {
  }

  /** A blank first line of alive.txt fails the step before ffuf starts. */
  lemma BlankFirstLineSkipsFfuf(s: Snapshot, env: Env)
    requires AliveFile in s.files && Strip(FirstLine(s.files[AliveFile])) == []
    ensures Bruteforce(s, env) == (false, s.(files := s.files[WordlistFile := CommonDirs]))
  {
  }

  /** When `urlparse` rejects the first word of the first alive line, the
      step fails with only the wordlist written and ffuf never started. */
  lemma UrlparseErrorSkipsFfuf(s: Snapshot, env: Env)
    requires AliveFile in s.files && Strip(FirstLine(s.files[AliveFile])) != []
    requires env.urlparse(FirstWord(Strip(FirstLine(s.files[AliveFile])))).None?
    ensures Bruteforce(s, env) == (false, s.(files := s.files[WordlistFile := CommonDirs]))
  {
  }

  /** The step succeeds exactly when alive.txt has a nonblank first line
      that `urlparse` accepts, ffuf exits cleanly, and its report is there,
      loads and its results can be counted. */
  lemma BruteforceSucceeds(s: Snapshot, env: Env)
    ensures var (ok, s') := Bruteforce(s, env);
            ok <==> AliveFile in s.files
                    && Strip(FirstLine(s.files[AliveFile])) != []
                    && env.urlparse(FirstWord(Strip(FirstLine(s.files[AliveFile])))).Some?
                    && env.run(Ffuf).exitOk
                    && FfufFile in s'.files && env.reportLoads(s'.files[FfufFile])
  {
  }

  /** ffuf is pointed at scheme://netloc/FUZZ of the first word of the first
      alive line; that word is where the line starts, up to whitespace. */
  lemma FfufTarget(s: Snapshot, env: Env, parts: UrlParts)
    requires AliveFile in s.files
    requires Strip(FirstLine(s.files[AliveFile])) != []
    requires env.urlparse(FirstWord(Strip(FirstLine(s.files[AliveFile])))) == Some(parts)
    ensures Bruteforce(s, env).1.log == s.log + [Invocation(Ffuf, FuzzTarget(parts))]
    ensures var line := Strip(FirstLine(s.files[AliveFile]));
            var w := FirstWord(line);
            w != [] && w == line[..|w|] && (|w| == |line| || IsSpace(line[|w|]))
  {
    StripIdempotent(FirstLine(s.files[AliveFile]));
    FirstWordOfStripped(Strip(FirstLine(s.files[AliveFile])));
  }

  /** For an alive line made of a URL `scheme://host[/path...]` and,
      after whitespace, httpx's metadata (`https://example.com [200] Title`,
      say), ffuf is pointed at `scheme://host/FUZZ` (there
      `https://example.com/FUZZ`) when `urlparse` splits as Python's does. */
  lemma AliveLineTarget(s: Snapshot, env: Env, scheme: string, host: string, path: string, meta: string)
    requires LowerScheme(scheme)
    requires Printable(host) && forall k :: 0 <= k < |host| ==> !IsNetlocEnd(host[k]) && host[k] != ']'
    requires Printable(path) && (path == [] || IsNetlocEnd(path[0]))
    requires meta == [] || IsSpace(meta[0])
    requires AliveFile in s.files
    requires FirstLine(s.files[AliveFile]) == scheme + "://" + host + path + meta
    requires env.urlparse(scheme + "://" + host + path) == Split(scheme + "://" + host + path)
    ensures Bruteforce(s, env).1.log == s.log + [Invocation(Ffuf, scheme + "://" + host + "/FUZZ")]
  {
    var url := scheme + "://" + host + path;
    SplitSchemeHost(scheme, host, path);
    assert NoSpace(url) by {
      forall k | 0 <= k < |url| ensures !IsSpace(url[k]) {
        assert '!' <= url[k] <= '~';
      }
    }
    assert url + meta == scheme + "://" + host + path + meta;
    FirstWordOfLine(url, meta);
    FfufTarget(s, env, UrlParts(scheme, host));
  }

  // ----- Steps and the run -----

  /** A step changes only the files it names, never removes one, and starts
      at most its own tool. */
  lemma StageFrame(stage: Stage, s: Snapshot, env: Env, domain: string)
    ensures var s' := Perform(stage, s, env, domain).1;
            (forall p :: p in s.files ==> p in s'.files)
            && (forall p :: p !in Writes(stage) ==>
                  (p in s'.files <==> p in s.files) && (p in s.files ==> s'.files[p] == s.files[p]))
            && s.log <= s'.log && |s'.log| <= |s.log| + 1
            && (|s'.log| > |s.log| ==> ToolOf(stage) == Some(s'.log[|s.log|].tool))
  {
    match stage
    case RunSubfinder => InvokeFrame(s, env, Subfinder, domain);
    case RunHttpx => InvokeFrame(s, env, Httpx, SubdomainFile);
    case RunWaybackurls =>
    case RunGau => InvokeFrame(s, env, Gau, domain);
    case RunKatanaCrawl => InvokeFrame(s, env, Katana, AliveFile);
    case ExtractJsFiles =>
    case RunNucleiScan => InvokeFrame(s, env, Nuclei, AliveFile);
    case RunSubdomainTakeover => InvokeFrame(s, env, Subjack, SubdomainFile);
    case RunDirectoryBruteforce => BruteforceFrame(s, env);
  }

  /** The brute-force step changes only the wordlist and ffuf's report. */
  lemma BruteforceFrame(s: Snapshot, env: Env)
    ensures var s' := Bruteforce(s, env).1;
            (forall p :: p in s.files ==> p in s'.files)
            && (forall p :: p != WordlistFile && p != FfufFile ==>
                  (p in s'.files <==> p in s.files) && (p in s.files ==> s'.files[p] == s.files[p]))
  {
    if AliveFile in s.files {
      var s1 := s.(files := s.files[WordlistFile := CommonDirs]);
      var first := Strip(FirstLine(s.files[AliveFile]));
      if first != [] && env.urlparse(FirstWord(first)).Some? {
        InvokeFrame(s1, env, Ffuf, FuzzTarget(env.urlparse(FirstWord(first)).value));
      }
    }
  }

  /** A tool run changes only the tool's output file and removes none. */
  lemma InvokeFrame(s: Snapshot, env: Env, tool: Tool, target: string)
    ensures var s' := Invoke(s, env, tool, target).1;
            (forall p :: p in s.files ==> p in s'.files)
            && (forall p :: p != OutputOf(tool) ==>
                  (p in s'.files <==> p in s.files) && (p in s.files ==> s'.files[p] == s.files[p]))
  {
  }

  /** Running a list of steps is running its first part, then the rest. */
  lemma {:induction false} RunStepsSplit(step: (Stage, Snapshot) -> (bool, Snapshot), stages: seq<Stage>, k: nat, s: Snapshot)
    requires k <= |stages|
    ensures var first := RunSteps(step, stages[..k], s);
            var second := RunSteps(step, stages[k..], first.1);
            RunSteps(step, stages, s) == (first.0 + second.0, second.1)
    decreases |stages|
  {
    var first := RunSteps(step, stages[..k], s);
    if k == |stages| {
      assert stages[..k] == stages;
      assert stages[k..] == [];
      assert first.0 + [] == first.0;
    } else {
      var n := |stages|;
      var init, last := stages[..n - 1], stages[n - 1];
      var rest := stages[k..];
      RunStepsSplit(step, init, k, s);
      assert init[..k] == stages[..k];
      assert rest[..|rest| - 1] == init[k..] && rest[|rest| - 1] == last;
      var middle := RunSteps(step, init[k..], first.1);
      var outcome := step(last, middle.1);
      assert RunSteps(step, init, s) == (first.0 + middle.0, middle.1);
      assert RunSteps(step, rest, first.1) == (middle.0 + [StepResult(last, outcome.0)], outcome.1);
      assert (first.0 + middle.0) + [StepResult(last, outcome.0)]
          == first.0 + (middle.0 + [StepResult(last, outcome.0)]);
    }
  }

  /** Step k runs on the state the steps before it left, and its result is
      reported at position k, whatever the earlier steps returned. */
  lemma {:induction false} RunStepsStep(step: (Stage, Snapshot) -> (bool, Snapshot), stages: seq<Stage>, k: nat, s: Snapshot)
    requires k < |stages|
    ensures RunSteps(step, stages, s).0[k]
            == StepResult(stages[k], step(stages[k], RunSteps(step, stages[..k], s).1).0)
    decreases |stages|
  {
    var n := |stages|;
    if k < n - 1 {
      RunStepsStep(step, stages[..n - 1], k, s);
      assert stages[..n - 1][..k] == stages[..k];
    } else {
      assert stages[..n - 1] == stages[..k];
    }
  }

  /** A file that no step of the list writes keeps its presence and content. */
  lemma {:induction false} RunStagesKeeps(stages: seq<Stage>, s: Snapshot, env: Env, domain: string, p: Path)
    requires forall i :: 0 <= i < |stages| ==> p !in Writes(stages[i])
    ensures var s' := RunStages(stages, s, env, domain).1;
            (p in s'.files <==> p in s.files) && (p in s.files ==> s'.files[p] == s.files[p])
  {
    if stages != [] {
      var n := |stages|;
      RunStagesKeeps(stages[..n - 1], s, env, domain, p);
      StageFrame(stages[n - 1], RunStages(stages[..n - 1], s, env, domain).1, env, domain);
    }
  }

  /** No list of steps removes a file. */
  lemma {:induction false} RunStagesGrow(stages: seq<Stage>, s: Snapshot, env: Env, domain: string)
    ensures forall p :: p in s.files ==> p in RunStages(stages, s, env, domain).1.files
  {
    if stages != [] {
      var n := |stages|;
      RunStagesGrow(stages[..n - 1], s, env, domain);
      StageFrame(stages[n - 1], RunStages(stages[..n - 1], s, env, domain).1, env, domain);
    }
  }

  /** The state after the first k + 1 steps is step k's result on the state
      after the first k. */
  lemma AfterStep(s: Snapshot, env: Env, domain: string, k: nat)
    requires k < |Pipeline|
    ensures RunStages(Pipeline[..k + 1], s, env, domain).1
            == Perform(Pipeline[k], RunStages(Pipeline[..k], s, env, domain).1, env, domain).1
  {
    assert Pipeline[..k + 1][..k] == Pipeline[..k];
  }

  /** A file present after the first k steps is present at the end. */
  lemma PresentAtEnd(s: Snapshot, env: Env, domain: string, k: nat, p: Path)
    requires k <= |Pipeline|
    requires p in RunStages(Pipeline[..k], s, env, domain).1.files
    ensures p in RunStages(Pipeline, s, env, domain).1.files
  {
    RunStepsSplit(StepOf(env, domain), Pipeline, k, s);
    RunStagesGrow(Pipeline[k..], RunStages(Pipeline[..k], s, env, domain).1, env, domain);
  }

  /** start ran the nine steps and every one of them returned True. */
  ghost predicate AllSucceeded(s: Snapshot, env: Env, domain: string) {
    var report := Start(s, env, domain).0;
    report.Completed? && forall i :: 0 <= i < |report.results| ==> report.results[i].ok
  }

  /** In such a run step k returned True on the state the earlier steps
      left. */
  lemma StepSucceeded(s: Snapshot, env: Env, domain: string, k: nat)
    requires AllSucceeded(s, env, domain) && k < |Pipeline|
    ensures Perform(Pipeline[k], RunStages(Pipeline[..k], s, env, domain).1, env, domain).0
  {
    StartReport(s, env, domain);
    assert Start(s, env, domain).0.results[k].ok;
  }

  /** A successful step k whose input is `p` leaves `p` at the end. */
  lemma InputKept(s: Snapshot, env: Env, domain: string, k: nat, p: Path)
    requires AllSucceeded(s, env, domain)
    requires k < |Pipeline| && InputOf(Pipeline[k]) == Some(p)
    ensures p in RunStages(Pipeline, s, env, domain).1.files
  {
    StepSucceeded(s, env, domain, k);
    PresentAtEnd(s, env, domain, k, p);
  }

  /** A file that step k leaves behind is still there at the end. */
  lemma OutputKept(s: Snapshot, env: Env, domain: string, k: nat, p: Path)
    requires k < |Pipeline|
    requires p in Perform(Pipeline[k], RunStages(Pipeline[..k], s, env, domain).1, env, domain).1.files
    ensures p in RunStages(Pipeline, s, env, domain).1.files
  {
    AfterStep(s, env, domain, k);
    PresentAtEnd(s, env, domain, k + 1, p);
  }

  /** The wayback list is there at the end of every run. */
  lemma WaybackListKept(s: Snapshot, env: Env, domain: string)
    ensures WaybackFile in RunStages(Pipeline, s, env, domain).1.files
  {
    WaybackFileExists(RunStages(Pipeline[..2], s, env, domain).1, env, domain);
    OutputKept(s, env, domain, 2, WaybackFile);
  }

  /** A successful extraction leaves the JS list at the end. */
  lemma JsListKept(s: Snapshot, env: Env, domain: string)
    requires AllSucceeded(s, env, domain)
    ensures JsFile in RunStages(Pipeline, s, env, domain).1.files
  {
    StepSucceeded(s, env, domain, 5);
    OutputKept(s, env, domain, 5, JsFile);
  }

  /** A successful brute force leaves the wordlist and ffuf's report at the
      end. */
  lemma BruteforceOutputsKept(s: Snapshot, env: Env, domain: string)
    requires AllSucceeded(s, env, domain)
    ensures var s' := RunStages(Pipeline, s, env, domain).1;
            WordlistFile in s'.files && FfufFile in s'.files
  {
    StepSucceeded(s, env, domain, 8);
    OutputKept(s, env, domain, 8, WordlistFile);
    OutputKept(s, env, domain, 8, FfufFile);
  }

  /** httpx ran on the subdomain list and katana on the alive hosts, so
      both are there at the end of a run where every step succeeds. */
  lemma InputListsKept(s: Snapshot, env: Env, domain: string)
    requires AllSucceeded(s, env, domain)
    ensures var s' := RunStages(Pipeline, s, env, domain).1;
            SubdomainFile in s'.files && AliveFile in s'.files
  {
    InputKept(s, env, domain, 1, SubdomainFile);
    InputKept(s, env, domain, 4, AliveFile);
  }

  /** A completed run ends in the state its nine steps leave. */
  lemma CompletedState(s: Snapshot, env: Env, domain: string)
    requires Start(s, env, domain).0.Completed?
    ensures Start(s, env, domain).1 == RunStages(Pipeline, s, env, domain).1
  {
  }

  /** A run in which every step succeeds leaves the subdomain list, the alive
      hosts, the wayback list, the JS list, the wordlist and ffuf's report in
      the output directory. The outputs of gau, katana, nuclei and subjack
      are there only if those tools left them: their steps succeed on a
      clean exit alone. */
  lemma FullRunArtifacts(s: Snapshot, env: Env, domain: string)
    requires AllSucceeded(s, env, domain)
    ensures var s' := Start(s, env, domain).1;
            SubdomainFile in s'.files && AliveFile in s'.files && WaybackFile in s'.files
            && JsFile in s'.files && WordlistFile in s'.files && FfufFile in s'.files
  {
    CompletedState(s, env, domain);
    InputListsKept(s, env, domain);
    WaybackListKept(s, env, domain);
    JsListKept(s, env, domain);
    BruteforceOutputsKept(s, env, domain);
  }

  /** start gives up, touching nothing, iff a tool is missing; otherwise it
      runs all nine steps once each, in order, reporting each one's result
      as the step returned it on the state the earlier steps left. */
  lemma StartReport(s: Snapshot, env: Env, domain: string)
    ensures var (report, s') := Start(s, env, domain);
            (report.Aborted? <==> exists t :: !env.installed(t))
            && (report.Aborted? ==> s' == s && report.missing == MissingAmong(Tools, env.installed))
            && (report.Completed? ==>
                  |report.results| == 9
                  && s' == RunStages(Pipeline, s, env, domain).1
                  && forall i :: 0 <= i < 9 ==>
                       report.results[i] == StepResult(Pipeline[i],
                         Perform(Pipeline[i], RunStages(Pipeline[..i], s, env, domain).1, env, domain).0))
  {
    MissingTools(env.installed);
    var (report, s') := Start(s, env, domain);
    if report.Completed? {
      forall i | 0 <= i < 9
        ensures report.results[i] == StepResult(Pipeline[i],
                  Perform(Pipeline[i], RunStages(Pipeline[..i], s, env, domain).1, env, domain).0)
      {
        RunStepsStep(StepOf(env, domain), Pipeline, i, s);
      }
    }
  }

  /** When subfinder leaves no subdomain list (and none was there before),
      the run still reports all nine steps, and httpx and subjack each fail
      their precondition without starting or changing anything. */
  lemma SubfinderFailureCascade(s: Snapshot, env: Env, domain: string)
    requires forall t :: env.installed(t)
    requires SubdomainFile !in s.files && env.run(Subfinder).output.None?
    ensures var report := Start(s, env, domain).0;
            report.Completed? && |report.results| == 9
            && !report.results[1].ok && !report.results[7].ok
    ensures forall k :: k == 1 || k == 7 ==>
              var before := RunStages(Pipeline[..k], s, env, domain).1;
              Perform(Pipeline[k], before, env, domain) == (false, before)
  {
    SubfinderLeavesNoList(s, env, domain);
    NoSubdomainsBeforeTakeover(s, env, domain);
    MissingTools(env.installed);
    StartReport(s, env, domain);
  }

  /** A subfinder run that writes nothing leaves no subdomain list behind
      when there was none. */
  lemma SubfinderLeavesNoList(s: Snapshot, env: Env, domain: string)
    requires SubdomainFile !in s.files && env.run(Subfinder).output.None?
    ensures SubdomainFile !in RunStages(Pipeline[..1], s, env, domain).1.files
  {
    assert Pipeline[..1] == [RunSubfinder] && [RunSubfinder][..0] == [];
    assert RunSteps(StepOf(env, domain), [], s) == ([], s);
    assert RunStages(Pipeline[..1], s, env, domain).1 == Perform(RunSubfinder, s, env, domain).1;
  }

  /** Without a subdomain list after subfinder, none of the steps up to
      subjack creates one, so the list is still missing when subjack's turn
      comes. */
  lemma NoSubdomainsBeforeTakeover(s: Snapshot, env: Env, domain: string)
    requires SubdomainFile !in s.files && env.run(Subfinder).output.None?
    ensures SubdomainFile !in RunStages(Pipeline[..7], s, env, domain).1.files
  {
    var s1 := RunStages(Pipeline[..1], s, env, domain).1;
    SubfinderLeavesNoList(s, env, domain);
    RunStepsSplit(StepOf(env, domain), Pipeline[..7], 1, s);
    assert Pipeline[..7][..1] == Pipeline[..1];
    var later := Pipeline[..7][1..];
    assert later == [RunHttpx, RunWaybackurls, RunGau, RunKatanaCrawl, ExtractJsFiles, RunNucleiScan];
    RunStagesKeeps(later, s1, env, domain, SubdomainFile);
  }
}
