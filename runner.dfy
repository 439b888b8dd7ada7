/** The `WebSecurityRecon` object: the workspace files it creates and
    overwrites step by step, the tools it starts, and `start`'s loop over the
    steps. Each method is proved to do what module Recon specifies. */
module Runner {
  import opened Wrappers
  import opened Text
  import opened Order
  import opened Url
  import opened Recon
  import opened Properties

  /** check_dependencies: probe the eight tools in their declared order and
      collect the missing ones. */
  method CheckDependencies(installed: Tool -> bool) returns (ok: bool, missing: seq<Tool>)
    ensures missing == MissingAmong(Tools, installed)
    ensures ok <==> missing == []
    ensures ok <==> forall t :: installed(t)
    ensures forall t :: t in missing <==> !installed(t)
  {
    missing := [];
    for i := 0 to |Tools|
      invariant missing == MissingAmong(Tools[..i], installed)
    {
      assert Tools[..i + 1][..i] == Tools[..i];
      if !installed(Tools[i]) {
        missing := missing + [Tools[i]];
      }
    }
    assert Tools[..|Tools|] == Tools;
    MissingTools(installed);
    ok := missing == [];
  }

  /** One of extract_js_files' two loops over a file's lines: add the
      stripped lines that mention `.js` or `/js/`. */
  method AddJsUrls(urls: set<string>, lines: seq<string>) returns (r: set<string>)
    ensures r == urls + JsUrlsIn(lines)
  {
    r := urls;
    for i := 0 to |lines|
      invariant r == urls + JsUrlsIn(lines[..i])
    {
      assert lines[..i + 1] == lines[..i] + [lines[i]];
      if IsJsLine(lines[i]) {
        r := r + {Strip(lines[i])};
      }
    }
    assert lines[..|lines|] == lines;
  }

  class Workspace {
    const domain: string
    /** The output directory: file name to lines. */
    var files: map<Path, seq<string>>
    /** The tools started so far, in order. */
    var log: seq<Invocation>

    function Current(): Snapshot
      reads this
    {
      Snapshot(files, log)
    }

    /** The output directory is created if absent; files already in it stay. */
    constructor (domain: string, existing: map<Path, seq<string>>)
      ensures this.domain == domain && files == existing && log == []
    {
      this.domain := domain;
      files := existing;
      log := [];
    }

    /** `open(p, 'w')` followed by one `write` per line. */
    method WriteLines(p: Path, lines: seq<string>)
      modifies this
      ensures files == old(files)[p := lines] && log == old(log)
    {
      files := files[p := []];
      for i := 0 to |lines|
        invariant files == old(files)[p := lines[..i]] && log == old(log)
      {
        assert lines[..i + 1] == lines[..i] + [lines[i]];
        files := files[p := files[p] + [lines[i]]];
      }
      assert lines[..|lines|] == lines;
    }

    /** `subprocess.run(cmd, check=True)` for a tool that writes its own
        output file. */
    method RunTool(env: Env, tool: Tool, target: string) returns (exitOk: bool)
      modifies this
      ensures (exitOk, Current()) == Invoke(old(Current()), env, tool, target)
    {
      log := log + [Invocation(tool, target)];
      var outcome := env.run(tool);
      if outcome.output.Some? {
        files := files[OutputOf(tool) := outcome.output.value];
      }
      exitOk := outcome.exitOk;
    }

    method RunSubfinder(env: Env) returns (ok: bool)
      modifies this
      ensures (ok, Current()) == Perform(Stage.RunSubfinder, old(Current()), env, domain)
    {
      ok := RunTool(env, Subfinder, domain);
    }

    method RunHttpx(env: Env) returns (ok: bool)
      modifies this
      ensures SubdomainFile !in old(files) ==> !ok && files == old(files) && log == old(log)
      ensures (ok, Current()) == Perform(Stage.RunHttpx, old(Current()), env, domain)
    {
      if SubdomainFile !in files {
        return false;
      }
      ok := RunTool(env, Httpx, SubdomainFile);
    }

    method RunWaybackurls(env: Env) returns (ok: bool)
      modifies this
      ensures WaybackFile in files
      ensures (ok, Current()) == Perform(Stage.RunWaybackurls, old(Current()), env, domain)
    {
      files := files[WaybackFile := []];
      log := log + [Invocation(Waybackurls, domain)];
      var outcome := env.run(Waybackurls);
      if outcome.output.Some? {
        WriteLines(WaybackFile, outcome.output.value);
      }
      assert files == old(files)[WaybackFile := outcome.output.GetOr([])];
      ok := outcome.exitOk;
    }

    method RunGau(env: Env) returns (ok: bool)
      modifies this
      ensures (ok, Current()) == Perform(Stage.RunGau, old(Current()), env, domain)
    {
      ok := RunTool(env, Gau, domain);
    }

    method RunKatanaCrawl(env: Env) returns (ok: bool)
      modifies this
      ensures AliveFile !in old(files) ==> !ok && files == old(files) && log == old(log)
      ensures (ok, Current()) == Perform(Stage.RunKatanaCrawl, old(Current()), env, domain)
    {
      if AliveFile !in files {
        return false;
      }
      ok := RunTool(env, Katana, AliveFile);
    }

    method ExtractJsFiles() returns (ok: bool)
      modifies this
      ensures !ok ==> files == old(files) && log == old(log)
      ensures (ok, Current()) == ExtractJs(old(Current()))
    {
      var urls := AddJsUrls({}, Lines(files, KatanaFile));
      urls := AddJsUrls(urls, Lines(files, WaybackFile));
      assert urls == JsUrls(files);
      if urls == {} {
        return false;
      }
      var listing := Sorted(urls);
      WriteLines(JsFile, listing);
      ok := true;
    }

    method RunNucleiScan(env: Env) returns (ok: bool)
      modifies this
      ensures AliveFile !in old(files) ==> !ok && files == old(files) && log == old(log)
      ensures (ok, Current()) == Perform(Stage.RunNucleiScan, old(Current()), env, domain)
    {
      if AliveFile !in files {
        return false;
      }
      ok := RunTool(env, Nuclei, AliveFile);
    }

    method RunSubdomainTakeover(env: Env) returns (ok: bool)
      modifies this
      ensures SubdomainFile !in old(files) ==> !ok && files == old(files) && log == old(log)
      ensures (ok, Current()) == Perform(Stage.RunSubdomainTakeover, old(Current()), env, domain)
    {
      if SubdomainFile !in files {
        return false;
      }
      ok := RunTool(env, Subjack, SubdomainFile);
    }

    method RunDirectoryBruteforce(env: Env) returns (ok: bool)
      modifies this
      ensures AliveFile !in old(files) ==> !ok && files == old(files) && log == old(log)
      ensures AliveFile in old(files) ==> WordlistFile in files && files[WordlistFile] == CommonDirs
      ensures (ok, Current()) == Bruteforce(old(Current()), env)
    {
      if AliveFile !in files {
        return false;
      }
      WriteLines(WordlistFile, CommonDirs);
      ok := FuzzFirstHost(env, Strip(FirstLine(files[AliveFile])));
      assert (ok, Current()) == Bruteforce(old(Current()), env);
    }

    /** The part of run_directory_bruteforce after the wordlist. */
    method FuzzFirstHost(env: Env, firstUrl: string) returns (ok: bool)
      modifies this
      ensures (ok, Current()) == Fuzz(old(Current()), env, firstUrl)
    {
      if firstUrl == [] {
        return false;
      }
      var parsed := env.urlparse(FirstWord(firstUrl));
      if parsed.None? {
        return false;
      }
      var exitOk := RunTool(env, Ffuf, FuzzTarget(parsed.value));
      if !exitOk {
        return false;
      }
      if FfufFile in files {
        ok := env.reportLoads(files[FfufFile]);
      } else {
        ok := false;
      }
    }

    /** One entry of `start`'s list of steps. */
    method RunStage(stage: Stage, env: Env) returns (ok: bool)
      modifies this
      ensures (ok, Current()) == Perform(stage, old(Current()), env, domain)
    {
      match stage
      case RunSubfinder => ok := RunSubfinder(env);
      case RunHttpx => ok := RunHttpx(env);
      case RunWaybackurls => ok := RunWaybackurls(env);
      case RunGau => ok := RunGau(env);
      case RunKatanaCrawl => ok := RunKatanaCrawl(env);
      case ExtractJsFiles => ok := ExtractJsFiles();
      case RunNucleiScan => ok := RunNucleiScan(env);
      case RunSubdomainTakeover => ok := RunSubdomainTakeover(env);
      case RunDirectoryBruteforce => ok := RunDirectoryBruteforce(env);
    }

    /** start: stop after the dependency check if a tool is missing; else
        run every step in order, whatever the earlier ones returned. */
    method Start(env: Env) returns (report: Report)
      modifies this
      ensures report.Aborted? <==> exists t :: !env.installed(t)
      ensures report.Aborted? ==> files == old(files) && log == old(log)
      ensures report.Completed? ==>
                |report.results| == |Pipeline|
                && forall i :: 0 <= i < |Pipeline| ==> report.results[i].stage == Pipeline[i]
      ensures (report, Current()) == Recon.Start(old(Current()), env, domain)
    {
      StartReport(Current(), env, domain);
      var depsOk, missing := CheckDependencies(env.installed);
      if !depsOk {
        return Aborted(missing);
      }
      var results := RunPipeline(env);
      report := Completed(results);
    }

    /** `start`'s loop over its list of steps. */
    method RunPipeline(env: Env) returns (results: seq<StepResult>)
      modifies this
      ensures (results, Current()) == RunStages(Pipeline, old(Current()), env, domain)
    {
      results := [];
      for i := 0 to |Pipeline|
        invariant (results, Current()) == RunStages(Pipeline[..i], old(Current()), env, domain)
      {
        assert Pipeline[..i + 1][..i] == Pipeline[..i];
        var ok := RunStage(Pipeline[i], env);
        results := results + [StepResult(Pipeline[i], ok)];
      }
      assert Pipeline[..|Pipeline|] == Pipeline;
    }
  }
}
