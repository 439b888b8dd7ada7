/** The recon pipeline of `web_recon.py` as a specification: what each of the
    nine steps does to the workspace and the log of tool invocations, how the
    dependency check gates the run, and the run as a whole.

    The workspace is a map from file name (inside the output directory) to
    the file's lines, without line terminators. Everything outside the script
    is an oracle held in `Env`: whether a tool is installed, how a tool run
    ends and what it leaves at its output path, what `urlparse` returns, and
    whether ffuf's report loads as JSON and its results can be counted. Each tool runs at most once per run,
    so one fixed outcome per tool covers every run. */
module Recon {
  import opened Wrappers
  import opened Text
  import opened Order
  import opened Url

  type Path = string

  const SubdomainFile: Path := "subdomains.txt"
  const AliveFile: Path := "alive.txt"
  const WaybackFile: Path := "waybackurls.txt"
  const NucleiFile: Path := "nuclei_results.json"
  const KatanaFile: Path := "katana_crawl.txt"
  const JsFile: Path := "js_files.txt"
  const GauFile: Path := "gau_urls.txt"
  const TakeoverFile: Path := "subdomain_takeover.txt"
  const FfufFile: Path := "ffuf_results.json"
  const WordlistFile: Path := "common_dirs.txt"

  /** The external programs, in the order the dependency check lists them. */
  datatype Tool = Subfinder | Httpx | Waybackurls | Nuclei | Katana | Gau | Ffuf | Subjack

  const Tools: seq<Tool> := [Subfinder, Httpx, Waybackurls, Nuclei, Katana, Gau, Ffuf, Subjack]

  /** Position of a tool in `Tools`. */
  function Rank(t: Tool): (i: nat)
    ensures i < |Tools| && Tools[i] == t
  {
    match t
    case Subfinder => 0
    case Httpx => 1
    case Waybackurls => 2
    case Nuclei => 3
    case Katana => 4
    case Gau => 5
    case Ffuf => 6
    case Subjack => 7
  }

  /** The file each tool writes (ffuf and the others through an output flag,
      waybackurls through the script's redirection of its output). */
  function OutputOf(t: Tool): Path {
    match t
    case Subfinder => SubdomainFile
    case Httpx => AliveFile
    case Waybackurls => WaybackFile
    case Nuclei => NucleiFile
    case Katana => KatanaFile
    case Gau => GauFile
    case Ffuf => FfufFile
    case Subjack => TakeoverFile
  }

  /** The nine steps of `start`. */
  datatype Stage =
    | RunSubfinder | RunHttpx | RunWaybackurls | RunGau | RunKatanaCrawl
    | ExtractJsFiles | RunNucleiScan | RunSubdomainTakeover | RunDirectoryBruteforce

  const Pipeline: seq<Stage> := [
    RunSubfinder, RunHttpx, RunWaybackurls, RunGau, RunKatanaCrawl,
    ExtractJsFiles, RunNucleiScan, RunSubdomainTakeover, RunDirectoryBruteforce
  ]

  /** The tool a step runs; extracting JS files runs none. */
  function ToolOf(stage: Stage): Option<Tool> {
    match stage
    case RunSubfinder => Some(Subfinder)
    case RunHttpx => Some(Httpx)
    case RunWaybackurls => Some(Waybackurls)
    case RunGau => Some(Gau)
    case RunKatanaCrawl => Some(Katana)
    case ExtractJsFiles => None
    case RunNucleiScan => Some(Nuclei)
    case RunSubdomainTakeover => Some(Subjack)
    case RunDirectoryBruteforce => Some(Ffuf)
  }

  /** The file a step checks for before doing anything. */
  function InputOf(stage: Stage): Option<Path> {
    match stage
    case RunHttpx => Some(SubdomainFile)
    case RunKatanaCrawl => Some(AliveFile)
    case RunNucleiScan => Some(AliveFile)
    case RunSubdomainTakeover => Some(SubdomainFile)
    case RunDirectoryBruteforce => Some(AliveFile)
    case _ => None
  }

  /** The files a step may create or overwrite. */
  function Writes(stage: Stage): set<Path> {
    match stage
    case ExtractJsFiles => {JsFile}
    case RunDirectoryBruteforce => {WordlistFile, FfufFile}
    case _ => {OutputOf(ToolOf(stage).value)}
  }

  /** How one tool run ends: `exitOk` is false for a launch failure or a
      non-zero exit status; `output` is what the tool leaves at its output
      path (`None`: it wrote nothing there). */
  datatype ToolOutcome = ToolOutcome(exitOk: bool, output: Option<seq<string>>)

  /** Everything outside the script. */
  datatype Env = Env(
    installed: Tool -> bool,
    run: Tool -> ToolOutcome,
    urlparse: string -> Option<UrlParts>,
    reportLoads: seq<string> -> bool)

  /** A tool started by the script, with the domain, input file or URL it
      was pointed at. */
  datatype Invocation = Invocation(tool: Tool, target: string)

  datatype Snapshot = Snapshot(files: map<Path, seq<string>>, log: seq<Invocation>)

  datatype StepResult = StepResult(stage: Stage, ok: bool)

  /** What `start` shows: the missing tools when it gives up after the
      dependency check, or one success/failure line per step followed by the
      completion banner. */
  datatype Report = Aborted(missing: seq<Tool>) | Completed(results: seq<StepResult>)

  /** The tools of `tools` that are not installed, in order. */
  function MissingAmong(tools: seq<Tool>, installed: Tool -> bool): (r: seq<Tool>)
    ensures |r| <= |tools|
    ensures forall t :: t in r <==> t in tools && !installed(t)
  {
    if tools == [] then []
    else
      var rest := MissingAmong(tools[..|tools| - 1], installed);
      var t := tools[|tools| - 1];
      if installed(t) then rest else rest + [t]
  }

  /** The lines of a file, none when it does not exist. */
  function Lines(files: map<Path, seq<string>>, p: Path): seq<string> {
    if p in files then files[p] else []
  }

  /** Run `tool`: it is logged, and what it leaves at its output path
      replaces that file. */
  function Invoke(s: Snapshot, env: Env, tool: Tool, target: string): (r: (bool, Snapshot))
    ensures r.0 == env.run(tool).exitOk
    ensures r.1.log == s.log + [Invocation(tool, target)]
    ensures env.run(tool).output.Some? ==>
              OutputOf(tool) in r.1.files && r.1.files[OutputOf(tool)] == env.run(tool).output.value
    ensures env.run(tool).output.None? ==> r.1.files == s.files
  {
    var o := env.run(tool);
    var files := if o.output.Some? then s.files[OutputOf(tool) := o.output.value] else s.files;
    (o.exitOk, Snapshot(files, s.log + [Invocation(tool, target)]))
  }

  /** A step that needs `input` and fails, touching nothing, without it. */
  function Guarded(s: Snapshot, env: Env, input: Path, tool: Tool): (r: (bool, Snapshot))
    ensures input !in s.files ==> r == (false, s)
    ensures input in s.files ==> r == Invoke(s, env, tool, input)
    ensures input in s.files ==> r.1.log == s.log + [Invocation(tool, input)]
    ensures r.0 ==> input in s.files && env.run(tool).exitOk
  {
    if input !in s.files then (false, s) else Invoke(s, env, tool, input)
  }

  /** waybackurls: the script opens (and so creates or empties) the output
      file before starting the tool, whose output goes into it. */
  function Wayback(s: Snapshot, env: Env, domain: string): (r: (bool, Snapshot))
    ensures r.0 == env.run(Waybackurls).exitOk
    ensures r.1.log == s.log + [Invocation(Waybackurls, domain)]
    ensures WaybackFile in r.1.files
    ensures env.run(Waybackurls).output.None? ==> r.1.files[WaybackFile] == []
    ensures env.run(Waybackurls).output.Some? ==>
              r.1.files[WaybackFile] == env.run(Waybackurls).output.value
  {
    var o := env.run(Waybackurls);
    (o.exitOk, Snapshot(s.files[WaybackFile := o.output.GetOr([])],
                        s.log + [Invocation(Waybackurls, domain)]))
  }

  /** The stripped lines of `lines` that mention `.js` or `/js/`. */
  function JsUrlsIn(lines: seq<string>): set<string> {
    set l | l in lines && IsJsLine(l) :: Strip(l)
  }

  /** The URLs collected from the crawl output and the wayback list. */
  function JsUrls(files: map<Path, seq<string>>): set<string> {
    JsUrlsIn(Lines(files, KatanaFile)) + JsUrlsIn(Lines(files, WaybackFile))
  }

  /** extract_js_files: the sorted URLs are written only when there are any. */
  ghost function ExtractJs(s: Snapshot): (r: (bool, Snapshot))
    ensures r.0 <==> JsUrls(s.files) != {}
    ensures !r.0 ==> r.1 == s
    ensures r.1.log == s.log
    ensures r.0 ==> JsFile in r.1.files
                    && Ascending(r.1.files[JsFile]) && |r.1.files[JsFile]| == |JsUrls(s.files)|
  {
    var urls := JsUrls(s.files);
    if urls == {} then (false, s)
    else (true, s.(files := s.files[JsFile := SortedListing(urls)]))
  }

  /** The built-in wordlist for ffuf, in the order written. */
  const CommonDirs: seq<string> := [
    "admin", "api", "login", "uploads", "img", "js", "css",
    "config", ".git", ".env", "dashboard", "assets"
  ]

  /** `f.readline()` without its terminator: empty for an empty file. */
  function FirstLine(lines: seq<string>): string {
    if lines == [] then "" else lines[0]
  }

  /** run_directory_bruteforce. */
  function Bruteforce(s: Snapshot, env: Env): (r: (bool, Snapshot))
    ensures AliveFile !in s.files ==> r == (false, s)
    ensures AliveFile in s.files ==> WordlistFile in r.1.files && r.1.files[WordlistFile] == CommonDirs
    ensures s.log <= r.1.log && |r.1.log| <= |s.log| + 1
    ensures |r.1.log| > |s.log| ==> r.1.log[|s.log|].tool == Ffuf
    ensures r.0 ==> |r.1.log| == |s.log| + 1 && env.run(Ffuf).exitOk && FfufFile in r.1.files
  {
    if AliveFile !in s.files then (false, s)
    else Fuzz(s.(files := s.files[WordlistFile := CommonDirs]), env, Strip(FirstLine(s.files[AliveFile])))
  }

  /** The rest of run_directory_bruteforce once the wordlist is written:
      point ffuf at the host of `first`, the stripped first alive line, and
      count its results. */
  function Fuzz(s: Snapshot, env: Env, first: string): (bool, Snapshot) {
    if first == [] then (false, s)
    else
      match env.urlparse(FirstWord(first))
      case None => (false, s)
      case Some(parts) =>
        var (exitOk, s2) := Invoke(s, env, Ffuf, FuzzTarget(parts));
        if !exitOk || FfufFile !in s2.files then (false, s2)
        else (env.reportLoads(s2.files[FfufFile]), s2)
  }

  /** One step of the pipeline. */
  ghost function Perform(stage: Stage, s: Snapshot, env: Env, domain: string): (r: (bool, Snapshot))
    ensures InputOf(stage).Some? && InputOf(stage).value !in s.files ==> r == (false, s)
    ensures s.log <= r.1.log && |r.1.log| <= |s.log| + 1
  {
    match stage
    case RunSubfinder => Invoke(s, env, Subfinder, domain)
    case RunHttpx => Guarded(s, env, SubdomainFile, Httpx)
    case RunWaybackurls => Wayback(s, env, domain)
    case RunGau => Invoke(s, env, Gau, domain)
    case RunKatanaCrawl => Guarded(s, env, AliveFile, Katana)
    case ExtractJsFiles => ExtractJs(s)
    case RunNucleiScan => Guarded(s, env, AliveFile, Nuclei)
    case RunSubdomainTakeover => Guarded(s, env, SubdomainFile, Subjack)
    case RunDirectoryBruteforce => Bruteforce(s, env)
  }

  /** Steps run one after another by `step`, each on the state the previous
      one left, whatever it returned. */
  ghost function RunSteps(step: (Stage, Snapshot) -> (bool, Snapshot), stages: seq<Stage>, s: Snapshot)
    : (r: (seq<StepResult>, Snapshot))
    ensures |r.0| == |stages|
  {
    if stages == [] then ([], s)
    else
      var last := stages[|stages| - 1];
      var (results, s1) := RunSteps(step, stages[..|stages| - 1], s);
      var (ok, s2) := step(last, s1);
      (results + [StepResult(last, ok)], s2)
  }

  /** One step of the pipeline against the given outside world and domain. */
  ghost function StepOf(env: Env, domain: string): (Stage, Snapshot) -> (bool, Snapshot) {
    (stage, s) => Perform(stage, s, env, domain)
  }

  /** The pipeline's steps run in order. */
  ghost function RunStages(stages: seq<Stage>, s: Snapshot, env: Env, domain: string)
    : (r: (seq<StepResult>, Snapshot))
    ensures |r.0| == |stages|
  {
    RunSteps(StepOf(env, domain), stages, s)
  }

  /** start: the dependency check, then the whole pipeline. */
  ghost function Start(s: Snapshot, env: Env, domain: string): (r: (Report, Snapshot))
    ensures r.0.Aborted? ==> r.1 == s && r.0.missing != [] && forall t :: t in r.0.missing ==> !env.installed(t)
    ensures r.0.Completed? ==> |r.0.results| == |Pipeline| && forall t :: t in Tools ==> env.installed(t)
  {
    var missing := MissingAmong(Tools, env.installed);
    if missing != [] then (Aborted(missing), s)
    else
      var (results, s1) := RunStages(Pipeline, s, env, domain);
      (Completed(results), s1)
  }
}
