# web_recon in Dafny

A model of the sequential logic of `web_recon.py`, a script that chains
external reconnaissance tools (subfinder, httpx, waybackurls, gau, katana,
nuclei, subjack, ffuf) over one target domain and keeps their results in an
output directory. The model covers:

- **check_dependencies**: probe the eight tools in their declared order and
  report the missing ones; the run proceeds iff none is missing.
- **start**: after the dependency check, run the nine steps in a fixed order,
  each on the files the earlier ones left, whatever they returned.
- **the precondition guards**: httpx and subjack need `subdomains.txt`;
  katana, nuclei and ffuf need `alive.txt`. Without its input file a step
  returns `False` and starts nothing.
- **extract_js_files**: collect the stripped lines of the crawl output and
  the wayback list that contain `.js` or `/js/`, deduplicated through a set,
  and write them sorted to `js_files.txt`; fail, writing nothing, when no
  line matches.
- **run_directory_bruteforce**: write the 12-entry wordlist, take the first
  word of the first line of `alive.txt` and point ffuf at
  `scheme://netloc/FUZZ`.

Layout:

- `wrappers.dfy` (`Wrappers`): `Option`.
- `text.dfy` (`Text`): Python's `str.strip()`, `str.split()[0]` and the
  JS-line test.
- `order.dfy` (`Order`): Python's string order, the sorted listing of a set,
  and `Sorted`, the method that computes it.
- `url.dfy` (`Url`): the ffuf base URL, and the scheme/netloc part of
  `urlparse` for printable ASCII URLs.
- `recon.dfy` (`Recon`): the specification. The workspace is a `Snapshot`
  holding the output directory as a map from file name to lines (without
  terminators) and the log of tools started. `Perform` says what each step
  does to it, `RunStages` and `Start` describe the run, and `Env` holds the
  outside world as an oracle:
  - `installed`: whether a tool is installed;
  - `run`: how a tool run ends and what it leaves at its output path;
  - `urlparse`: what `urlparse` returns (`None` is its `ValueError`);
  - `reportLoads`: whether ffuf's JSON report loads and its results can be
    counted.
- `properties.dfy` (`Properties`): lemmas about the specification.
- `runner.dfy` (`Runner`): the `Workspace` class (the `WebSecurityRecon`
  object). Its `files` and `log` fields are updated in place: the step
  methods assign them directly, while writing a file line by line and
  `start`'s walk over the steps are loops. Each method is proved to leave
  exactly the state and result that `Recon` specifies.

The dependency check gates the run: when a tool is missing, `start` returns
right after the check and no step runs (web_recon.py:258-259).

## Model

| member | source | states |
|---|---|---|
| Runner.CheckDependencies | web_recon.py:49-75 | the missing list is the uninstalled tools in declared order; ok iff the list is empty iff every tool is installed; a tool is listed iff it is not installed |
| Properties.MissingTools | web_recon.py:50-75 | a tool is reported missing iff it is not installed; nothing is missing iff all eight are installed; the missing tools keep the declaration order |
| Recon.MissingAmong | web_recon.py:62-68 | at most as many tools as probed; a tool is listed iff it was probed and is not installed |
| Properties.MissingPrefix | web_recon.py:62-68 | after the first k probes the list holds exactly the uninstalled tools among the first k, in declaration order |
| Recon.Rank | web_recon.py:50-59 | each tool's position in the declared tool list |
| Runner.AddJsUrls | web_recon.py:150-160 | one pass over a file's lines adds to the set exactly the stripped lines that contain `.js` or `/js/` |
| Runner.Workspace.ExtractJsFiles | web_recon.py:146-170 | leaves exactly the result and state of extract_js_files' specification; on failure nothing changes |
| Recon.ExtractJs | web_recon.py:146-170 | succeeds iff some URL was collected; on failure nothing changes; the log never changes; on success js_files.txt exists, strictly ascending, one line per collected URL |
| Properties.ExtractJsResult | web_recon.py:146-170 | succeeds iff some crawl or wayback line matches; on failure nothing changes; on success only js_files.txt changes, holding exactly the stripped matching lines of the existing source files, strictly ascending, one per collected URL, each still matching |
| Text.IsJsLine | web_recon.py:153 | `'.js' in line or '/js/' in line` |
| Text.JsLineIgnoresTerminator | web_recon.py:152-153 | the test gives the same answer on a line with its newline as on the line without it, so lines are modelled without terminators |
| Properties.JsUrlsInProperties | web_recon.py:152-160 | every collected URL is non-empty, already stripped and still matches; nothing is collected iff no line matches |
| Properties.JsListDetermined | web_recon.py:162-165 | the written list is the only strictly ascending list of the collected URLs |
| Order.Sorted | web_recon.py:164 | returns the ascending listing of the set: strictly ascending, same elements, same size |
| Order.SortedListing | web_recon.py:164 | `sorted(set)`: strictly ascending, exactly the set's elements, as many as the set has |
| Order.AscendingUnique | web_recon.py:164 | two strictly ascending lists with the same elements are equal |
| Order.BelowIrreflexive | web_recon.py:164 | no string sorts before itself |
| Order.BelowTransitive | web_recon.py:164 | Python's string order is transitive |
| Order.BelowTotal | web_recon.py:164 | of two different strings one sorts before the other |
| Order.BelowAsymmetric | web_recon.py:164 | two strings never sort before each other |
| Order.LeastExists | web_recon.py:164 | a non-empty set of strings has a least element |
| Order.LeastUnique | web_recon.py:164 | the least element is unique |
| Text.Strip | web_recon.py:154 | `str.strip()`: the result is empty or starts and ends with a non-space, and is empty iff the line is all whitespace |
| Text.StripIsInfix | web_recon.py:154 | stripping removes exactly the leading and trailing whitespace |
| Text.StripIdempotent | web_recon.py:154 | stripping twice is stripping once |
| Text.StripKeepsWord | web_recon.py:153-154 | a whitespace-free substring of a line is still in the stripped line |
| Text.StripKeepsJsMarker | web_recon.py:153-154 | a matching line stays matching and non-empty once stripped |
| Text.Token | web_recon.py:229 | the longest whitespace-free prefix |
| Text.FirstWord | web_recon.py:229 | `split()[0]`: the whitespace-free text that starts right after the leading whitespace and runs up to the next whitespace or the end of the line; non-empty when the line has a non-space |
| Text.FirstWordOfStripped | web_recon.py:224-229 | the first word of a stripped non-empty line is a non-empty prefix that ends at whitespace or at the end |
| Text.FirstWordOfLine | web_recon.py:224-229 | a line made of a word followed by whitespace and anything has that word as first word |
| Url.FuzzTarget | web_recon.py:230 | the base URL is the scheme, then `://`, then the netloc, then `/FUZZ` |
| Url.FuzzTargetRoundTrip | web_recon.py:229-230 | parsing a base URL gives back the scheme and netloc it was built from |
| Url.Split | web_recon.py:229 | `urlparse` on printable ASCII: the netloc holds no `/`, `?`, `#` or `]` (a `]` there is a ValueError), the scheme has no upper-case letter, and both fit inside the URL |
| Url.SplitSchemeHost | web_recon.py:229 | `scheme://host` followed by a path, query or fragment parses to that scheme and host |
| Properties.GuardSkips | web_recon.py:90-211 | each of the five guards returns False, starts no tool and changes no file without its input: httpx (:90-92) and subjack (:194-196) without subdomains.txt, katana (:133-135), nuclei (:174-176) and ffuf (:209-211) without alive.txt |
| Recon.Guarded | web_recon.py:88-205 | the guarded steps httpx (:88-106) and subjack (:192-205) on subdomains.txt, katana (:131-144) and nuclei (:172-190) on alive.txt: without the input file the step returns False and leaves the state as it was; with it the step is exactly one run of its tool on that file; success needs the file and a clean exit |
| Runner.Workspace.RunHttpx | web_recon.py:88-106 | without subdomains.txt it returns False and changes nothing; otherwise runs httpx as specified |
| Runner.Workspace.RunKatanaCrawl | web_recon.py:131-144 | without alive.txt it returns False and changes nothing; otherwise runs katana as specified |
| Runner.Workspace.RunNucleiScan | web_recon.py:172-190 | without alive.txt it returns False and changes nothing; otherwise runs nuclei as specified |
| Runner.Workspace.RunSubdomainTakeover | web_recon.py:192-205 | without subdomains.txt it returns False and changes nothing; otherwise runs subjack as specified |
| Runner.Workspace.RunSubfinder | web_recon.py:77-86 | starts subfinder on the domain; its output replaces subdomains.txt; the result is its exit status |
| Runner.Workspace.RunGau | web_recon.py:120-129 | starts gau on the domain; its output replaces gau_urls.txt; the result is its exit status |
| Recon.Invoke | web_recon.py:81 | a tool run is logged once with its target; the result is its exit status; what the tool writes replaces its output file, and when it writes nothing no file changes |
| Properties.InvokeFrame | web_recon.py:81 | a tool run removes no file and changes none but its own output file |
| Runner.Workspace.RunTool | web_recon.py:81 | logs the tool; what it writes replaces its output file; the result is whether it exited cleanly |
| Runner.Workspace.RunWaybackurls | web_recon.py:108-118 | waybackurls.txt exists afterwards, holding the tool's output (empty if it wrote none), even when the tool fails |
| Recon.Wayback | web_recon.py:108-118 | waybackurls is logged on the domain; the result is its exit status; its file exists afterwards, holding exactly the tool's output, or empty when the tool wrote nothing |
| Properties.WaybackFileExists | web_recon.py:112-113 | after step 3 the wayback file exists, empty if the tool produced nothing |
| Runner.Workspace.WriteLines | web_recon.py:163-165 | opening for writing then writing line by line leaves the file holding exactly those lines; nothing else changes |
| Runner.Workspace.RunDirectoryBruteforce | web_recon.py:207-254 | without alive.txt it returns False and changes nothing; otherwise the wordlist holds the 12 entries; result and state are as specified |
| Runner.Workspace.FuzzFirstHost | web_recon.py:222-251 | the part after the wordlist, as specified by `Recon.Fuzz`: a blank first line or a `urlparse` error returns False and starts nothing; otherwise ffuf runs once, and the result is True iff it exits cleanly and its report exists and loads |
| Recon.Bruteforce | web_recon.py:207-254 | without alive.txt nothing changes and the step fails; with it the wordlist holds the 12 entries; at most ffuf is started, once; success needs ffuf's clean exit and its report file |
| Properties.WordlistWritten | web_recon.py:213-220 | once alive.txt exists common_dirs.txt holds the 12 fixed entries in order, however the step ends |
| Properties.BlankFirstLineSkipsFfuf | web_recon.py:222-227 | a blank first alive line returns False without starting ffuf; only the wordlist was written |
| Properties.UrlparseErrorSkipsFfuf | web_recon.py:229-254 | when `urlparse` raises `ValueError` on the first word the step returns False without starting ffuf; only the wordlist was written |
| Properties.BruteforceSucceeds | web_recon.py:207-254 | the step returns True iff alive.txt exists, its first line is not blank, `urlparse` accepts its first word, ffuf exits cleanly, and its report exists, loads and its results can be counted |
| Properties.BruteforceFrame | web_recon.py:217-241 | the step removes no file and changes none but the wordlist and ffuf's report |
| Properties.FfufTarget | web_recon.py:229-241 | ffuf is started once, on scheme://netloc/FUZZ of the parsed first word, which is a non-empty prefix of the stripped first line ending at whitespace or the end |
| Properties.AliveLineTarget | web_recon.py:223-230 | an alive line `scheme://host[/path] metadata` (such as `https://example.com [200] Title`) sends ffuf to `scheme://host/FUZZ` |
| Recon.Perform | web_recon.py:261-274 | a step whose input file is missing returns False and changes nothing; a step only appends to the log, at most one entry |
| Properties.StageFrame | web_recon.py:77-254 | a step changes only the files it writes, removes none and starts at most its own tool, once |
| Recon.RunSteps | web_recon.py:273-276 | one result per step |
| Recon.RunStages | web_recon.py:273-276 | one result per step of the pipeline |
| Properties.RunStepsSplit | web_recon.py:273-276 | running the steps is running a first part, then the rest on the state it left |
| Properties.RunStepsStep | web_recon.py:273-276 | step k's reported result is what it returns on the state the earlier steps left, whatever they returned |
| Properties.RunStagesKeeps | web_recon.py:273-276 | a file no step writes keeps its presence and contents through the run |
| Properties.RunStagesGrow | web_recon.py:273-276 | no run of steps removes a file |
| Properties.AfterStep | web_recon.py:273-276 | the state after k + 1 steps is step k's result on the state after k steps |
| Properties.PresentAtEnd | web_recon.py:273-276 | a file present after the first k steps is present at the end of the run |
| Properties.StepSucceeded | web_recon.py:273-276 | in a run where every result is True, step k returned True on the state the earlier steps left |
| Properties.InputKept | web_recon.py:88-205 | in such a run the input file of a guarded step is there at the end |
| Properties.OutputKept | web_recon.py:273-276 | a file that step k leaves behind is there at the end |
| Properties.InputListsKept | web_recon.py:88-144 | in such a run subdomains.txt (read by httpx) and alive.txt (read by katana) are there at the end |
| Properties.WaybackListKept | web_recon.py:108-118 | waybackurls.txt is there at the end of every completed pipeline |
| Properties.JsListKept | web_recon.py:146-170 | in such a run js_files.txt is there at the end |
| Properties.BruteforceOutputsKept | web_recon.py:213-251 | in such a run common_dirs.txt and ffuf_results.json are there at the end |
| Properties.CompletedState | web_recon.py:256-279 | a completed run ends in the state the nine steps leave |
| Properties.FullRunArtifacts | web_recon.py:256-279 | when every step of a completed run returns True, the output directory holds subdomains.txt, alive.txt, waybackurls.txt, js_files.txt, common_dirs.txt and ffuf_results.json |
| Runner.Workspace.RunStage | web_recon.py:273-274 | calls the step and leaves its specified result and state |
| Recon.Start | web_recon.py:256-279 | an aborted run changes nothing and names at least one tool, each not installed; a completed run has every tool installed and one result per step |
| Properties.StartReport | web_recon.py:256-279 | the run aborts, changing nothing and reporting the missing tools, iff a tool is missing; otherwise all nine steps run once each, in order, each result being that step's outcome on the state the earlier steps left |
| Runner.Workspace.RunPipeline | web_recon.py:273-276 | the loop over the steps leaves the results and state of running the pipeline |
| Runner.Workspace.Start | web_recon.py:256-279 | aborts iff a tool is missing, and then changes nothing; otherwise reports the nine steps in order; result and state are those of the specification |
| Properties.SubfinderFailureCascade | web_recon.py:258-276 | when subfinder leaves no subdomain list, the run still completes all nine steps, and httpx and subjack fail their guard without starting or changing anything |
| Properties.SubfinderLeavesNoList | web_recon.py:77-86 | a subfinder run that writes nothing leaves no subdomains.txt when there was none |
| Properties.NoSubdomainsBeforeTakeover | web_recon.py:88-196 | none of the steps between subfinder and subjack creates subdomains.txt |
| Runner.Workspace.constructor | web_recon.py:14-31 | the workspace starts with the files already in the output directory and no tool started |

## Left out

- Properties.FullRunArtifacts: names only six of the ten output files. The
  steps for gau, katana, nuclei and subjack succeed on a clean exit alone,
  so gau_urls.txt, katana_crawl.txt, nuclei_results.json and
  subdomain_takeover.txt are there only if those tools wrote them.
- Process launching and argument vectors: each tool is an oracle (`Env.run`)
  giving its exit status and what it leaves at its output path. The flags
  passed to it, such as thread counts, severities and match codes, are not
  modelled. The log records only which tool was started and on what.
- check_tool_installed (web_recon.py:42-47) is the oracle `Env.installed`; its
  `tool -h` probes are not logged.
- The install hints and every console message, the banner and the
  completion message: output only. `Report.Completed` stands for reaching
  the completion message.
- `json.load` of ffuf's report and the count of its results: the oracle
  `Env.reportLoads` says whether the report loads and its results can be
  counted.
- The internals of `urlparse`: the runner uses the oracle `Env.urlparse`.
  `Url.Split` covers only printable ASCII without `[` (no IPv6 literals, no
  whitespace or non-ASCII characters), enough for lines of the form
  `scheme://host[/...]`. It follows the scheme rule of Python 3.12 (and
  3.11.1 and later): a scheme must start with a letter. Older versions split
  some inputs, such as `host:80`, differently.
- How file bytes split into lines (newline conventions, encodings): files
  are sequences of lines without terminators.
- Exceptions other than a tool's failure and `urlparse`'s `ValueError`
  (for example an unwritable output directory): not modelled.
- argparse handling and the `threads` value: command line only.
- Properties.StartReport: assumes every tool exits. `subprocess.run` is
  called without a timeout (web_recon.py:44, 81, 101, 113, 124, 139, 185,
  200, 241), so a tool that hangs blocks the run: at :44 a hanging `tool -h`
  probe blocks the dependency check itself, and elsewhere the later steps
  never run.
- Runner.Workspace.Start: does not model an error that escapes a step.
  `extract_js_files` has no `try` (web_recon.py:146-170), and the wordlist is
  written before the `try` of run_directory_bruteforce (web_recon.py:217-220
  against :222). An error there, such as a line that cannot be decoded or a
  file that cannot be written, ends the whole run instead of failing one
  step.
