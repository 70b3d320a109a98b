/** main.py: the request pipeline of the analyser. A repository URL is
    checked against `GITHUB_REGEX`; the fetched files are filtered by
    extension and content; then `analyze_repo` answers with one JSON object
    or an HTTP error, and `summarize_files_stream` yields a sequence of
    events.

    The summariser and the fetcher are the ones of the other modules, seen
    through their outcomes: the repository tree and whether the fetch runner
    raised, what `summarize_file` does for each path (`runs`), and what
    `summarize_project` returns or raises (`project`). */
module Pipeline {
  import opened Wrappers
  import opened Text
  import opened Dicts
  import Fetcher
  import Report

  // ---------------------------------------------------------------------
  // GITHUB_REGEX

  const GithubPrefix := "https://github.com/"

  datatype Repo = Repo(owner: string, name: string)

  /** The class `[\w\-]` on ASCII. */
  predicate SegmentChar(c: char) {
    IsWordChar(c) || c == '-'
  }

  /** A match of `([\w\-]+)`. */
  predicate Segment(s: string) {
    s != [] && forall i :: 0 <= i < |s| ==> SegmentChar(s[i])
  }

  /** What may follow the repository name: `(?:\.git)?\/?$`, where `$` also
      matches before a final newline. */
  predicate AcceptedTail(t: string) {
    t == "" || t == "/" || t == ".git" || t == ".git/"
    || t == "\n" || t == "/\n" || t == ".git\n" || t == ".git/\n"
  }

  /** The longest prefix of `s` made of segment characters: what the greedy
      `[\w\-]+` takes (no backtracking can help, since what follows it in
      the pattern never starts with a segment character). */
  function SegmentRun(s: string): (r: string)
    ensures |r| <= |s| && r == s[..|r|]
    ensures forall i :: 0 <= i < |r| ==> SegmentChar(r[i])
    ensures |r| < |s| ==> !SegmentChar(s[|r|])
  {
    if s == [] || !SegmentChar(s[0]) then []
    else [s[0]] + SegmentRun(s[1..])
  }

  /** `re.match(GITHUB_REGEX, url)` and its two groups. */
  function ParseGithubUrl(url: string): Option<Repo> {
    if !StartsWith(url, GithubPrefix) then None
    else
      var rest := url[|GithubPrefix|..];
      var owner := SegmentRun(rest);
      if owner == [] || |owner| == |rest| || rest[|owner|] != '/' then None
      else
        var after := rest[|owner| + 1..];
        var name := SegmentRun(after);
        if name != [] && AcceptedTail(after[|name|..]) then Some(Repo(owner, name)) else None
  }

  /** An accepted URL is the prefix, the owner, '/', the repository name and
      an accepted tail; neither group is empty or holds anything but
      `[\w\-]`, so in particular ".git" is never part of the name. */
  lemma ParseSound(url: string)
    requires ParseGithubUrl(url).Some?
    ensures var rp := ParseGithubUrl(url).value;
      && Segment(rp.owner) && Segment(rp.name) && '.' !in rp.name
      && exists t :: AcceptedTail(t) && url == GithubPrefix + rp.owner + "/" + rp.name + t
  {
    var rest := url[|GithubPrefix|..];
    var owner := SegmentRun(rest);
    var after := rest[|owner| + 1..];
    var name := SegmentRun(after);
    var t := after[|name|..];
    assert ParseGithubUrl(url) == Some(Repo(owner, name));
    assert AcceptedTail(t);
    assert url == GithubPrefix + owner + "/" + name + t by {
      Reassemble(url, GithubPrefix, owner, name);
    }
    assert '.' !in name by {
      assert !SegmentChar('.');
    }
  }

  /** A URL cut into prefix, owner, separator, name and tail is their
      concatenation. */
  lemma Reassemble(url: string, prefix: string, owner: string, name: string)
    requires StartsWith(url, prefix)
    requires |owner| < |url[|prefix|..]| && url[|prefix|..][..|owner|] == owner
    requires url[|prefix|..][|owner|] == '/'
    requires |name| <= |url[|prefix|..][|owner| + 1..]|
    requires url[|prefix|..][|owner| + 1..][..|name|] == name
    ensures url == prefix + owner + "/" + name + url[|prefix|..][|owner| + 1..][|name|..]
  {
    var rest := url[|prefix|..];
    var after := rest[|owner| + 1..];
    var t := after[|name|..];
    assert after == name + t;
    assert rest == owner + "/" + after;
    assert url == prefix + rest;
  }

  lemma {:induction false} SegmentRunOf(a: string, b: string)
    requires forall i :: 0 <= i < |a| ==> SegmentChar(a[i])
    requires b == [] || !SegmentChar(b[0])
    ensures SegmentRun(a + b) == a
    decreases |a|
  {
    if a == [] {
      assert a + b == b;
    } else {
      assert (a + b)[1..] == a[1..] + b;
      SegmentRunOf(a[1..], b);
    }
  }

  lemma TailStartsOutsideSegment(t: string)
    requires AcceptedTail(t)
    ensures t == [] || !SegmentChar(t[0])
  {
    if t != [] {
      assert t[0] == '/' || t[0] == '.' || t[0] == '\n';
    }
  }

  /** Every URL of that shape is accepted, with exactly those groups. */
  lemma ParseComplete(owner: string, name: string, t: string)
    requires Segment(owner) && Segment(name) && AcceptedTail(t)
    ensures ParseGithubUrl(GithubPrefix + owner + "/" + name + t) == Some(Repo(owner, name))
  {
    var after := name + t;
    var rest := owner + (['/'] + after);
    var url := GithubPrefix + rest;
    assert GithubPrefix + owner + "/" + name + t == url by {
      Associate(GithubPrefix, owner, name, t);
    }
    assert StartsWith(url, GithubPrefix) && url[|GithubPrefix|..] == rest;
    assert SegmentRun(rest) == owner by {
      SegmentRunOf(owner, ['/'] + after);
    }
    assert rest[|owner|] == '/' && rest[|owner| + 1..] == after;
    assert SegmentRun(after) == name by {
      TailStartsOutsideSegment(t);
      SegmentRunOf(name, t);
    }
    assert after[|name|..] == t;
  }

  lemma Associate(prefix: string, owner: string, name: string, t: string)
    ensures prefix + owner + "/" + name + t == prefix + (owner + (['/'] + (name + t)))
  {
  }

  /** The report of an accepted repository is named after the repository
      itself: the project-name sanitiser keeps every character of a name
      the URL pattern accepts. */
  lemma ReportNamedAfterRepo(url: string)
    requires ParseGithubUrl(url).Some?
    ensures Report.SafeProjectName(ParseGithubUrl(url).value.name) == ParseGithubUrl(url).value.name
  {
    ParseSound(url);
    var name := ParseGithubUrl(url).value.name;
    assert forall i :: 0 <= i < |name| ==> Report.NameChar(name[i]);
  }

  // ---------------------------------------------------------------------
  // The file filter

  const TextExtensions: seq<string> := [
    ".py", ".js", ".ts", ".jsx", ".tsx", ".json", ".md", ".yaml", ".yml",
    ".html", ".css", ".scss", ".go", ".java", ".cs", ".php", ".rb", ".rs", ".swift",
    "dockerfile", ".env.example", ".gitignore", ".toml", ".ini", ".xml", ".sh",
    ".sql", ".properties", ".gradle", "requirements.txt", "package.json", "composer.json"]

  /** `any(p.endswith(ext) for ext in TEXT_EXTENSIONS)`, case-sensitive. */
  predicate IsTextFile(path: string) {
    exists i :: 0 <= i < |TextExtensions| && EndsWith(path, TextExtensions[i])
  }

  /** The condition of the `files_to_process` comprehension. */
  predicate Processable(e: Entry<Fetcher.FileData>) {
    IsTextFile(e.key) && Strip(e.value.content) != []
  }

  function FilesToProcess(files: Dict<Fetcher.FileData>): (r: Dict<Fetcher.FileData>)
    ensures forall e :: e in r <==> e in files && Processable(e)
    ensures |r| <= |files|
    ensures UniqueKeys(files) ==> UniqueKeys(r)
    ensures |files| == 1 ==> r == if Processable(files[0]) then files else []
  {
    FilterSpec(files, Processable);
    Filter(files, Processable)
  }

  /** The comprehension keeps the fetched order: the files to process of a
      concatenation are those of each half, in order. */
  lemma FilesToProcessAppend(a: Dict<Fetcher.FileData>, b: Dict<Fetcher.FileData>)
    ensures FilesToProcess(a + b) == FilesToProcess(a) + FilesToProcess(b)
  {
    FilterAppend(a, b, Processable);
  }

  /** A fetched file is processed exactly when its path has a listed ending
      and its content has a character that is not whitespace. */
  lemma ProcessedIff(files: Dict<Fetcher.FileData>, e: Entry<Fetcher.FileData>)
    ensures e in FilesToProcess(files) <==>
      && e in files && IsTextFile(e.key)
      && exists i :: 0 <= i < |e.value.content| && !IsSpace(e.value.content[i])
  {
    StripEmptyIff(e.value.content);
  }

  /** The paths to summarise, in fetch order; none when the fetch raised. */
  function Todo(tree: Fetcher.Listing, crash: Option<string>): seq<string> {
    match Fetcher.FetchFiles(tree, crash)
    case Success(files) => Keys(FilesToProcess(files))
    case Failure(_) => []
  }

  /** Every fetched file takes its place among the paths to summarise: after
      the processable files fetched before it and ahead of those fetched
      after it, and only when it is processable itself. */
  lemma TodoOrder(tree: Fetcher.Listing, before: Dict<Fetcher.FileData>, e: Entry<Fetcher.FileData>, after: Dict<Fetcher.FileData>)
    requires Fetcher.Fetched(tree) == before + [e] + after
    ensures Todo(tree, None) ==
      Keys(FilesToProcess(before)) + (if Processable(e) then [e.key] else []) + Keys(FilesToProcess(after))
  {
    assert Fetcher.FetchFiles(tree, None) == Success(before + [e] + after);
    ProcessOrder(before, e, after);
  }

  lemma ProcessOrder(before: Dict<Fetcher.FileData>, e: Entry<Fetcher.FileData>, after: Dict<Fetcher.FileData>)
    ensures Keys(FilesToProcess(before + [e] + after)) ==
      Keys(FilesToProcess(before)) + (if Processable(e) then [e.key] else []) + Keys(FilesToProcess(after))
  {
    var b, m, a := FilesToProcess(before), FilesToProcess([e]), FilesToProcess(after);
    assert FilesToProcess(before + [e] + after) == b + m + a by {
      FilesToProcessAppend(before + [e], after);
      FilesToProcessAppend(before, [e]);
    }
    assert Keys(b + m + a) == Keys(b) + Keys(m) + Keys(a) by {
      KeysAppend(b + m, a);
      KeysAppend(b, m);
    }
    assert Keys(m) == if Processable(e) then [e.key] else [];
  }

  // ---------------------------------------------------------------------
  // One file

  /** What `summarize_file` does for one path: returns None, raises, or
      returns a location, whose staged record the stream then reads (the
      read can raise too). */
  datatype FileRun =
    | Skipped
    | Crashed(message: string)
    | Staged(location: string, read: Result<string, string>)

  /** What `summarize_path` hands to `analyze_repo`: the returned location,
      or None when `summarize_file` returned None or raised. */
  function LocationOf(run: FileRun): Option<string> {
    if run.Staged? then Some(run.location) else None
  }

  /** `valid_summary_paths`: the truthy locations, in processing order. */
  function ValidLocations(paths: seq<string>, runs: string -> FileRun): (r: seq<string>)
    ensures |r| <= |paths|
    ensures forall s :: s in r ==> s != "" && exists p :: p in paths && LocationOf(runs(p)) == Some(s)
    ensures |paths| == 1 ==>
      r == if LocationOf(runs(paths[0])).Some? && LocationOf(runs(paths[0])).value != "" then [LocationOf(runs(paths[0])).value] else []
    decreases |paths|
  {
    if paths == [] then []
    else
      var rest := ValidLocations(paths[1..], runs);
      var loc := LocationOf(runs(paths[0]));
      if loc.Some? && loc.value != "" then [loc.value] + rest else rest
  }

  /** Locations are collected path by path: those of a concatenation are
      those of each half, in order, so every truthy location is kept and the
      processing order is preserved. */
  lemma {:induction false} ValidLocationsAppend(a: seq<string>, b: seq<string>, runs: string -> FileRun)
    ensures ValidLocations(a + b, runs) == ValidLocations(a, runs) + ValidLocations(b, runs)
    decreases |a|
  {
    if a == [] {
      assert a + b == b;
    } else {
      assert (a + b)[0] == a[0] && (a + b)[1..] == a[1..] + b;
      ValidLocationsAppend(a[1..], b, runs);
    }
  }

  // ---------------------------------------------------------------------
  // analyze_repo

  const InvalidUrlDetail := "Invalid GitHub URL. Must be of the form https://github.com/username/projectname"

  datatype Response =
    | HttpError(status: int, detail: string)
    | Analysis(repo: string, totalFilesFetched: nat, filesAnalyzed: nat, projectSummaryFile: string)

  /** `analyze_repo(url)`. */
  function AnalyzeRepo(
    url: string, tree: Fetcher.Listing, crash: Option<string>,
    runs: string -> FileRun, project: seq<string> -> Result<string, string>): (r: Response)
    ensures r == HttpError(400, InvalidUrlDetail) <==> ParseGithubUrl(url).None?
    ensures r.HttpError? ==> r.status in {400, 404, 500}
    ensures r.Analysis? ==>
      && ParseGithubUrl(url).Some? && crash.None?
      && r.repo == ParseGithubUrl(url).value.owner + "/" + ParseGithubUrl(url).value.name
      && r.totalFilesFetched == |Fetcher.Fetched(tree)|
      && r.filesAnalyzed == |ValidLocations(Todo(tree, crash), runs)|
      && 1 <= r.filesAnalyzed <= |Todo(tree, crash)| <= r.totalFilesFetched
      && project(ValidLocations(Todo(tree, crash), runs)) == Success(r.projectSummaryFile)
  {
    match ParseGithubUrl(url)
    case None => HttpError(400, InvalidUrlDetail)
    case Some(rp) =>
      match Fetcher.FetchFiles(tree, crash)
      case Failure(e) => HttpError(500, "Error fetching files: " + e)
      case Success(files) =>
        if files == [] then HttpError(404, "No readable files found.")
        else
          var todo := FilesToProcess(files);
          if todo == [] then HttpError(404, "No text files found to analyze.")
          else
            var valid := ValidLocations(Keys(todo), runs);
            if valid == [] then HttpError(500, "All file summaries failed.")
            else
              match project(valid)
              case Failure(e) => HttpError(500, "Error generating project summary: " + e)
              case Success(f) => Analysis(rp.owner + "/" + rp.name, |files|, |valid|, f)
  }

  /** With nothing to process the answer is fixed before any summarising:
      it does not depend on what the summariser would do. */
  lemma NothingToProcess(
    url: string, tree: Fetcher.Listing, crash: Option<string>,
    runs: string -> FileRun, project: seq<string> -> Result<string, string>,
    runs': string -> FileRun, project': seq<string> -> Result<string, string>)
    requires Todo(tree, crash) == []
    ensures AnalyzeRepo(url, tree, crash, runs, project) == AnalyzeRepo(url, tree, crash, runs', project')
    ensures ParseGithubUrl(url).Some? && crash.None? ==>
      AnalyzeRepo(url, tree, crash, runs, project).HttpError?
      && AnalyzeRepo(url, tree, crash, runs, project).status == 404
  {
    if crash.None? {
      var files := Fetcher.Fetched(tree);
      assert Fetcher.FetchFiles(tree, crash) == Success(files);
      assert |Keys(FilesToProcess(files))| == 0;
    }
  }

  /** When no file yields a truthy location the answer is the 500 "All file
      summaries failed.", and the project step is never reached. */
  lemma AllSummariesFailed(
    url: string, tree: Fetcher.Listing, crash: Option<string>,
    runs: string -> FileRun, project: seq<string> -> Result<string, string>)
    requires ParseGithubUrl(url).Some? && crash.None? && Todo(tree, crash) != []
    requires ValidLocations(Todo(tree, crash), runs) == []
    ensures AnalyzeRepo(url, tree, crash, runs, project) == HttpError(500, "All file summaries failed.")
  {
    var files := Fetcher.Fetched(tree);
    assert Fetcher.FetchFiles(tree, crash) == Success(files);
    var todo := FilesToProcess(files);
    assert files != [] by {
      assert |todo| <= |files|;
    }
  }

  lemma {:induction false} NoValidLocations(paths: seq<string>, runs: string -> FileRun)
    requires forall p :: p in paths ==> !runs(p).Staged?
    ensures ValidLocations(paths, runs) == []
    decreases |paths|
  {
    if paths != [] {
      assert paths[0] in paths;
      assert forall p :: p in paths[1..] ==> p in paths;
      NoValidLocations(paths[1..], runs);
    }
  }

  // ---------------------------------------------------------------------
  // summarize_files_stream

  /** One server-sent event, by its JSON payload. */
  datatype Event =
    | Fetching(repo: string)
    | Analyzing(fetched: nat, total: nat)
    | Summarizing(path: string, index: nat, total: nat)
    | Generating
    | Completed
    | Error(message: string)
    | FileSummary(path: string, summary: string)
    | ProjectSummaryFile(file: string)

  /** The event that follows the "Summarizing" status of one file. */
  function Reported(path: string, run: FileRun): (e: Event)
    ensures e.FileSummary? <==> run.Staged? && run.read.Success?
    ensures e.FileSummary? ==> e.path == path && e.summary == run.read.value
    ensures !e.FileSummary? ==> e.Error?
  {
    match run
    case Skipped => Error("Skipping failed summary for " + path)
    case Crashed(m) => Error("Error summarizing " + path + ": " + m)
    case Staged(_, read) =>
      match read
      case Success(summary) => FileSummary(path, summary)
      case Failure(m) => Error("Error summarizing " + path + ": " + m)
  }

  /** The events of the first |paths| files, numbered from 1. */
  function LoopEvents(paths: seq<string>, total: nat, runs: string -> FileRun): seq<Event>
    decreases |paths|
  {
    if paths == [] then []
    else
      var p := paths[|paths| - 1];
      LoopEvents(paths[..|paths| - 1], total, runs) + [Summarizing(p, |paths|, total), Reported(p, runs(p))]
  }

  /** `file_summary_paths` after the first |paths| files: every location
      `summarize_file` returned, even when reading it back failed. */
  function StagedPaths(paths: seq<string>, runs: string -> FileRun): seq<string>
    decreases |paths|
  {
    if paths == [] then []
    else
      var p := paths[|paths| - 1];
      StagedPaths(paths[..|paths| - 1], runs) + if runs(p).Staged? then [runs(p).location] else []
  }

  function ProjectEvent(outcome: Result<string, string>): Event {
    match outcome
    case Success(f) => ProjectSummaryFile(f)
    case Failure(e) => Error("Error generating project summary: " + e)
  }

  /** The events `summarize_files_stream(url, request)` yields, where the
      client stays connected for the first `stayFor` disconnection checks. */
  function Stream(
    url: string, tree: Fetcher.Listing, crash: Option<string>, stayFor: nat,
    runs: string -> FileRun, project: seq<string> -> Result<string, string>): seq<Event>
  {
    match ParseGithubUrl(url)
    case None => [Error("Invalid GitHub URL")]
    case Some(rp) =>
      [Fetching(rp.owner + "/" + rp.name)] + AfterFetch(Fetcher.FetchFiles(tree, crash), stayFor, runs, project)
  }

  /** The events after the "Fetching" status. */
  function AfterFetch(
    fetched: Result<Dict<Fetcher.FileData>, string>, stayFor: nat,
    runs: string -> FileRun, project: seq<string> -> Result<string, string>): seq<Event>
  {
    match fetched
    case Failure(e) => [Error("Error fetching files: " + e)]
    case Success(files) =>
      if files == [] then [Error("No readable files found.")]
      else
        var todo := Keys(FilesToProcess(files));
        if todo == [] then [Error("No text files found to analyze.")]
        else [Analyzing(|files|, |todo|)] + Processing(todo, stayFor, runs, project)
  }

  /** The events from the first file on. */
  function Processing(
    todo: seq<string>, stayFor: nat,
    runs: string -> FileRun, project: seq<string> -> Result<string, string>): seq<Event>
  {
    if stayFor < |todo| then LoopEvents(todo[..stayFor], |todo|, runs)
    else
      var body := LoopEvents(todo, |todo|, runs);
      var staged := StagedPaths(todo, runs);
      if staged == [] then body + [Error("No files were successfully summarized.")]
      else body + [Generating, ProjectEvent(project(staged)), Completed]
  }

  /** The per-file loop of the stream: before each file the connection is
      checked; a file yields its status and then one report; a returned
      location is staged. */
  method StreamFiles(todo: seq<string>, stayFor: nat, runs: string -> FileRun)
    returns (events: seq<Event>, staged: seq<string>, disconnected: bool)
    ensures disconnected <==> stayFor < |todo|
    ensures disconnected ==> events == LoopEvents(todo[..stayFor], |todo|, runs)
    ensures !disconnected ==> events == LoopEvents(todo, |todo|, runs) && staged == StagedPaths(todo, runs)
  {
    events := [];
    staged := [];
    var i := 0;
    while i < |todo|
      invariant 0 <= i <= |todo| && i <= stayFor
      invariant events == LoopEvents(todo[..i], |todo|, runs)
      invariant staged == StagedPaths(todo[..i], runs)
    {
      if i == stayFor {
        return events, staged, true;
      }
      var path := todo[i];
      var run := runs(path);
      assert todo[..i + 1][..i] == todo[..i];
      events := events + [Summarizing(path, i + 1, |todo|)];
      if run.Staged? {
        staged := staged + [run.location];
      }
      events := events + [Reported(path, run)];
      i := i + 1;
    }
    assert todo[..|todo|] == todo;
    disconnected := false;
  }

  /** `summarize_files_stream(url, request)`. */
  method SummarizeFilesStream(
    url: string, tree: Fetcher.Listing, crash: Option<string>, stayFor: nat,
    runs: string -> FileRun, project: seq<string> -> Result<string, string>)
    returns (events: seq<Event>)
    ensures events == Stream(url, tree, crash, stayFor, runs, project)
  {
    var parsed := ParseGithubUrl(url);
    if parsed.None? {
      return [Error("Invalid GitHub URL")];
    }
    var rp := parsed.value;
    var fetched := Fetcher.FetchFiles(tree, crash);
    var rest := StreamFetched(fetched, stayFor, runs, project);
    events := [Fetching(rp.owner + "/" + rp.name)] + rest;
  }

  /** The stream after the "Fetching" status, given what `fetch_files`
      returned or raised. */
  method StreamFetched(
    fetched: Result<Dict<Fetcher.FileData>, string>, stayFor: nat,
    runs: string -> FileRun, project: seq<string> -> Result<string, string>)
    returns (events: seq<Event>)
    ensures events == AfterFetch(fetched, stayFor, runs, project)
  {
    if fetched.Failure? {
      return [Error("Error fetching files: " + fetched.error)];
    }
    var files := fetched.value;
    if files == [] {
      return [Error("No readable files found.")];
    }
    var todo := Keys(FilesToProcess(files));
    if todo == [] {
      return [Error("No text files found to analyze.")];
    }
    var fileEvents, staged, disconnected := StreamFiles(todo, stayFor, runs);
    events := [Analyzing(|files|, |todo|)] + fileEvents;
    if disconnected {
      return;
    }
    if staged == [] {
      return events + [Error("No files were successfully summarized.")];
    }
    events := events + [Generating, ProjectEvent(project(staged)), Completed];
  }

  // ---------------------------------------------------------------------
  // Properties of the stream

  /** The loop yields two events per file: its numbered status, then its
      report; none of them ends the stream. */
  lemma {:induction false} LoopEventsShape(paths: seq<string>, total: nat, runs: string -> FileRun)
    ensures |LoopEvents(paths, total, runs)| == 2 * |paths|
    ensures forall j :: 0 <= j < |paths| ==>
      && LoopEvents(paths, total, runs)[2 * j] == Summarizing(paths[j], j + 1, total)
      && LoopEvents(paths, total, runs)[2 * j + 1] == Reported(paths[j], runs(paths[j]))
    ensures forall e :: e in LoopEvents(paths, total, runs) ==> e.Summarizing? || e.Error? || e.FileSummary?
    decreases |paths|
  {
    if paths != [] {
      var p := paths[..|paths| - 1];
      LoopEventsShape(p, total, runs);
      assert forall j :: 0 <= j < |p| ==> p[j] == paths[j];
    }
  }

  /** The staged list holds only locations `summarize_file` returned, at
      most one per file, and is empty exactly when no file returned one
      (StagedPathsAppend gives its order). */
  lemma {:induction false} StagedPathsSpec(paths: seq<string>, runs: string -> FileRun)
    ensures |StagedPaths(paths, runs)| <= |paths|
    ensures forall s :: s in StagedPaths(paths, runs) ==> exists p :: p in paths && runs(p).Staged? && runs(p).location == s
    ensures StagedPaths(paths, runs) == [] <==> forall p :: p in paths ==> !runs(p).Staged?
    decreases |paths|
  {
    if paths != [] {
      var p := paths[..|paths| - 1];
      var x := paths[|paths| - 1];
      StagedPathsSpec(p, runs);
      assert forall q :: q in paths <==> q in p || q == x;
    }
  }

  /** `file_summary_paths` grows file by file: a single file contributes its
      location exactly when `summarize_file` returned one, and the staged
      list of a concatenation is that of each half, so it holds every
      returned location in processing order. */
  lemma {:induction false} StagedPathsAppend(a: seq<string>, b: seq<string>, runs: string -> FileRun)
    ensures StagedPaths(a + b, runs) == StagedPaths(a, runs) + StagedPaths(b, runs)
    ensures |b| == 1 ==> StagedPaths(b, runs) == if runs(b[0]).Staged? then [runs(b[0]).location] else []
    decreases |b|
  {
    if b == [] {
      assert a + b == a;
    } else {
      var init, x := b[..|b| - 1], b[|b| - 1];
      assert (a + b)[..|a + b| - 1] == a + init && (a + b)[|a + b| - 1] == x;
      StagedPathsAppend(a, init, runs);
      if |b| == 1 {
        assert init == [];
      }
    }
  }

  /** An invalid URL yields one error event and nothing else. */
  lemma InvalidUrlStream(
    url: string, tree: Fetcher.Listing, crash: Option<string>, stayFor: nat,
    runs: string -> FileRun, project: seq<string> -> Result<string, string>)
    requires ParseGithubUrl(url).None?
    ensures Stream(url, tree, crash, stayFor, runs, project) == [Error("Invalid GitHub URL")]
  {
  }

  /** Files to process mean that the fetch succeeded with a non-empty walk. */
  lemma FetchedTodo(tree: Fetcher.Listing, crash: Option<string>)
    requires Todo(tree, crash) != []
    ensures crash.None? && Fetcher.FetchFiles(tree, crash) == Success(Fetcher.Fetched(tree))
    ensures Fetcher.Fetched(tree) != []
    ensures Todo(tree, crash) == Keys(FilesToProcess(Fetcher.Fetched(tree)))
  {
    var files := Fetcher.Fetched(tree);
    assert crash.None?;
    assert Fetcher.FetchFiles(tree, crash) == Success(files);
    assert files != [] by {
      assert |FilesToProcess(files)| <= |files|;
    }
  }

  /** A stream that gets as far as the files: the two status events, then
      the events of the file loop. */
  lemma StreamProcessing(
    url: string, tree: Fetcher.Listing, crash: Option<string>, stayFor: nat,
    runs: string -> FileRun, project: seq<string> -> Result<string, string>)
    requires ParseGithubUrl(url).Some? && Todo(tree, crash) != []
    ensures var rp := ParseGithubUrl(url).value;
      Stream(url, tree, crash, stayFor, runs, project)
      == [Fetching(rp.owner + "/" + rp.name), Analyzing(|Fetcher.Fetched(tree)|, |Todo(tree, crash)|)]
         + Processing(Todo(tree, crash), stayFor, runs, project)
  {
    var rp := ParseGithubUrl(url).value;
    var files := Fetcher.Fetched(tree);
    var todo := Todo(tree, crash);
    var rest := Processing(todo, stayFor, runs, project);
    var analyzing := Analyzing(|files|, |todo|);
    assert AfterFetch(Fetcher.FetchFiles(tree, crash), stayFor, runs, project) == [analyzing] + rest by {
      FetchedTodo(tree, crash);
      AfterFetchProcessing(files, stayFor, runs, project);
    }
    var head := Fetching(rp.owner + "/" + rp.name);
    PairPrefix(head, analyzing, rest);
  }

  lemma PairPrefix<T>(a: T, b: T, rest: seq<T>)
    ensures [a] + ([b] + rest) == [a, b] + rest
  {
  }

  lemma AfterFetchProcessing(
    files: Dict<Fetcher.FileData>, stayFor: nat,
    runs: string -> FileRun, project: seq<string> -> Result<string, string>)
    requires files != [] && Keys(FilesToProcess(files)) != []
    ensures var todo := Keys(FilesToProcess(files));
      AfterFetch(Success(files), stayFor, runs, project)
      == [Analyzing(|files|, |todo|)] + Processing(todo, stayFor, runs, project)
  {
  }


  /** A stream that stops before the files ends with its one error event. */
  lemma StreamStopsEarly(
    url: string, tree: Fetcher.Listing, crash: Option<string>, stayFor: nat,
    runs: string -> FileRun, project: seq<string> -> Result<string, string>)
    requires ParseGithubUrl(url).None? || Todo(tree, crash) == []
    ensures var events := Stream(url, tree, crash, stayFor, runs, project);
      1 <= |events| <= 2 && events[|events| - 1].Error? && Completed !in events
  {
    var events := Stream(url, tree, crash, stayFor, runs, project);
    match ParseGithubUrl(url)
    case None =>
      assert events == [Error("Invalid GitHub URL")];
    case Some(rp) =>
      var fetched := Fetcher.FetchFiles(tree, crash);
      var rest := AfterFetch(fetched, stayFor, runs, project);
      assert events == [Fetching(rp.owner + "/" + rp.name)] + rest;
      assert |rest| == 1 && rest[0].Error? by {
        if fetched.Success? && fetched.value != [] {
          assert Keys(FilesToProcess(fetched.value)) == Todo(tree, crash) == [];
        }
      }
      assert events == [Fetching(rp.owner + "/" + rp.name), rest[0]];
  }

  /** When the client disconnects before the last file, the loop stops right
      there: two events for each file handled before the disconnection, and
      no project summary and no "Completed". */
  lemma DisconnectStopsProcessing(
    todo: seq<string>, stayFor: nat,
    runs: string -> FileRun, project: seq<string> -> Result<string, string>)
    requires stayFor < |todo|
    ensures var events := Processing(todo, stayFor, runs, project);
      && |events| == 2 * stayFor
      && (forall j :: 0 <= j < stayFor ==> events[2 * j] == Summarizing(todo[j], j + 1, |todo|))
      && forall e :: e in events ==> e.Summarizing? || e.Error? || e.FileSummary?
  {
    LoopEventsShape(todo[..stayFor], |todo|, runs);
  }

  /** The loop ends with "Completed" exactly when the client stayed for every
      file and at least one file was staged; the event before it is the
      report's file name or the project step's error, after the
      "Generating" status. Otherwise the last event is an error (or the
      report of the last file handled) and "Completed" never appears. */
  lemma ProcessingEnding(
    todo: seq<string>, stayFor: nat,
    runs: string -> FileRun, project: seq<string> -> Result<string, string>)
    ensures var events := Processing(todo, stayFor, runs, project);
      && (Completed in events <==> |todo| <= stayFor && exists p :: p in todo && runs(p).Staged?)
      && (Completed in events ==>
            && |events| >= 3 && events[|events| - 1] == Completed
            && events[|events| - 3] == Generating
            && (events[|events| - 2].ProjectSummaryFile? || events[|events| - 2].Error?))
      && (|todo| <= stayFor && (forall p :: p in todo ==> !runs(p).Staged?) ==>
            events[|events| - 1] == Error("No files were successfully summarized."))
  {
    if stayFor < |todo| {
      DisconnectStopsProcessing(todo, stayFor, runs, project);
    } else {
      var body := LoopEvents(todo, |todo|, runs);
      var staged := StagedPaths(todo, runs);
      var events := Processing(todo, stayFor, runs, project);
      assert Completed !in body by {
        LoopEventsShape(todo, |todo|, runs);
      }
      StagedPathsSpec(todo, runs);
      if staged == [] {
        assert events == body + [Error("No files were successfully summarized.")];
        assert Completed !in events;
      } else {
        assert events == body + [Generating, ProjectEvent(project(staged)), Completed];
        assert staged[0] in staged;
      }
    }
  }

  /** Hence for a whole stream: after a disconnection there is neither a
      project summary nor "Completed", and the stream ends with "Completed"
      exactly when the URL was accepted, there were files to process, the
      client stayed for all of them and at least one was staged. */
  lemma StreamCompletes(
    url: string, tree: Fetcher.Listing, crash: Option<string>, stayFor: nat,
    runs: string -> FileRun, project: seq<string> -> Result<string, string>)
    ensures var events := Stream(url, tree, crash, stayFor, runs, project);
      var todo := Todo(tree, crash);
      && (Completed in events <==>
            && ParseGithubUrl(url).Some? && todo != [] && |todo| <= stayFor
            && exists p :: p in todo && runs(p).Staged?)
      && (ParseGithubUrl(url).Some? && stayFor < |todo| ==>
            && |events| == 2 + 2 * stayFor
            && forall e :: e in events ==> !e.ProjectSummaryFile? && !e.Generating? && !e.Completed?)
  {
    if ParseGithubUrl(url).Some? && Todo(tree, crash) != [] {
      ProcessingStreamCompletes(url, tree, crash, stayFor, runs, project);
    } else {
      StreamStopsEarly(url, tree, crash, stayFor, runs, project);
    }
  }

  lemma ProcessingStreamCompletes(
    url: string, tree: Fetcher.Listing, crash: Option<string>, stayFor: nat,
    runs: string -> FileRun, project: seq<string> -> Result<string, string>)
    requires ParseGithubUrl(url).Some? && Todo(tree, crash) != []
    ensures var events := Stream(url, tree, crash, stayFor, runs, project);
      var todo := Todo(tree, crash);
      && (Completed in events <==> |todo| <= stayFor && exists p :: p in todo && runs(p).Staged?)
      && (stayFor < |todo| ==>
            && |events| == 2 + 2 * stayFor
            && forall e :: e in events ==> !e.ProjectSummaryFile? && !e.Generating? && !e.Completed?)
  {
    var todo := Todo(tree, crash);
    var rp := ParseGithubUrl(url).value;
    var head := [Fetching(rp.owner + "/" + rp.name), Analyzing(|Fetcher.Fetched(tree)|, |todo|)];
    StreamProcessing(url, tree, crash, stayFor, runs, project);
    PrefixedProcessing(head, todo, stayFor, runs, project);
  }

  /** Two status events in front of the file loop change neither when
      "Completed" appears nor what a disconnection leaves out. */
  lemma PrefixedProcessing(
    head: seq<Event>, todo: seq<string>, stayFor: nat,
    runs: string -> FileRun, project: seq<string> -> Result<string, string>)
    requires |head| == 2 && forall e :: e in head ==> e.Fetching? || e.Analyzing?
    ensures var events := head + Processing(todo, stayFor, runs, project);
      && (Completed in events <==> |todo| <= stayFor && exists p :: p in todo && runs(p).Staged?)
      && (stayFor < |todo| ==>
            && |events| == 2 + 2 * stayFor
            && forall e :: e in events ==> !e.ProjectSummaryFile? && !e.Generating? && !e.Completed?)
  {
    var loop := Processing(todo, stayFor, runs, project);
    var events := head + loop;
    assert Completed in events <==> |todo| <= stayFor && exists p :: p in todo && runs(p).Staged? by {
      assert Completed !in head;
      assert Completed in events <==> Completed in loop;
      ProcessingEnding(todo, stayFor, runs, project);
    }
    if stayFor < |todo| {
      assert |loop| == 2 * stayFor && forall e :: e in loop ==> e.Summarizing? || e.Error? || e.FileSummary? by {
        DisconnectStopsProcessing(todo, stayFor, runs, project);
      }
      forall e | e in events ensures !e.ProjectSummaryFile? && !e.Generating? && !e.Completed? {
        if e !in head {
          assert e in loop;
        }
      }
    }
  }
}
