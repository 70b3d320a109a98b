/** The project-level step of utils/summarizer.py, `summarize_project`: the
    report's file name, the overview read from the first staged summaries, the
    batches of five staged summaries and their digests, the report text, and
    the clean-up of the staging directory once the report is written.

    The project model's answers (one for the overview, one per batch) are
    inputs, as are the two clock readings, whether writing the report fails,
    and which staged files the operating system refuses to delete. */
module Report {
  import opened Wrappers
  import opened Text
  import Retry
  import opened Staging

  const BatchSize := 5
  const OverviewFiles := 3
  const OverviewPrefixLength := 1000
  const ProjectModelMissing := "[ERROR] Gemini project model not initialized."
  const DefaultProjectName := "AI_Project_Summary"
  const BatchSeparator := "\n\n---\n\n"
  const WriteErrorPrefix := "[ERROR] Failed to write final summary file: "
  const MissingSummary := "[ERROR] Summary not found in cache"

  /** One call to the project model: what the primary does and what the
      fallback would do. */
  datatype Call = Call(outcome: Retry.Outcome, fallback: Retry.FallbackClient)

  function Reply(c: Call): string {
    Retry.BatchReply(c.outcome, c.fallback)
  }

  // ---------------------------------------------------------------------
  // Report file name

  /** A character `summarize_project` keeps in the file name. */
  predicate NameChar(c: char) {
    IsAlnum(c) || c == '-' || c == '_'
  }

  /** `"".join(c for c in name if c.isalnum() or c in ('-', '_'))` */
  function KeepNameChars(name: string): (r: string)
    ensures |r| <= |name|
    ensures forall i :: 0 <= i < |r| ==> NameChar(r[i])
    ensures (forall i :: 0 <= i < |name| ==> NameChar(name[i])) ==> r == name
    ensures |name| == 1 ==> r == if NameChar(name[0]) then name else []
  {
    if name == [] then []
    else if NameChar(name[0]) then [name[0]] + KeepNameChars(name[1..])
    else KeepNameChars(name[1..])
  }

  /** The filter works character by character: filtering a concatenation
      concatenates the filtered halves, so every allowed character is kept
      and the kept ones stay in order. */
  lemma {:induction false} KeepNameCharsAppend(a: string, b: string)
    ensures KeepNameChars(a + b) == KeepNameChars(a) + KeepNameChars(b)
    decreases |a|
  {
    if a == [] {
      assert a + b == b;
    } else {
      assert (a + b)[0] == a[0] && (a + b)[1..] == a[1..] + b;
      KeepNameCharsAppend(a[1..], b);
    }
  }

  /** The sanitised project name: only letters, digits, '-' and '_' are
      kept (the trailing `rstrip()` finds no whitespace to remove), and an
      empty result becomes "AI_Project_Summary". */
  function SafeProjectName(name: string): (r: string)
    ensures r != []
    ensures forall i :: 0 <= i < |r| ==> NameChar(r[i])
    ensures KeepNameChars(name) != [] ==> r == KeepNameChars(name)
    ensures KeepNameChars(name) == [] ==> r == DefaultProjectName
  {
    var kept := KeepNameChars(name);
    assert RStrip(kept) == kept by {
      if kept != [] {
        assert NameChar(kept[|kept| - 1]);
      }
    }
    var safe := RStrip(kept);
    if safe == [] then DefaultProjectName else safe
  }

  /** `f"{safe_project_name}_summary_{stamp}.md"`. */
  function ReportFileName(name: string, stamp: string): string {
    SafeProjectName(name) + "_summary_" + stamp + ".md"
  }

  /** The report lands in the working directory: its name carries no '/'
      when the clock stamp carries none, and it ends in ".md". */
  lemma ReportFileNameShape(name: string, stamp: string)
    requires '/' !in stamp
    ensures '/' !in ReportFileName(name, stamp)
    ensures StartsWith(ReportFileName(name, stamp), SafeProjectName(name) + "_summary_")
    ensures EndsWith(ReportFileName(name, stamp), ".md")
  {
    var safe := SafeProjectName(name);
    var r := ReportFileName(name, stamp);
    assert r == (safe + "_summary_") + stamp + ".md";
    forall i | 0 <= i < |r| ensures r[i] != '/' {
      if i < |safe| {
        assert r[i] == safe[i];
      } else if i < |safe| + 9 {
        assert r[i] == "_summary_"[i - |safe|];
      } else if i < |safe| + 9 + |stamp| {
        assert r[i] == stamp[i - |safe| - 9];
      } else {
        assert r[i] == ".md"[i - |safe| - 9 - |stamp|];
      }
    }
  }

  // ---------------------------------------------------------------------
  // Batches

  function NumBatches(n: nat): nat {
    (n + BatchSize - 1) / BatchSize
  }

  /** `summary_paths[i:i + BATCH_SIZE]` for the `k`-th value of `i`. */
  function BatchAt(paths: seq<string>, k: nat): (b: seq<string>)
    requires k < NumBatches(|paths|)
    ensures 1 <= |b| <= BatchSize
  {
    var lo := k * BatchSize;
    var hi := if lo + BatchSize <= |paths| then lo + BatchSize else |paths|;
    paths[lo..hi]
  }

  function Flatten(bs: seq<seq<string>>): seq<string> {
    if bs == [] then [] else bs[0] + Flatten(bs[1..])
  }

  lemma {:induction false} FlattenSnoc(bs: seq<seq<string>>, b: seq<string>)
    ensures Flatten(bs + [b]) == Flatten(bs) + b
    decreases |bs|
  {
    if bs == [] {
      assert [b][1..] == [];
    } else {
      assert (bs + [b])[1..] == bs[1..] + [b];
      FlattenSnoc(bs[1..], b);
    }
  }

  /** The `for i in range(0, len(summary_paths), BATCH_SIZE)` loop: the staged
      paths split into consecutive slices of five (the last may be shorter),
      ceil(n / 5) of them, which put together give the paths back in order. */
  method PartitionBatches(paths: seq<string>) returns (batches: seq<seq<string>>)
    ensures |batches| == NumBatches(|paths|)
    ensures forall k :: 0 <= k < |batches| ==> batches[k] == BatchAt(paths, k)
    ensures forall k :: 0 <= k < |batches| ==> 1 <= |batches[k]| <= BatchSize
    ensures Flatten(batches) == paths
  {
    batches := [];
    var i := 0;
    while i < |paths|
      invariant i == |batches| * BatchSize || (i == |paths| && |batches| == NumBatches(|paths|))
      invariant i <= |paths|
      invariant |batches| <= NumBatches(|paths|)
      invariant i < |paths| ==> |batches| < NumBatches(|paths|)
      invariant forall k :: 0 <= k < |batches| ==> batches[k] == BatchAt(paths, k)
      invariant Flatten(batches) == paths[..i]
      decreases |paths| - i
    {
      var hi := if i + BatchSize <= |paths| then i + BatchSize else |paths|;
      var batch := paths[i..hi];
      assert batch == BatchAt(paths, |batches|);
      FlattenSnoc(batches, batch);
      assert paths[..i] + batch == paths[..hi];
      batches := batches + [batch];
      i := hi;
    }
    assert paths[..|paths|] == paths;
  }

  // ---------------------------------------------------------------------
  // Reading staged summaries

  /** A staged file `json.loads` accepts as an object. */
  predicate Readable(temp: map<string, StagedFile>, location: string) {
    location in temp && temp[location].Record?
  }

  /** One overview snippet: the shown name and the first 1000 characters of
      the summary (an absent summary reads as ""). */
  function Snippet(location: string, file: StagedFile): string
    requires file.Record?
  {
    Framed(DisplayName(location), file.summary.GetOr(""))
  }

  function Framed(name: string, summary: string): string {
    "**File: " + name + "**\n" + Take(summary, OverviewPrefixLength) + "..."
  }

  /** A snippet is the shown name in bold, then the first 1000 characters
      of the summary (all of it when shorter), then "...". */
  lemma SnippetShape(name: string, summary: string)
    ensures var r := Framed(name, summary);
      var header := "**File: " + name + "**\n";
      var n := |r| - 3 - |header|;
      && 0 <= n
      && r[..|header|] == header
      && r[|header| + n..] == "..."
      && StartsWith(summary, r[|header|..|header| + n])
      && n == if |summary| < OverviewPrefixLength then |summary| else OverviewPrefixLength
  {
    var r := Framed(name, summary);
    var header := "**File: " + name + "**\n";
    var shown := Take(summary, OverviewPrefixLength);
    assert r == header + shown + "...";
    ThreeParts(header, shown, "...");
  }

  /** Slicing a concatenation of three strings at the part boundaries gives
      the parts back. */
  lemma ThreeParts(a: string, b: string, c: string)
    ensures (a + b + c)[..|a|] == a
    ensures (a + b + c)[|a|..|a| + |b|] == b
    ensures (a + b + c)[|a| + |b|..] == c
  {
    var s := a + b + c;
    assert forall i :: 0 <= i < |a| ==> s[i] == a[i];
    assert forall i :: 0 <= i < |b| ==> s[|a| + i] == b[i];
    assert forall i :: 0 <= i < |c| ==> s[|a| + |b| + i] == c[i];
  }

  /** The snippets of the readable files among `locations`, in order; an
      unreadable one is skipped. */
  function Snippets(temp: map<string, StagedFile>, locations: seq<string>): (r: seq<string>)
    ensures |r| <= |locations|
  {
    if locations == [] then []
    else
      var rest := Snippets(temp, locations[1..]);
      if Readable(temp, locations[0]) then [Snippet(locations[0], temp[locations[0]])] + rest else rest
  }

  /** A single file gives its snippet when it is readable, and nothing
      otherwise. */
  lemma SnippetsOne(temp: map<string, StagedFile>, location: string)
    ensures Snippets(temp, [location]) == if Readable(temp, location) then [Snippet(location, temp[location])] else []
  {
    assert [location][1..] == [];
  }

  /** Snippets are made file by file: the snippets of a concatenation are
      the snippets of each half, in order. */
  lemma {:induction false} SnippetsAppend(temp: map<string, StagedFile>, a: seq<string>, b: seq<string>)
    ensures Snippets(temp, a + b) == Snippets(temp, a) + Snippets(temp, b)
    decreases |a|
  {
    if a == [] {
      assert a + b == b;
    } else {
      assert (a + b)[0] == a[0] && (a + b)[1..] == a[1..] + b;
      SnippetsAppend(temp, a[1..], b);
    }
  }

  /** Reading one more file extends the snippets by its own snippet, when
      it is readable. */
  lemma SnippetsStep(temp: map<string, StagedFile>, locations: seq<string>, i: nat)
    requires i < |locations|
    ensures Snippets(temp, locations[..i + 1]) == Snippets(temp, locations[..i])
      + if Readable(temp, locations[i]) then [Snippet(locations[i], temp[locations[i]])] else []
  {
    assert locations[..i + 1] == locations[..i] + [locations[i]];
    SnippetsAppend(temp, locations[..i], [locations[i]]);
    SnippetsOne(temp, locations[i]);
  }

  /** `summary_paths[:3]`. */
  function FirstFiles(paths: seq<string>): (r: seq<string>)
    ensures |r| == if |paths| < OverviewFiles then |paths| else OverviewFiles
    ensures r == paths[..|r|]
    ensures |paths| <= OverviewFiles ==> r == paths
  {
    if |paths| <= OverviewFiles then paths else paths[..OverviewFiles]
  }

  /** The overview's reading loop over `summary_paths[:3]`: the snippets of
      the readable ones among the first three, and how many staged files the
      prompt says are left, which counts every file not turned into a
      snippet. */
  method ReadOverview(temp: map<string, StagedFile>, paths: seq<string>) returns (snippets: seq<string>, remaining: int)
    ensures snippets == Snippets(temp, FirstFiles(paths))
    ensures |snippets| <= OverviewFiles && |snippets| <= |paths|
    ensures remaining == |paths| - |snippets| && remaining >= 0
  {
    var first := FirstFiles(paths);
    snippets := [];
    for i := 0 to |first|
      invariant snippets == Snippets(temp, first[..i])
    {
      SnippetsStep(temp, first, i);
      if Readable(temp, first[i]) {
        snippets := snippets + [Snippet(first[i], temp[first[i]])];
      }
    }
    assert first[..|first|] == first;
    remaining := |paths| - |snippets|;
  }

  /** What `read_batch_files` makes of one staged file. */
  function Section(temp: map<string, StagedFile>, location: string): string {
    if Readable(temp, location) then
      "--- File: " + DisplayName(location) + " ---\n" + temp[location].summary.GetOr(MissingSummary)
    else
      "--- File: " + location + " (Error reading) ---"
  }

  function Sections(temp: map<string, StagedFile>, locations: seq<string>): (r: seq<string>)
  {
    seq(|locations|, i requires 0 <= i < |locations| => Section(temp, locations[i]))
  }

  /** `read_batch_files(paths)`: one section per staged file, full text, in
      the batch's order, an unreadable file marked rather than dropped. */
  method ReadBatch(temp: map<string, StagedFile>, paths: seq<string>) returns (digest: string)
    ensures digest == Join(Sections(temp, paths), "\n\n")
  {
    var sections: seq<string> := [];
    for i := 0 to |paths|
      invariant sections == Sections(temp, paths[..i])
    {
      assert paths[..i + 1] == paths[..i] + [paths[i]];
      sections := sections + [Section(temp, paths[i])];
    }
    assert paths[..|paths|] == paths;
    digest := Join(sections, "\n\n");
  }

  // ---------------------------------------------------------------------
  // The report and the clean-up

  /** The report's opening lines, up to the overview. */
  function ReportHead(projectName: string, generatedOn: string): string {
    "# " + projectName + " - AI Code Analysis\n\n"
    + "**Generated on:** " + generatedOn + "\n\n"
    + "## 1. Project Overview\n\n"
  }

  /** `markdown_content` when the report is written: the opening lines, the
      overview reply and the batch replies in batch order. */
  function ReportContent(projectName: string, generatedOn: string, overview: string, batchTexts: seq<string>): string {
    ReportHead(projectName, generatedOn)
    + (overview + "\n\n## 2. Detailed File Analysis\n\n")
    + Join(batchTexts, BatchSeparator)
  }

  /** The report opens with the project's title, carries the overview right
      after the "Project Overview" heading and before the detailed analysis,
      and ends with the last batch's reply. */
  lemma ReportContentShape(projectName: string, generatedOn: string, overview: string, batchTexts: seq<string>)
    ensures var content := ReportContent(projectName, generatedOn, overview, batchTexts);
      && StartsWith(content, "# " + projectName + " - AI Code Analysis\n\n")
      && OccursAt(content, overview + "\n\n## 2. Detailed File Analysis\n\n", |ReportHead(projectName, generatedOn)|)
      && (batchTexts != [] ==> EndsWith(content, batchTexts[|batchTexts| - 1]))
  {
    var head := ReportHead(projectName, generatedOn);
    var mid := overview + "\n\n## 2. Detailed File Analysis\n\n";
    var body := Join(batchTexts, BatchSeparator);
    var title := "# " + projectName + " - AI Code Analysis\n\n";
    ThreeParts(head, mid, body);
    assert head[..|title|] == title;
    if batchTexts != [] {
      JoinEnds(batchTexts, BatchSeparator);
    }
  }

  /** The staged files the clean-up loop deletes: those listed, present, and
      deletable. */
  function Removed(temp: map<string, StagedFile>, paths: seq<string>, undeletable: set<string>): set<string> {
    set p | p in paths && p in temp && p !in undeletable
  }

  /** The clean-up never counts more deletions than there are staged paths,
      even when a path is listed twice. */
  lemma {:induction false} RemovedBound(temp: map<string, StagedFile>, paths: seq<string>, undeletable: set<string>)
    ensures |Removed(temp, paths, undeletable)| <= |paths|
    decreases |paths|
  {
    if paths != [] {
      RemovedBound(temp, paths[1..], undeletable);
      var r := Removed(temp, paths, undeletable);
      var r' := Removed(temp, paths[1..], undeletable);
      assert r <= r' + {paths[0]} by {
        forall p | p in r ensures p in r' + {paths[0]} {
          if p != paths[0] {
            var j :| 0 <= j < |paths| && paths[j] == p;
            assert paths[1..][j - 1] == p;
          }
        }
      }
      assert |r' + {paths[0]}| <= |r'| + 1;
      assert |r| <= |r' + {paths[0]}| by {
        SubsetCard(r, r' + {paths[0]});
      }
    } else {
      assert Removed(temp, paths, undeletable) == {};
    }
  }

  lemma SubsetCard<T>(a: set<T>, b: set<T>)
    requires a <= b
    ensures |a| <= |b|
  {
    assert b == a + (b - a);
  }

  /** What the project step asked the model about: the overview snippets and
      the remaining-file count, and one digest per batch. */
  datatype Asked = Asked(snippets: seq<string>, remaining: int, digests: seq<string>)

  function Replies(calls: seq<Call>): (r: seq<string>)
  {
    seq(|calls|, i requires 0 <= i < |calls| => Reply(calls[i]))
  }

  /** The batch loop: every batch's digest is read from the staging
      directory, in batch order. */
  method DigestBatches(temp: map<string, StagedFile>, paths: seq<string>) returns (digests: seq<string>)
    ensures |digests| == NumBatches(|paths|)
    ensures forall k :: 0 <= k < |digests| ==>
      digests[k] == Join(Sections(temp, BatchAt(paths, k)), "\n\n")
  {
    var batches := PartitionBatches(paths);
    digests := [];
    for k := 0 to |batches|
      invariant |digests| == k
      invariant forall j :: 0 <= j < k ==> digests[j] == Join(Sections(temp, BatchAt(paths, j)), "\n\n")
    {
      assert batches[k] == BatchAt(paths, k);
      var digest := ReadBatch(temp, batches[k]);
      ghost var before := digests;
      digests := digests + [digest];
      forall j | 0 <= j < k + 1
        ensures digests[j] == Join(Sections(temp, BatchAt(paths, j)), "\n\n")
      {
        if j < k {
          assert digests[j] == before[j];
        }
      }
    }
  }

  /** The clean-up loop: each listed staged file is deleted unless it is
      already gone or cannot be deleted; the count is of deletions that
      succeeded. The reports are left alone. */
  method Cleanup(store: Storage, paths: seq<string>, undeletable: set<string>) returns (count: nat)
    modifies store
    ensures store.temp == old(store.temp) - Removed(old(store.temp), paths, undeletable)
    ensures count == |Removed(old(store.temp), paths, undeletable)|
    ensures store.reports == old(store.reports)
  {
    ghost var staged := store.temp;
    ghost var removed: set<string> := {};
    count := 0;
    for i := 0 to |paths|
      invariant removed == Removed(staged, paths[..i], undeletable)
      invariant store.temp == staged - removed
      invariant count == |removed|
      invariant store.reports == old(store.reports)
    {
      var p := paths[i];
      assert paths[..i + 1] == paths[..i] + [p];
      if p in store.temp && p !in undeletable {
        assert p !in removed;
        store.temp := store.temp - {p};
        count := count + 1;
        removed := removed + {p};
      }
      assert removed == Removed(staged, paths[..i + 1], undeletable);
    }
    assert paths[..|paths|] == paths;
  }

  /** `summarize_project(summary_paths, project_name)` on the staging
      directory held by `store`. The report is written first; only when that
      succeeds are the staged files deleted. */
  method SummarizeProject(
    store: Storage, paths: seq<string>, projectName: string,
    stamp: string, generatedOn: string, modelReady: bool,
    overviewCall: Call, batchCalls: seq<Call>,
    writeError: Option<string>, undeletable: set<string>)
    returns (result: string, cleanupCount: nat, asked: Asked)
    requires |batchCalls| == NumBatches(|paths|)
    modifies store
    ensures !modelReady ==>
      && result == ProjectModelMissing && cleanupCount == 0
      && store.temp == old(store.temp) && store.reports == old(store.reports)
    ensures modelReady ==>
      && asked.snippets == Snippets(old(store.temp), FirstFiles(paths))
      && asked.remaining == |paths| - |asked.snippets|
      && |asked.digests| == |batchCalls|
      && forall k :: 0 <= k < |batchCalls| ==>
           asked.digests[k] == Join(Sections(old(store.temp), BatchAt(paths, k)), "\n\n")
    ensures modelReady && writeError.Some? ==>
      && result == WriteErrorPrefix + writeError.value && cleanupCount == 0
      && store.temp == old(store.temp) && store.reports == old(store.reports)
    ensures modelReady && writeError.None? ==>
      && result == ReportFileName(projectName, stamp)
      && store.reports == old(store.reports)[result :=
           ReportContent(projectName, generatedOn, Reply(overviewCall), Replies(batchCalls))]
      && store.temp == old(store.temp) - Removed(old(store.temp), paths, undeletable)
      && cleanupCount == |Removed(old(store.temp), paths, undeletable)|
    ensures cleanupCount <= |paths|
  {
    if !modelReady {
      return ProjectModelMissing, 0, Asked([], 0, []);
    }
    var name := ReportFileName(projectName, stamp);
    var snippets, remaining := ReadOverview(store.temp, paths);
    var overview := Reply(overviewCall);
    var digests := DigestBatches(store.temp, paths);
    var replies := Replies(batchCalls);
    asked := Asked(snippets, remaining, digests);
    var content := ReportContent(projectName, generatedOn, overview, replies);

    if writeError.Some? {
      return WriteErrorPrefix + writeError.value, 0, asked;
    }
    ghost var staged := store.temp;
    store.reports := store.reports[name := content];
    cleanupCount := Cleanup(store, paths, undeletable);
    RemovedBound(staged, paths, undeletable);
    result := name;
  }
}
