/** The staging directory `temp_summaries` of utils/summarizer.py and the
    per-file step `summarize_file` that fills it.

    The file system is a `Storage` object: `temp` holds the files under
    `temp_summaries/`, keyed by their location, and `reports` the report files
    written to the working directory. A staged file is whatever `json.loads`
    makes of it: a record whose `sha` and `summary` keys may be missing, or
    something unreadable. */
module Staging {
  import opened Wrappers
  import opened Text
  import Retry

  const TempSummaryDir := "temp_summaries"
  const ChunkSeparator := "\n\n---\n\n"
  const FileModelMissing := "[ERROR] Gemini file model not initialized."

  datatype StagedFile = Record(sha: Option<string>, summary: Option<string>) | Unreadable

  /** The primary model's scripted outcomes for one chunk and what the
      fallback provider would do for it. */
  datatype ChunkCall = ChunkCall(outcomes: seq<Retry.Outcome>, fallback: Retry.FallbackClient)

  /** Every chunk script covers the default number of attempts. */
  predicate Scripted(chunks: seq<ChunkCall>) {
    forall i :: 0 <= i < |chunks| ==> Retry.MaxRetries <= |chunks[i].outcomes|
  }

  /** `path.replace('/', '_').replace('\\', '_')`: a file name with no path
      separator, otherwise the path character by character. */
  function SafeFileName(path: string): (r: string)
    ensures |r| == |path|
    ensures forall i :: 0 <= i < |r| ==> r[i] != '/' && r[i] != '\\'
    ensures forall i :: 0 <= i < |r| ==>
      if path[i] == '/' || path[i] == '\\' then r[i] == '_' else r[i] == path[i]
  {
    ReplaceChar(ReplaceChar(path, '/', '_'), '\\', '_')
  }

  /** `os.path.join(TEMP_SUMMARY_DIR, f"{safe_filename}.json")` on POSIX. */
  function Location(path: string): string {
    TempSummaryDir + "/" + SafeFileName(path) + ".json"
  }

  /** `os.path.basename`: what follows the last '/'. */
  function Basename(s: string): (r: string)
    ensures '/' !in r
    ensures EndsWith(s, r)
    ensures |r| == |s| || s[|s| - |r| - 1] == '/'
    decreases |s|
  {
    if '/' !in s then s
    else
      var t := s[1..];
      var r := Basename(t);
      if |r| == |t| then
        assert r == t && s[0] == '/' by {
          assert EndsWith(t, r);
          assert forall i :: 0 < i < |s| ==> s[i] == t[i - 1];
        }
        r
      else
        assert s[|s| - |r| - 1] == t[|t| - |r| - 1];
        r
  }

  lemma {:induction false} BasenameAfterSlash(dir: string, name: string)
    requires '/' !in name
    ensures Basename(dir + "/" + name) == name
    decreases |dir|
  {
    var s := dir + "/" + name;
    assert s[|dir|] == '/';
    if dir == [] {
      assert s[1..] == name;
    } else {
      assert s[1..] == dir[1..] + "/" + name;
      BasenameAfterSlash(dir[1..], name);
    }
  }

  /** Every staging location lies directly in the staging directory, and its
      file name is the safe name with ".json" appended. */
  lemma LocationShape(path: string)
    ensures StartsWith(Location(path), TempSummaryDir + "/")
    ensures EndsWith(Location(path), ".json")
    ensures Basename(Location(path)) == SafeFileName(path) + ".json"
  {
    var name := SafeFileName(path) + ".json";
    assert Location(path) == TempSummaryDir + "/" + name;
    assert forall i :: 0 <= i < |name| ==> name[i] != '/';
    BasenameAfterSlash(TempSummaryDir, name);
  }

  /** Two different repository paths can share one staging location: the
      separator and '_' are not told apart. */
  lemma LocationCollision()
    ensures "a/b" != "a_b" && Location("a/b") == Location("a_b")
  {
    assert SafeFileName("a/b") == "a_b" == SafeFileName("a_b");
  }

  /** On paths that use neither '_' nor '\\' the staging location determines
      the path. */
  lemma LocationInjective(p: string, q: string)
    requires '_' !in p && '\\' !in p && '_' !in q && '\\' !in q
    requires Location(p) == Location(q)
    ensures p == q
  {
    var n := |TempSummaryDir + "/"|;
    assert |p| == |q| by {
      assert |Location(p)| == n + |p| + 5;
    }
    forall i | 0 <= i < |p| ensures p[i] == q[i] {
      assert Location(p)[n + i] == SafeFileName(p)[i];
      assert Location(q)[n + i] == SafeFileName(q)[i];
      assert p[i] != '_' && q[i] != '_';
    }
  }

  /** `os.path.basename(path).replace('_', '/').replace('.json', '')`: the
      name under which a staged summary is shown in the project prompts. */
  function DisplayName(location: string): string {
    ReplaceAll(ReplaceChar(Basename(location), '_', '/'), ".json", "")
  }

  /** Removing ".json" from `p + ".json" + rest` keeps `p` when `p` has no
      ".json" of its own: no occurrence can straddle the end of `p`, since
      '.' occurs in ".json" only at its start. */
  lemma {:induction false} DropJsonAfter(p: string, rest: string)
    requires !Contains(p, ".json")
    ensures ReplaceAll(p + ".json" + rest, ".json", "") == p + ReplaceAll(rest, ".json", "")
    decreases |p|
  {
    var s := p + ".json" + rest;
    if p == [] {
      assert s[..5] == ".json";
      assert s[5..] == rest;
    } else {
      assert s[..5] != ".json" by {
        if 5 <= |p| {
          assert s[..5] == p[0..5];
          assert !OccursAt(p, ".json", 0);
        } else {
          var l := |p|;
          assert s[..5][l] == s[l] == '.';
          assert ".json"[l] != '.';
        }
      }
      assert s[1..] == p[1..] + ".json" + rest;
      assert !Contains(p[1..], ".json") by {
        forall i: nat ensures !OccursAt(p[1..], ".json", i) {
          assert !OccursAt(p, ".json", i + 1);
          OccursAtTail(p, ".json", i);
        }
      }
      DropJsonAfter(p[1..], rest);
      assert ReplaceAll(s, ".json", "") == [s[0]] + ReplaceAll(s[1..], ".json", "");
      assert [s[0]] + p[1..] == p;
    }
  }

  lemma ShownBasename(p: string)
    requires '\\' !in p
    ensures ReplaceChar(Basename(Location(p)), '_', '/') == ReplaceChar(p, '_', '/') + ".json"
  {
    var safe := SafeFileName(p);
    var shown := ReplaceChar(p, '_', '/');
    assert Basename(Location(p)) == safe + ".json" by {
      LocationShape(p);
    }
    assert ReplaceChar(safe, '_', '/') == shown by {
      forall i | 0 <= i < |p| ensures ReplaceChar(safe, '_', '/')[i] == shown[i] {
        assert p[i] != '\\';
      }
    }
    assert ReplaceChar(safe + ".json", '_', '/') == shown + ".json" by {
      ReplaceCharAppend(safe, ".json", '_', '/');
      assert ReplaceChar(".json", '_', '/') == ".json";
    }
  }

  /** The name shown for a staged summary is the repository path with every
      '_' read as a directory separator, for a path without '\\' in which no
      ".json" appears: "my_app.py" is shown as "my/app.py". */
  lemma ShownName(p: string)
    requires '\\' !in p && !Contains(ReplaceChar(p, '_', '/'), ".json")
    ensures DisplayName(Location(p)) == ReplaceChar(p, '_', '/')
  {
    ShownBasename(p);
    var shown := ReplaceChar(p, '_', '/');
    DropJsonAfter(shown, []);
    assert shown + ".json" + [] == shown + ".json";
  }

  /** Hence the shown name is the path itself when the path has no '_', no
      '\\' and no ".json". */
  lemma DisplayNameRoundTrip(p: string)
    requires '_' !in p && '\\' !in p && !Contains(p, ".json")
    ensures DisplayName(Location(p)) == p
  {
    assert ReplaceChar(p, '_', '/') == p;
    ShownName(p);
  }

  /** A path q + ".json", where q has no '_', no '\\' and no ".json", is
      shown as q: "package.json" is shown as "package". */
  lemma ShownNameOfJsonFile(q: string)
    requires '_' !in q && '\\' !in q && !Contains(q, ".json")
    ensures DisplayName(Location(q + ".json")) == q
  {
    var p := q + ".json";
    assert ReplaceChar(p, '_', '/') == p by {
      ReplaceCharAppend(q, ".json", '_', '/');
      assert ReplaceChar(q, '_', '/') == q;
      assert ReplaceChar(".json", '_', '/') == ".json";
    }
    var shown := ReplaceChar(Basename(Location(p)), '_', '/');
    assert shown == q + ".json" + ".json" by {
      assert '\\' !in p;
      ShownBasename(p);
    }
    assert ReplaceAll(shown, ".json", "") == q by {
      DropJsonAfter(q, ".json");
      assert ReplaceAll(".json", ".json", "") == [];
    }
  }

  /** A staged summary can be reused for `sha`. */
  predicate CacheHit(temp: map<string, StagedFile>, path: string, sha: string) {
    var loc := Location(path);
    loc in temp && temp[loc].Record? && temp[loc].sha == Some(sha)
  }

  function Texts(runs: seq<Retry.ChunkRun>): (ts: seq<string>)
  {
    seq(|runs|, i requires 0 <= i < |runs| => runs[i].text)
  }

  /** The chunk loop of `summarize_file` and the `asyncio.gather` over it:
      every chunk runs the retry ladder with the default policy, and the
      results stay in chunk order. */
  method SummarizeChunks(chunks: seq<ChunkCall>) returns (runs: seq<Retry.ChunkRun>)
    requires Scripted(chunks)
    ensures |runs| == |chunks|
    ensures forall i :: 0 <= i < |chunks| ==>
      runs[i] == Retry.Ladder(chunks[i].outcomes, Retry.MaxRetries, chunks[i].fallback, 0, Retry.InitialDelay)
  {
    runs := [];
    var i := 0;
    while i < |chunks|
      invariant 0 <= i <= |chunks| && |runs| == i
      invariant forall j :: 0 <= j < i ==>
        runs[j] == Retry.Ladder(chunks[j].outcomes, Retry.MaxRetries, chunks[j].fallback, 0, Retry.InitialDelay)
    {
      var run := Retry.SummarizeChunk(chunks[i].outcomes, Retry.MaxRetries, Retry.InitialDelay, chunks[i].fallback);
      runs := runs + [run];
      i := i + 1;
    }
  }

  class Storage {
    var temp: map<string, StagedFile>
    var reports: map<string, string>

    constructor (staged: map<string, StagedFile>, written: map<string, string>)
      ensures temp == staged && reports == written
    {
      temp := staged;
      reports := written;
    }

    /** `summarize_file(path, content, sha)`, with `content` already split
        into `chunks`. On a cache hit no model is called and nothing changes;
        otherwise every chunk runs the retry ladder, in chunk order, and the
        record {sha, joined chunk texts} overwrites the staging location,
        unless the write fails, in which case the result is None. */
    method SummarizeFile(path: string, sha: string, modelReady: bool, chunks: seq<ChunkCall>, writeFails: bool)
      returns (result: Option<string>, runs: seq<Retry.ChunkRun>)
      requires Scripted(chunks)
      modifies this
      ensures reports == old(reports)
      ensures !modelReady ==> result == Some(FileModelMissing) && runs == [] && temp == old(temp)
      ensures modelReady && CacheHit(old(temp), path, sha) ==>
        result == Some(Location(path)) && runs == [] && temp == old(temp)
      ensures modelReady && !CacheHit(old(temp), path, sha) ==>
        && |runs| == |chunks|
        && (forall i :: 0 <= i < |chunks| ==>
              runs[i] == Retry.Ladder(chunks[i].outcomes, Retry.MaxRetries, chunks[i].fallback, 0, Retry.InitialDelay))
        && (writeFails ==> result == None && temp == old(temp))
        && (!writeFails ==>
              && result == Some(Location(path))
              && temp == old(temp)[Location(path) := Record(Some(sha), Some(Join(Texts(runs), ChunkSeparator)))])
      ensures modelReady && result.Some? ==> CacheHit(temp, path, sha)
    {
      runs := [];
      if !modelReady {
        return Some(FileModelMissing), runs;
      }
      var loc := Location(path);
      if loc in temp && temp[loc].Record? && temp[loc].sha == Some(sha) {
        return Some(loc), runs;
      }
      runs := SummarizeChunks(chunks);
      var summary := Join(Texts(runs), ChunkSeparator);
      if writeFails {
        return None, runs;
      }
      temp := temp[loc := Record(Some(sha), Some(summary))];
      result := Some(loc);
    }
  }
}
