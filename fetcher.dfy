/** utils/github_fetcher.py: the recursive walk over the GitHub contents API.

    The API is an in-memory tree. Each directory request has an outcome, a
    `Listing`: the request failed (an HTTP status error or any other
    exception), the answer is a single file object, a list of items, or some
    other JSON value. Each download has an outcome too: a body, or a failure
    (`fetch_file` returns None). The result of a walk is a Python dict from
    path to {sha, content}, kept in insertion order. */
module Fetcher {
  import opened Wrappers
  import opened Text
  import opened Dicts

  /** What `fetch_file` returns for one download URL. */
  datatype Download = Body(text: string) | FetchFailed

  datatype Listing =
    | ListFailed
    | FileObject(path: string, sha: Option<string>, url: Option<string>, download: Download)
    | Directory(items: seq<Item>)
    | Unexpected

  /** One element of a directory listing, by its "type" field. */
  datatype Item =
    | FileItem(name: string, path: string, sha: Option<string>, url: Option<string>, download: Download)
    | DirItem(path: string, listing: Listing)
    | OtherItem

  datatype FileData = FileData(sha: Option<string>, content: string)

  /** An entry of `file_fetch_info`: a file queued for download. */
  datatype FileInfo = FileInfo(path: string, sha: Option<string>, url: string, download: Download)

  /** The suffixes of files that are never downloaded. */
  const DenyList: seq<string> := [
    ".png", ".jpg", ".jpeg", ".gif", ".ico", ".exe", ".dll", ".zip", ".tar",
    ".gz", ".woff", ".woff2", ".ttf", ".eot", ".pdf", ".doc", ".docx",
    ".xls", ".xlsx", ".ppt", ".pptx", ".DS_Store", ".lock", ".log"]

  /** `item["name"].lower().endswith(deny_list)`. */
  predicate Denied(name: string) {
    exists i :: 0 <= i < |DenyList| && EndsWith(Lower(name), DenyList[i])
  }

  /** `data.get("download_url")` is truthy. */
  predicate HasUrl(url: Option<string>) {
    url.Some? && url.value != ""
  }

  /** `if content:` — a download that succeeded with a non-empty body. */
  predicate Delivered(d: Download) {
    d.Body? && d.text != ""
  }

  /** A file entry of a listing that is queued for download. */
  predicate Admissible(it: Item) {
    it.FileItem? && !Denied(it.name) && HasUrl(it.url)
  }

  // ---------------------------------------------------------------------
  // The deny list

  lemma LowerIdempotent(s: string)
    ensures Lower(Lower(s)) == Lower(s)
  {
    var l := Lower(s);
    forall i | 0 <= i < |s| ensures Lower(l)[i] == l[i] {
      assert l[i] == LowerChar(s[i]);
    }
  }

  /** The deny check ignores case: a name is denied exactly when its
      lower-cased form is. */
  lemma DeniedIgnoresCase(name: string)
    ensures Denied(name) <==> Denied(Lower(name))
  {
    LowerIdempotent(name);
  }

  /** The name is lower-cased before the comparison, so the mixed-case
      ".DS_Store" entry of the deny list can never match: a name is denied
      exactly when it ends with one of the other entries. */
  lemma DSStoreNeverMatches(name: string)
    ensures Denied(name) <==>
      exists i :: 0 <= i < |DenyList| && DenyList[i] != ".DS_Store" && EndsWith(Lower(name), DenyList[i])
  {
    forall i | 0 <= i < |DenyList| && DenyList[i] == ".DS_Store"
      ensures !EndsWith(Lower(name), DenyList[i])
    {
      assert IsUpper(DenyList[i][1]);
      LowerNeverEndsWithUpper(name, DenyList[i], 1);
    }
  }

  // ---------------------------------------------------------------------
  // The specification of a walk

  function InfoOf(it: Item): FileInfo
    requires Admissible(it)
  {
    FileInfo(it.path, it.sha, it.url.value, it.download)
  }

  /** `file_fetch_info` after the classification loop. */
  function Queued(items: seq<Item>): seq<FileInfo>
    decreases |items|
  {
    if items == [] then []
    else
      var last := items[|items| - 1];
      Queued(items[..|items| - 1]) + if Admissible(last) then [InfoOf(last)] else []
  }

  /** `files` after the file results are stored, the i-th result under the
      i-th queued path. */
  function FileMap(infos: seq<FileInfo>): Dict<FileData>
    decreases |infos|
  {
    if infos == [] then []
    else
      var m := FileMap(infos[..|infos| - 1]);
      var x := infos[|infos| - 1];
      if Delivered(x.download) then Put(m, x.path, FileData(x.sha, x.download.text)) else m
  }

  /** What `fetch_dir` returns for a request whose outcome is `l`. */
  function Fetched(l: Listing): Dict<FileData>
    decreases l
  {
    match l
    case ListFailed => []
    case Unexpected => []
    case FileObject(path, sha, url, download) =>
      if HasUrl(url) && Delivered(download) then [Entry(path, FileData(sha, download.text))] else []
    case Directory(items) => MergeDirs(FileMap(Queued(items)), items)
  }

  /** `files.update(res)` for the subdirectories among `items`, in listing
      order. */
  function MergeDirs(acc: Dict<FileData>, items: seq<Item>): Dict<FileData>
    decreases items
  {
    if items == [] then acc
    else
      var m := MergeDirs(acc, items[..|items| - 1]);
      var last := items[|items| - 1];
      if last.DirItem? then Update(m, Fetched(last.listing)) else m
  }

  function Urls(infos: seq<FileInfo>): (r: seq<string>)
  {
    seq(|infos|, j requires 0 <= j < |infos| => infos[j].url)
  }

  /** The URLs `fetch_file` is called with during a walk. */
  function Downloads(l: Listing): seq<string>
    decreases l
  {
    match l
    case FileObject(_, _, url, _) => if HasUrl(url) then [url.value] else []
    case Directory(items) => Urls(Queued(items)) + SubDownloads(items)
    case _ => []
  }

  function SubDownloads(items: seq<Item>): seq<string>
    decreases items
  {
    if items == [] then []
    else
      var last := items[|items| - 1];
      SubDownloads(items[..|items| - 1]) + if last.DirItem? then Downloads(last.listing) else []
  }

  // ---------------------------------------------------------------------
  // The walk

  /** `fetch_dir(client, owner, repo, path)` for a request whose outcome is
      `l`: the files found and the URLs downloaded. */
  method FetchDir(l: Listing) returns (files: Dict<FileData>, downloads: seq<string>)
    ensures files == Fetched(l)
    ensures downloads == Downloads(l)
    decreases l
  {
    match l {
      case ListFailed =>
        return [], [];
      case Unexpected =>
        return [], [];
      case FileObject(path, sha, url, download) =>
        if !HasUrl(url) {
          return [], [];
        }
        downloads := [url.value];
        files := [];
        if Delivered(download) {
          files := Put(files, path, FileData(sha, download.text));
        }
      case Directory(items) =>
        var infos := QueueFiles(items);
        files, downloads := StoreFiles(infos);
        files, downloads := MergeSubdirs(files, downloads, items);
    }
  }

  /** The loop over the download results: the i-th result is stored under
      the i-th queued path when it is a non-empty body. */
  method StoreFiles(infos: seq<FileInfo>) returns (files: Dict<FileData>, downloads: seq<string>)
    ensures files == FileMap(infos)
    ensures downloads == Urls(infos)
  {
    files := [];
    downloads := [];
    for j := 0 to |infos|
      invariant files == FileMap(infos[..j])
      invariant downloads == Urls(infos[..j])
    {
      assert infos[..j + 1][..j] == infos[..j];
      if Delivered(infos[j].download) {
        files := Put(files, infos[j].path, FileData(infos[j].sha, infos[j].download.text));
      }
      downloads := downloads + [infos[j].url];
    }
    assert infos[..|infos|] == infos;
  }

  /** The loop over the subdirectory results: each subdirectory is walked
      and its files merged into `files`, in listing order. */
  method MergeSubdirs(acc: Dict<FileData>, accDownloads: seq<string>, items: seq<Item>)
    returns (files: Dict<FileData>, downloads: seq<string>)
    ensures files == MergeDirs(acc, items)
    ensures downloads == accDownloads + SubDownloads(items)
    decreases items
  {
    files := acc;
    downloads := accDownloads;
    for i := 0 to |items|
      invariant files == MergeDirs(acc, items[..i])
      invariant downloads == accDownloads + SubDownloads(items[..i])
    {
      assert items[..i + 1][..i] == items[..i];
      if items[i].DirItem? {
        var sub, subDownloads := FetchDir(items[i].listing);
        files := Update(files, sub);
        downloads := downloads + subDownloads;
      }
    }
    assert items[..|items|] == items;
  }

  /** The classification loop over a listing: denied files, files without a
      download URL, and items that are neither files nor directories are
      skipped; the rest of the files are queued in listing order. */
  method QueueFiles(items: seq<Item>) returns (infos: seq<FileInfo>)
    ensures infos == Queued(items)
  {
    infos := [];
    for i := 0 to |items|
      invariant infos == Queued(items[..i])
    {
      assert items[..i + 1][..i] == items[..i];
      match items[i] {
        case FileItem(name, path, sha, url, download) =>
          if !Denied(name) && HasUrl(url) {
            infos := infos + [FileInfo(path, sha, url.value, download)];
          }
        case DirItem(_, _) =>
        case OtherItem =>
      }
    }
    assert items[..|items|] == items;
  }

  /** `fetch_files(owner, repo)`: the walk from the repository root, or the
      exception the runner raised, passed on. The comprehension that drops
      entries whose content is None keeps every entry of the model, since
      only non-empty downloaded bodies are ever stored. */
  function FetchFiles(root: Listing, crash: Option<string>): (r: Result<Dict<FileData>, string>)
    ensures crash.Some? <==> r.Failure?
    ensures crash.Some? ==> r.error == crash.value
  {
    if crash.Some? then Failure(crash.value) else Success(Fetched(root))
  }

  /** What a successful `fetch_files` returns: unique paths, exactly the
      paths the tree supplies (a delivered directory file that passes the
      deny list, or the single file object the API answered with), and
      never an empty content. */
  lemma FetchFilesSpec(root: Listing, crash: Option<string>)
    requires crash.None?
    ensures UniqueKeys(FetchFiles(root, crash).value)
    ensures forall k :: HasKey(FetchFiles(root, crash).value, k) <==> Provides(root, k)
    ensures forall k :: HasKey(FetchFiles(root, crash).value, k) ==>
      Get(FetchFiles(root, crash).value, k).value.content != ""
  {
    FetchedSpec(root);
    var files := Fetched(root);
    assert FetchFiles(root, crash).value == files;
    forall k ensures HasKey(files, k) <==> Provides(root, k) {
      if HasKey(files, k) {
        assert Supplies(root, k, Get(files, k).value);
      }
    }
    forall k | HasKey(files, k) ensures Get(files, k).value.content != "" {
      SuppliedNonEmpty(root, k, Get(files, k).value);
    }
  }


  // ---------------------------------------------------------------------
  // What a walk finds

  /** A file of the listing `it` that a walk would store under `k` with
      data `d`. */
  predicate FileSupplies(it: Item, k: string, d: FileData) {
    Admissible(it) && Delivered(it.download) && k == it.path && d == FileData(it.sha, it.download.text)
  }

  /** Somewhere in the tree answered by `l` there is a file with a download
      URL that downloads to a non-empty body, with path `k` and data `d`: a
      directory entry that passes the deny list, or the single file object
      the API answered with (which the deny list never sees). */
  ghost predicate Supplies(l: Listing, k: string, d: FileData)
    decreases l
  {
    match l
    case FileObject(path, sha, url, download) =>
      HasUrl(url) && Delivered(download) && k == path && d == FileData(sha, download.text)
    case Directory(items) => exists i :: 0 <= i < |items| && ItemSupplies(items[i], k, d)
    case _ => false
  }

  /** Some file of the tree is stored under `k`. */
  ghost predicate Provides(l: Listing, k: string) {
    exists d :: Supplies(l, k, d)
  }

  ghost predicate ItemSupplies(it: Item, k: string, d: FileData)
    decreases it
  {
    match it
    case FileItem(_, _, _, _, _) => FileSupplies(it, k, d)
    case DirItem(_, sub) => Supplies(sub, k, d)
    case OtherItem => false
  }

  /** `m` holds exactly the files the entries `items` supply: unique keys,
      each value supplied by one of the entries, every supplied path a key. */
  ghost predicate ListedFiles(items: seq<Item>, m: Dict<FileData>) {
    && UniqueKeys(m)
    && (forall k :: HasKey(m, k) ==>
          exists i :: 0 <= i < |items| && FileSupplies(items[i], k, Get(m, k).value))
    && (forall i, k, d :: 0 <= i < |items| && FileSupplies(items[i], k, d) ==> HasKey(m, k))
  }

  /** The files of one listing, before the subdirectories are merged. */
  lemma {:induction false} DirFiles(items: seq<Item>)
    ensures ListedFiles(items, FileMap(Queued(items)))
    decreases |items|
  {
    if items != [] {
      var p := items[..|items| - 1];
      var x := items[|items| - 1];
      DirFiles(p);
      DirFilesStep(items);
      if Admissible(x) && Delivered(x.download) {
        DirFilesPut(items, FileMap(Queued(p)), FileData(x.sha, x.download.text));
      } else {
        DirFilesSkip(items, FileMap(Queued(p)));
      }
    }
  }

  /** The files of a listing grow by the last entry's file when it is
      queued and delivers a body. */
  lemma DirFilesStep(items: seq<Item>)
    requires items != []
    ensures var p := items[..|items| - 1];
      var x := items[|items| - 1];
      FileMap(Queued(items)) ==
        if Admissible(x) && Delivered(x.download)
        then Put(FileMap(Queued(p)), x.path, FileData(x.sha, x.download.text))
        else FileMap(Queued(p))
  {
    var p := items[..|items| - 1];
    var x := items[|items| - 1];
    var q := Queued(p);
    if Admissible(x) {
      var info := InfoOf(x);
      assert Queued(items) == q + [info];
      assert (q + [info])[..|q|] == q;
    } else {
      assert Queued(items) == q;
    }
  }

  /** An entry that supplies nothing leaves the files as they were. */
  lemma DirFilesSkip(items: seq<Item>, m: Dict<FileData>)
    requires items != [] && ListedFiles(items[..|items| - 1], m)
    requires !(Admissible(items[|items| - 1]) && Delivered(items[|items| - 1].download))
    ensures ListedFiles(items, m)
  {
    var p := items[..|items| - 1];
    assert forall i :: 0 <= i < |p| ==> p[i] == items[i];
    forall k | HasKey(m, k)
      ensures exists i :: 0 <= i < |items| && FileSupplies(items[i], k, Get(m, k).value)
    {
      var i :| 0 <= i < |p| && FileSupplies(p[i], k, Get(m, k).value);
      assert FileSupplies(items[i], k, Get(m, k).value);
    }
    forall i, k, d | 0 <= i < |items| && FileSupplies(items[i], k, d)
      ensures HasKey(m, k)
    {
      assert i < |p|;
      assert FileSupplies(p[i], k, d);
    }
  }

  /** The last entry's file is added under its path. */
  lemma DirFilesPut(items: seq<Item>, m: Dict<FileData>, data: FileData)
    requires items != [] && items[|items| - 1].FileItem? && ListedFiles(items[..|items| - 1], m)
    requires FileSupplies(items[|items| - 1], items[|items| - 1].path, data)
    ensures ListedFiles(items, Put(m, items[|items| - 1].path, data))
  {
    var p := items[..|items| - 1];
    var x := items[|items| - 1];
    var m' := Put(m, x.path, data);
    assert forall i :: 0 <= i < |p| ==> p[i] == items[i];
    assert UniqueKeys(m') by {
      PutUnique(m, x.path, data);
    }
    assert forall k :: HasKey(m', k) <==> HasKey(m, k) || k == x.path by {
      PutKeys(m, x.path, data);
    }
    forall k | HasKey(m', k)
      ensures exists i :: 0 <= i < |items| && FileSupplies(items[i], k, Get(m', k).value)
    {
      PutGet(m, x.path, data, k);
      if k == x.path {
        assert FileSupplies(items[|items| - 1], k, data);
      } else {
        assert HasKey(m, k);
        var i :| 0 <= i < |p| && FileSupplies(p[i], k, Get(m, k).value);
        assert FileSupplies(items[i], k, Get(m, k).value);
      }
    }
    forall i, k, d | 0 <= i < |items| && FileSupplies(items[i], k, d)
      ensures HasKey(m', k)
    {
      if i < |p| {
        assert FileSupplies(p[i], k, d);
      }
    }
  }

  /** Merging the subdirectories keeps the keys already there and adds the
      keys of every subdirectory's walk; each value comes either from what
      was there or from a subdirectory. */
  lemma {:induction false} MergeSpec(acc: Dict<FileData>, items: seq<Item>)
    requires UniqueKeys(acc)
    ensures UniqueKeys(MergeDirs(acc, items))
    ensures forall k :: HasKey(MergeDirs(acc, items), k) ==>
      Get(MergeDirs(acc, items), k) == Get(acc, k)
      || exists i :: 0 <= i < |items| && items[i].DirItem? && Supplies(items[i].listing, k, Get(MergeDirs(acc, items), k).value)
    ensures forall k :: HasKey(acc, k) ==> HasKey(MergeDirs(acc, items), k)
    ensures forall i, k, d :: 0 <= i < |items| && items[i].DirItem? && Supplies(items[i].listing, k, d) ==>
      HasKey(MergeDirs(acc, items), k)
    decreases items
  {
    if items != [] {
      var p := items[..|items| - 1];
      var x := items[|items| - 1];
      MergeSpec(acc, p);
      var m := MergeDirs(acc, p);
      assert forall i :: 0 <= i < |p| ==> p[i] == items[i];
      if x.DirItem? {
        var sub := Fetched(x.listing);
        FetchedSpec(x.listing);
        UpdateSpec(m, sub);
        var r := Update(m, sub);
        assert MergeDirs(acc, items) == r;
        forall k | HasKey(r, k)
          ensures Get(r, k) == Get(acc, k)
            || exists i :: 0 <= i < |items| && items[i].DirItem? && Supplies(items[i].listing, k, Get(r, k).value)
        {
          if HasKey(sub, k) {
            assert Supplies(items[|items| - 1].listing, k, Get(r, k).value);
          } else if Get(m, k) != Get(acc, k) {
            var i :| 0 <= i < |p| && p[i].DirItem? && Supplies(p[i].listing, k, Get(m, k).value);
            assert items[i] == p[i];
          }
        }
        forall i, k, d | 0 <= i < |items| && items[i].DirItem? && Supplies(items[i].listing, k, d)
          ensures HasKey(r, k)
        {
          if i < |p| {
            assert p[i] == items[i];
          }
        }
      } else {
        assert MergeDirs(acc, items) == m;
        forall i, k, d | 0 <= i < |items| && items[i].DirItem? && Supplies(items[i].listing, k, d)
          ensures HasKey(m, k)
        {
          assert i < |p| && p[i] == items[i];
        }
      }
    }
  }

  /** The walk's result is a dict (no path twice); it holds exactly the
      paths of the files the tree supplies; and every stored value is the
      sha and body of a supplied file with that path. */
  lemma {:induction false} FetchedSpec(l: Listing)
    ensures UniqueKeys(Fetched(l))
    ensures forall k :: HasKey(Fetched(l), k) ==> Supplies(l, k, Get(Fetched(l), k).value)
    ensures forall k, d :: Supplies(l, k, d) ==> HasKey(Fetched(l), k)
    decreases l
  {
    match l
    case ListFailed =>
    case Unexpected =>
    case FileObject(path, sha, url, download) =>
      if HasUrl(url) && Delivered(download) {
        assert Keys(Fetched(l)) == [path];
      }
    case Directory(items) =>
      var files := FileMap(Queued(items));
      DirFiles(items);
      MergeSpec(files, items);
      var r := Fetched(l);
      assert r == MergeDirs(files, items);
      forall k | HasKey(r, k) ensures Supplies(l, k, Get(r, k).value) {
        if Get(r, k) == Get(files, k) {
          var i :| 0 <= i < |items| && FileSupplies(items[i], k, Get(files, k).value);
          assert ItemSupplies(items[i], k, Get(r, k).value);
        } else {
          var i :| 0 <= i < |items| && items[i].DirItem? && Supplies(items[i].listing, k, Get(r, k).value);
          assert ItemSupplies(items[i], k, Get(r, k).value);
        }
      }
      forall k, d | Supplies(l, k, d) ensures HasKey(r, k) {
        var i :| 0 <= i < |items| && ItemSupplies(items[i], k, d);
        if items[i].FileItem? {
          assert FileSupplies(items[i], k, d);
          assert HasKey(files, k);
        } else {
          assert items[i].DirItem? && Supplies(items[i].listing, k, d);
        }
      }
  }

  /** A walk only downloads URLs the tree offers: those of directory
      entries that pass the deny list, or of the single file the API
      answered with. */
  lemma {:induction false} DownloadsAllowed(l: Listing)
    ensures forall u :: u in Downloads(l) ==> Offers(l, u)
    decreases l
  {
    match l
    case ListFailed =>
    case Unexpected =>
    case FileObject(_, _, _, _) =>
    case Directory(items) =>
      QueuedAllowed(items);
      SubDownloadsAllowed(items);
      forall u | u in Downloads(l) ensures Offers(l, u) {
        if u in Urls(Queued(items)) {
          var j :| 0 <= j < |Queued(items)| && Urls(Queued(items))[j] == u;
          assert QueuedFrom(items, Queued(items)[j]);
          var i :| 0 <= i < |items| && Admissible(items[i]) && Queued(items)[j] == InfoOf(items[i]);
          assert ItemOffers(items[i], u);
        } else {
          assert u in SubDownloads(items);
          var i :| 0 <= i < |items| && items[i].DirItem? && Offers(items[i].listing, u);
          assert ItemOffers(items[i], u);
        }
      }
  }

  /** `info` was queued for an admissible file of `items`. */
  ghost predicate QueuedFrom(items: seq<Item>, info: FileInfo) {
    exists i :: 0 <= i < |items| && Admissible(items[i]) && info == InfoOf(items[i])
  }

  lemma {:induction false} QueuedAllowed(items: seq<Item>)
    ensures forall j :: 0 <= j < |Queued(items)| ==> QueuedFrom(items, Queued(items)[j])
    decreases |items|
  {
    if items != [] {
      var p := items[..|items| - 1];
      var x := items[|items| - 1];
      QueuedAllowed(p);
      var q := Queued(p);
      var r := Queued(items);
      assert r == q + if Admissible(x) then [InfoOf(x)] else [];
      forall j | 0 <= j < |r| ensures QueuedFrom(items, r[j]) {
        if j < |q| {
          assert QueuedFrom(p, q[j]);
          var i :| 0 <= i < |p| && Admissible(p[i]) && q[j] == InfoOf(p[i]);
          assert p[i] == items[i] && r[j] == q[j];
        } else {
          assert r[j] == InfoOf(items[|items| - 1]);
        }
      }
    }
  }

  /** Whatever a tree supplies was downloaded with a non-empty body. */
  lemma {:induction false} SuppliedNonEmpty(l: Listing, k: string, d: FileData)
    requires Supplies(l, k, d)
    ensures d.content != ""
    decreases l
  {
    match l
    case FileObject(_, _, _, _) =>
    case Directory(items) =>
      var i :| 0 <= i < |items| && ItemSupplies(items[i], k, d);
      if items[i].DirItem? {
        SuppliedNonEmpty(items[i].listing, k, d);
      }
  }

  lemma {:induction false} SubDownloadsAllowed(items: seq<Item>)
    ensures forall u :: u in SubDownloads(items) ==>
      exists i :: 0 <= i < |items| && items[i].DirItem? && Offers(items[i].listing, u)
    decreases items
  {
    if items != [] {
      var p := items[..|items| - 1];
      var x := items[|items| - 1];
      SubDownloadsAllowed(p);
      assert forall i :: 0 <= i < |p| ==> p[i] == items[i];
      if x.DirItem? {
        DownloadsAllowed(x.listing);
      }
    }
  }

  /** Somewhere in the tree answered by `l` there is a file whose download
      URL is `u`: a directory entry that passes the deny list, or the single
      file object the API answered with (which the deny list never sees). */
  ghost predicate Offers(l: Listing, u: string)
    decreases l
  {
    match l
    case FileObject(_, _, url, _) => HasUrl(url) && u == url.value
    case Directory(items) => exists i :: 0 <= i < |items| && ItemOffers(items[i], u)
    case _ => false
  }

  ghost predicate ItemOffers(it: Item, u: string)
    decreases it
  {
    match it
    case FileItem(_, _, _, _, _) => Admissible(it) && u == it.url.value
    case DirItem(_, sub) => Offers(sub, u)
    case OtherItem => false
  }

  /** Within one listing, files are stored before the subdirectories are
      merged, and a later subdirectory overwrites what an earlier one (or a
      file of the listing) stored under the same path. */
  lemma LaterSubdirWins(items: seq<Item>, path: string, sub: Listing, k: string)
    ensures
      var r := Fetched(Directory(items + [DirItem(path, sub)]));
      Get(r, k) == if HasKey(Fetched(sub), k) then Get(Fetched(sub), k) else Get(Fetched(Directory(items)), k)
  {
    var all := items + [DirItem(path, sub)];
    assert all[..|items|] == items;
    assert Queued(all) == Queued(items);
    FetchedSpec(sub);
    UpdateSpec(MergeDirs(FileMap(Queued(items)), items), Fetched(sub));
  }

  /** A path that no subdirectory supplies keeps the value the listing's own
      file results gave it. */
  lemma FilesKeptWithoutSubdirs(items: seq<Item>, k: string)
    requires forall i, d :: 0 <= i < |items| && items[i].DirItem? ==> !Supplies(items[i].listing, k, d)
    ensures Get(Fetched(Directory(items)), k) == Get(FileMap(Queued(items)), k)
  {
    var files := FileMap(Queued(items));
    DirFiles(items);
    MergeSpec(files, items);
  }
}
