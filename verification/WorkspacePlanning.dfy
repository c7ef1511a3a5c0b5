/**
  Choosing the files of a codebase scan (`CodebaseScanWorkspacePlanner.plan`):
  one pass over the tree files in path order under a file count, a file size and
  a total size limit.  Path rules, languages and blob contents are arbitrary.
 */
module WorkspacePlanning {
  import opened Basics

  datatype TreeFile = TreeFile(path: string, sha: string, size: Option<nat>)

  datatype Reason =
    | Ignored | Vendor | Generated | Minified | Binary | Oversized | Unsupported | MaxFiles | MaxTotalBytes

  /** The reasons a path alone can give, in the order they are looked at. */
  datatype PathReason = OnIgnoreList | VendorPath | GeneratedPath | MinifiedName | BinarySuffix

  function ReasonOf(p: PathReason): Reason {
    match p
    case OnIgnoreList => Ignored
    case VendorPath => Vendor
    case GeneratedPath => Generated
    case MinifiedName => Minified
    case BinarySuffix => Binary
  }

  datatype Fetched = Content(text: string, size: nat) | Undecodable | FetchRaises

  datatype Config = Config(maxFiles: nat, maxFileBytes: nat, maxTotalBytes: nat)

  /** What the planner is given: the path rules in order, the language test, and the blobs. */
  datatype World = World(pathRule: TreeFile -> Option<PathReason>, supported: TreeFile -> bool,
                         fetch: TreeFile -> Fetched)

  datatype Decision = Selected(bytes: nat) | Skipped(reason: Reason, size: Option<nat>) | Aborted

  function SkipBeforeFetch(f: TreeFile, w: World, cfg: Config): Option<Reason> {
    if w.pathRule(f).Some? then Some(ReasonOf(w.pathRule(f).value))
    else if f.size.Some? && f.size.value > cfg.maxFileBytes then Some(Oversized)
    else if !w.supported(f) then Some(Unsupported)
    else None
  }

  /** What happens to one file when `count` files with `total` bytes are already selected. */
  function Decide(f: TreeFile, count: nat, total: nat, w: World, cfg: Config): Decision {
    var skip := SkipBeforeFetch(f, w, cfg);
    if skip.Some? then Skipped(skip.value, f.size)
    else if count >= cfg.maxFiles then Skipped(MaxFiles, f.size)
    else if f.size.Some? && total + f.size.value > cfg.maxTotalBytes then Skipped(MaxTotalBytes, f.size)
    else match w.fetch(f)
      case FetchRaises => Aborted
      case Undecodable => Skipped(Binary, f.size)
      case Content(_, n) =>
        if n > cfg.maxFileBytes then Skipped(Oversized, Some(n))
        else if total + n > cfg.maxTotalBytes then Skipped(MaxTotalBytes, Some(n))
        else Selected(n)
  }

  function Decisions(files: seq<TreeFile>, w: World, cfg: Config): seq<Decision> {
    if files == [] then []
    else
      var before := Decisions(files[..|files| - 1], w, cfg);
      before + [Decide(files[|files| - 1], Count(before), Bytes(before), w, cfg)]
  }

  function Count(ds: seq<Decision>): nat {
    if ds == [] then 0 else Count(ds[..|ds| - 1]) + (if ds[|ds| - 1].Selected? then 1 else 0)
  }

  function Bytes(ds: seq<Decision>): nat {
    if ds == [] then 0 else Bytes(ds[..|ds| - 1]) + (if ds[|ds| - 1].Selected? then ds[|ds| - 1].bytes else 0)
  }

  datatype Plan = Plan(selected: seq<(TreeFile, nat)>, skipped: seq<(TreeFile, Reason)>, totalBytes: nat,
                       reasons: map<Reason, nat>)

  /** The selected files with the sizes of their contents. */
  function Chosen(files: seq<TreeFile>, ds: seq<Decision>): seq<(TreeFile, nat)>
    requires |files| == |ds|
  {
    if ds == [] then []
    else
      var n := |ds| - 1;
      Chosen(files[..n], ds[..n]) + (if ds[n].Selected? then [(files[n], ds[n].bytes)] else [])
  }

  function Dropped(files: seq<TreeFile>, ds: seq<Decision>): seq<(TreeFile, Reason)>
    requires |files| == |ds|
  {
    if ds == [] then []
    else
      var n := |ds| - 1;
      Dropped(files[..n], ds[..n]) + (if ds[n].Skipped? then [(files[n], ds[n].reason)] else [])
  }

  function Tally(skipped: seq<(TreeFile, Reason)>): map<Reason, nat> {
    if skipped == [] then map[]
    else
      var n := |skipped| - 1;
      Bump(Tally(skipped[..n]), skipped[n].1)
  }

  function Bump(m: map<Reason, nat>, r: Reason): map<Reason, nat> {
    m[r := 1 + if r in m then m[r] else 0]
  }

  // ---- Path order ----------------------------------------------------------------------

  /** Strings compare by their characters, a prefix first. */
  predicate AtMost(a: string, b: string) {
    a == "" || (b != "" && (a[0] < b[0] || (a[0] == b[0] && AtMost(a[1..], b[1..]))))
  }

  predicate PathOrder(f: TreeFile, g: TreeFile) {
    AtMost(f.path, g.path)
  }

  function Insert(f: TreeFile, files: seq<TreeFile>): seq<TreeFile> {
    if files == [] || PathOrder(f, files[0]) then [f] + files else [files[0]] + Insert(f, files[1..])
  }

  /** The stable sort by path. */
  function ByPath(treeFiles: seq<TreeFile>): seq<TreeFile> {
    if treeFiles == [] then [] else Insert(treeFiles[0], ByPath(treeFiles[1..]))
  }

  lemma {:induction false} AtMostTotal(a: string, b: string)
    ensures AtMost(a, b) || AtMost(b, a)
  {
    if a != "" && b != "" && a[0] == b[0] {
      AtMostTotal(a[1..], b[1..]);
    }
  }

  lemma {:induction false} AtMostTransitive(a: string, b: string, c: string)
    requires AtMost(a, b) && AtMost(b, c)
    ensures AtMost(a, c)
  {
    if a != "" && a[0] == b[0] == c[0] {
      AtMostTransitive(a[1..], b[1..], c[1..]);
    }
  }

  /** Every file of a sorted list comes after a file its first file comes after. */
  lemma {:induction false} FirstIsLeast(f: TreeFile, files: seq<TreeFile>)
    requires files != [] && PathOrder(f, files[0]) && Pairwise(PathOrder, files)
    ensures forall g <- files :: PathOrder(f, g)
  {
    hide AtMost;
    forall i | 0 <= i < |files| ensures PathOrder(f, files[i]) {
      if i > 0 {
        assert PathOrder(files[0], files[i]);
        AtMostTransitive(f.path, files[0].path, files[i].path);
      }
    }
  }

  lemma {:induction false} PairwiseCons(f: TreeFile, files: seq<TreeFile>)
    requires Pairwise(PathOrder, files) && forall g <- files :: PathOrder(f, g)
    ensures Pairwise(PathOrder, [f] + files)
  {
    hide PathOrder;
  }

  lemma {:induction false} InsertSorts(f: TreeFile, files: seq<TreeFile>)
    requires Pairwise(PathOrder, files)
    ensures Pairwise(PathOrder, Insert(f, files)) && multiset(Insert(f, files)) == multiset(files) + multiset{f}
  {
    hide PathOrder, Pairwise;
    if files == [] {
      PairwiseShort(f);
      assert [f] + [] == [f];
    } else if PathOrder(f, files[0]) {
      FirstIsLeast(f, files);
      PairwiseCons(f, files);
    } else {
      var rest := files[1..];
      PairwiseRest(files);
      InsertSorts(f, rest);
      NotBefore(f, files[0]);
      assert files == [files[0]] + rest;
      forall g | g in Insert(f, rest) ensures PathOrder(files[0], g) {
        assert g in multiset(Insert(f, rest));
      }
      PairwiseCons(files[0], Insert(f, rest));
    }
  }

  lemma {:induction false} PairwiseShort(f: TreeFile)
    ensures Pairwise(PathOrder, []) && Pairwise(PathOrder, [f])
  {
  }

  lemma {:induction false} PairwiseRest(files: seq<TreeFile>)
    requires files != [] && Pairwise(PathOrder, files)
    ensures Pairwise(PathOrder, files[1..]) && forall g <- files[1..] :: PathOrder(files[0], g)
  {
    hide PathOrder;
  }

  lemma {:induction false} NotBefore(f: TreeFile, g: TreeFile)
    ensures PathOrder(f, g) || PathOrder(g, f)
  {
    AtMostTotal(f.path, g.path);
  }

  lemma {:induction false} ByPathSorts(treeFiles: seq<TreeFile>)
    ensures Pairwise(PathOrder, ByPath(treeFiles)) && multiset(ByPath(treeFiles)) == multiset(treeFiles)
  {
    hide PathOrder, Pairwise, Insert;
    if treeFiles == [] {
      PairwiseShort(TreeFile("", "", None));
    } else {
      ByPathSorts(treeFiles[1..]);
      InsertSorts(treeFiles[0], ByPath(treeFiles[1..]));
      assert treeFiles == [treeFiles[0]] + treeFiles[1..];
    }
  }

  lemma {:induction false} DecisionsLength(files: seq<TreeFile>, w: World, cfg: Config)
    ensures |Decisions(files, w, cfg)| == |files|
  {
    if files != [] {
      DecisionsLength(files[..|files| - 1], w, cfg);
    }
  }

  lemma {:induction false} DecisionsStep(files: seq<TreeFile>, i: nat, w: World, cfg: Config)
    requires i < |files|
    ensures var before := Decisions(files[..i], w, cfg);
      Decisions(files[..i + 1], w, cfg) == before + [Decide(files[i], Count(before), Bytes(before), w, cfg)]
  {
    assert files[..i + 1][..i] == files[..i];
  }

  lemma {:induction false} PlanStep(files: seq<TreeFile>, ds: seq<Decision>, f: TreeFile, d: Decision)
    requires |files| == |ds|
    ensures Chosen(files + [f], ds + [d]) == Chosen(files, ds) + (if d.Selected? then [(f, d.bytes)] else [])
    ensures Dropped(files + [f], ds + [d]) == Dropped(files, ds) + (if d.Skipped? then [(f, d.reason)] else [])
    ensures Count(ds + [d]) == Count(ds) + (if d.Selected? then 1 else 0)
    ensures Bytes(ds + [d]) == Bytes(ds) + (if d.Selected? then d.bytes else 0)
  {
  }

  lemma {:induction false} TallyStep(skipped: seq<(TreeFile, Reason)>, f: TreeFile, r: Reason)
    ensures Tally(skipped + [(f, r)]) == Bump(Tally(skipped), r)
  {
  }

  /** The file's content and size, when it may be fetched and selected. */
  method Examine(f: TreeFile, count: nat, totalBytes: nat, w: World, cfg: Config) returns (d: Decision)
    ensures d == Decide(f, count, totalBytes, w, cfg)
  {
    var skip := SkipBeforeFetch(f, w, cfg);
    if skip.Some? {
      return Skipped(skip.value, f.size);
    }
    if count >= cfg.maxFiles {
      return Skipped(MaxFiles, f.size);
    }
    if f.size.Some? && totalBytes + f.size.value > cfg.maxTotalBytes {
      return Skipped(MaxTotalBytes, f.size);
    }
    var fetched := w.fetch(f);
    match fetched {
      case FetchRaises => d := Aborted;
      case Undecodable => d := Skipped(Binary, f.size);
      case Content(_, n) =>
        if n > cfg.maxFileBytes {
          d := Skipped(Oversized, Some(n));
        } else if totalBytes + n > cfg.maxTotalBytes {
          d := Skipped(MaxTotalBytes, Some(n));
        } else {
          d := Selected(n);
        }
    }
  }

  method PlanWorkspace(treeFiles: seq<TreeFile>, w: World, cfg: Config) returns (r: Result<Plan>)
    ensures |Decisions(ByPath(treeFiles), w, cfg)| == |ByPath(treeFiles)|
    ensures r.Raised? <==> Aborted in Decisions(ByPath(treeFiles), w, cfg)
    ensures r.Ok? ==>
              var files, ds := ByPath(treeFiles), Decisions(ByPath(treeFiles), w, cfg);
              && r.value.selected == Chosen(files, ds) && r.value.skipped == Dropped(files, ds)
              && r.value.totalBytes == Bytes(ds) && |r.value.selected| == Count(ds)
              && r.value.reasons == Tally(r.value.skipped)
  {
    hide Decide, SkipBeforeFetch, Decisions, ByPath, Chosen, Dropped, Count, Bytes, Tally, Bump;
    var files := ByPath(treeFiles);
    var selected: seq<(TreeFile, nat)>, skipped: seq<(TreeFile, Reason)> := [], [];
    var totalBytes := 0;
    var reasons: map<Reason, nat> := map[];
    DecisionsLength(files, w, cfg);
    NoDecisions(files, w, cfg);
    NothingDecided();
    var i := 0;
    while i < |files|
      invariant 0 <= i <= |files|
      invariant |Decisions(files[..i], w, cfg)| == i && Aborted !in Decisions(files[..i], w, cfg)
      invariant selected == Chosen(files[..i], Decisions(files[..i], w, cfg))
      invariant skipped == Dropped(files[..i], Decisions(files[..i], w, cfg))
      invariant |selected| == Count(Decisions(files[..i], w, cfg)) && totalBytes == Bytes(Decisions(files[..i], w, cfg))
      invariant reasons == Tally(skipped)
    {
      ghost var before := Decisions(files[..i], w, cfg);
      var f := files[i];
      var d := Examine(f, |selected|, totalBytes, w, cfg);
      DecisionsStep(files, i, w, cfg);
      assert files[..i + 1] == files[..i] + [f];
      PlanStep(files[..i], before, f, d);
      AppendStep(selected, [], []);
      AppendStep(skipped, [], []);
      match d {
        case Aborted =>
          DecisionsPrefix(files, i + 1, w, cfg);
          assert d in Decisions(files[..i + 1], w, cfg);
          return Raised;
        case Skipped(reason, _) =>
          TallyStep(skipped, f, reason);
          skipped := skipped + [(f, reason)];
          reasons := Bump(reasons, reason);
        case Selected(n) =>
          totalBytes := totalBytes + n;
          selected := selected + [(f, n)];
      }
      i := i + 1;
    }
    assert files[..i] == files;
    r := Ok(Plan(selected, skipped, totalBytes, reasons));
  }

  lemma {:induction false} NoDecisions(files: seq<TreeFile>, w: World, cfg: Config)
    ensures Decisions(files[..0], w, cfg) == []
  {
  }

  lemma {:induction false} DecisionsPrefix(files: seq<TreeFile>, i: nat, w: World, cfg: Config)
    requires i <= |files|
    ensures Decisions(files[..i], w, cfg) <= Decisions(files, w, cfg)
    decreases |files| - i
  {
    if i == |files| {
      assert files[..i] == files;
    } else {
      DecisionsStep(files, i, w, cfg);
      DecisionsPrefix(files, i + 1, w, cfg);
    }
  }

  // ---- What a plan guarantees ----------------------------------------------------------

  /** Each tree file is selected or skipped exactly once. */
  lemma {:induction false} EveryFileOnce(files: seq<TreeFile>, ds: seq<Decision>)
    requires |files| == |ds| && Aborted !in ds
    ensures |Chosen(files, ds)| + |Dropped(files, ds)| == |files|
    ensures multiset(Names(Chosen(files, ds))) + multiset(Names(Dropped(files, ds))) == multiset(files)
    decreases |ds|
  {
    hide Chosen, Dropped, Names;
    if ds == [] {
      NothingDecided();
    } else {
      var n := |ds| - 1;
      var f, d := files[n], ds[n];
      assert d in ds && forall x <- ds[..n] :: x in ds;
      EveryFileOnce(files[..n], ds[..n]);
      PlanStep(files[..n], ds[..n], f, d);
      assert files == files[..n] + [f] && ds == ds[..n] + [d];
      if d.Skipped? {
        NamesAppend(Dropped(files[..n], ds[..n]), (f, d.reason));
        AppendStep(Chosen(files[..n], ds[..n]), [], []);
      } else {
        NamesAppend(Chosen(files[..n], ds[..n]), (f, d.bytes));
        AppendStep(Dropped(files[..n], ds[..n]), [], []);
      }
    }
  }

  lemma {:induction false} NothingDecided()
    ensures Chosen([], []) == [] && Dropped([], []) == [] && Count([]) == 0 && Bytes([]) == 0 && Tally([]) == map[]
    ensures Names(Chosen([], [])) == [] && Names(Dropped([], [])) == []
  {
  }

  function Names<T>(listed: seq<(TreeFile, T)>): seq<TreeFile> {
    if listed == [] then [] else Names(listed[..|listed| - 1]) + [listed[|listed| - 1].0]
  }

  lemma {:induction false} NamesAppend<T>(listed: seq<(TreeFile, T)>, s: (TreeFile, T))
    ensures Names(listed + [s]) == Names(listed) + [s.0]
  {
  }

  /** Both lists keep the order of the files. */
  lemma {:induction false} ListsKeepOrder(files: seq<TreeFile>, ds: seq<Decision>)
    requires |files| == |ds|
    ensures IsSubsequence(Names(Chosen(files, ds)), files) && IsSubsequence(Names(Dropped(files, ds)), files)
    decreases |ds|
  {
    hide Chosen, Dropped, Names, IsSubsequence;
    if ds == [] {
      NothingDecided();
      NoneOfNone();
    } else {
      var n := |ds| - 1;
      var f, d := files[n], ds[n];
      var chosen, dropped := Chosen(files[..n], ds[..n]), Dropped(files[..n], ds[..n]);
      ListsKeepOrder(files[..n], ds[..n]);
      PlanStep(files[..n], ds[..n], f, d);
      assert files == files[..n] + [f] && ds == ds[..n] + [d];
      SubsequenceAppend(Names(chosen), files[..n], f);
      SubsequenceAppend(Names(dropped), files[..n], f);
      AppendStep(chosen, [], []);
      AppendStep(dropped, [], []);
      if d.Skipped? {
        NamesAppend(dropped, (f, d.reason));
      } else if d.Selected? {
        NamesAppend(chosen, (f, d.bytes));
      }
    }
  }

  lemma {:induction false} NoneOfNone()
    ensures IsSubsequence<TreeFile>([], [])
  {
  }

  /** The plan of the tree files: each tree file once, both lists in path order. */
  lemma {:induction false} PlanInPathOrder(treeFiles: seq<TreeFile>, ds: seq<Decision>)
    requires |ds| == |ByPath(treeFiles)| && Aborted !in ds
    ensures multiset(Names(Chosen(ByPath(treeFiles), ds))) + multiset(Names(Dropped(ByPath(treeFiles), ds)))
            == multiset(treeFiles)
    ensures Pairwise(PathOrder, Names(Chosen(ByPath(treeFiles), ds)))
            && Pairwise(PathOrder, Names(Dropped(ByPath(treeFiles), ds)))
  {
    hide Chosen, Dropped, Names, IsSubsequence, Pairwise, ByPath;
    var files := ByPath(treeFiles);
    ByPathSorts(treeFiles);
    EveryFileOnce(files, ds);
    ListsKeepOrder(files, ds);
    SubsequencePairs(Names(Chosen(files, ds)), files, PathOrder);
    SubsequencePairs(Names(Dropped(files, ds)), files, PathOrder);
  }

  function Total(listed: seq<(TreeFile, nat)>): nat {
    if listed == [] then 0 else Total(listed[..|listed| - 1]) + listed[|listed| - 1].1
  }

  lemma {:induction false} TotalAppend(listed: seq<(TreeFile, nat)>, s: (TreeFile, nat))
    ensures Total(listed + [s]) == Total(listed) + s.1
  {
  }

  /** selectedBytes is the sum of the selected sizes. */
  lemma {:induction false} BytesAddUp(files: seq<TreeFile>, ds: seq<Decision>)
    requires |files| == |ds|
    ensures Bytes(ds) == Total(Chosen(files, ds)) && Count(ds) == |Chosen(files, ds)|
    decreases |ds|
  {
    hide Chosen, Total;
    if ds == [] {
      NothingDecided();
      NoTotal();
    } else {
      var n := |ds| - 1;
      BytesAddUp(files[..n], ds[..n]);
      PlanStep(files[..n], ds[..n], files[n], ds[n]);
      assert files == files[..n] + [files[n]] && ds == ds[..n] + [ds[n]];
      if ds[n].Selected? {
        TotalAppend(Chosen(files[..n], ds[..n]), (files[n], ds[n].bytes));
      } else {
        AppendStep(Chosen(files[..n], ds[..n]), [], []);
      }
    }
  }

  lemma {:induction false} NoTotal()
    ensures Total([]) == 0
  {
  }

  function Sum(m: map<Reason, nat>, reasons: seq<Reason>): nat {
    if reasons == [] then 0 else (if reasons[0] in m then m[reasons[0]] else 0) + Sum(m, reasons[1..])
  }

  const ALL_REASONS := [Ignored, Vendor, Generated, Minified, Binary, Oversized, Unsupported, MaxFiles, MaxTotalBytes]

  lemma {:induction false} SumBump(m: map<Reason, nat>, r: Reason, reasons: seq<Reason>)
    requires forall i, j | 0 <= i < j < |reasons| :: reasons[i] != reasons[j]
    ensures Sum(Bump(m, r), reasons) == Sum(m, reasons) + (if r in reasons then 1 else 0)
  {
    if reasons != [] {
      SumBump(m, r, reasons[1..]);
      assert reasons[0] == r ==> r !in reasons[1..];
    }
  }

  lemma {:induction false} TallyAddsUp(skipped: seq<(TreeFile, Reason)>)
    ensures Sum(Tally(skipped), ALL_REASONS) == |skipped|
  {
    if skipped == [] {
      EmptySum(ALL_REASONS);
    } else {
      var n := |skipped| - 1;
      TallyAddsUp(skipped[..n]);
      SumBump(Tally(skipped[..n]), skipped[n].1, ALL_REASONS);
      EveryReasonListed(skipped[n].1);
    }
  }

  lemma {:induction false} EveryReasonListed(r: Reason)
    ensures r in ALL_REASONS
  {
  }

  lemma {:induction false} EmptySum(reasons: seq<Reason>)
    ensures Sum(map[], reasons) == 0
  {
    if reasons != [] {
      EmptySum(reasons[1..]);
    }
  }

  /** The three limits hold of every plan. */
  lemma {:induction false} LimitsHold(files: seq<TreeFile>, w: World, cfg: Config)
    ensures var ds := Decisions(files, w, cfg);
      && Count(ds) <= cfg.maxFiles && Bytes(ds) <= cfg.maxTotalBytes
      && forall d <- ds :: d.Selected? ==> d.bytes <= cfg.maxFileBytes
  {
    if files != [] {
      var n := |files| - 1;
      LimitsHold(files[..n], w, cfg);
      var before := Decisions(files[..n], w, cfg);
      var d := Decide(files[n], Count(before), Bytes(before), w, cfg);
      DecisionsLength(files[..n], w, cfg);
      PlanStep(files[..n], before, files[n], d);
    }
  }

  lemma {:induction false} CountsGrow(ds: seq<Decision>, i: nat)
    requires i <= |ds|
    ensures Count(ds[..i]) <= Count(ds) && Bytes(ds[..i]) <= Bytes(ds)
  {
    if i < |ds| {
      CountsGrow(ds[..|ds| - 1], i);
      assert ds[..|ds| - 1][..i] == ds[..i];
    } else {
      assert ds[..i] == ds;
    }
  }

  lemma {:induction false} DecisionAt(files: seq<TreeFile>, w: World, cfg: Config, i: nat)
    requires i < |files|
    ensures var ds := Decisions(files, w, cfg);
      |ds| == |files| && ds[i] == Decide(files[i], Count(ds[..i]), Bytes(ds[..i]), w, cfg)
  {
    hide Decide;
    DecisionsLength(files, w, cfg);
    DecisionsLength(files[..i], w, cfg);
    DecisionsStep(files, i, w, cfg);
    DecisionsPrefix(files, i + 1, w, cfg);
    assert Decisions(files, w, cfg)[..i] == Decisions(files[..i], w, cfg);
  }

  /**
    The choice is maximal: a file skipped for the byte budget overflows even the final selection, and a file
    skipped for the file count means the selection is full.
   */
  lemma {:induction false} SkipsAreForced(files: seq<TreeFile>, w: World, cfg: Config, i: nat)
    requires i < |files|
    ensures var ds := Decisions(files, w, cfg);
      && |ds| == |files|
      && (ds[i].Skipped? && ds[i].reason == MaxTotalBytes ==>
            ds[i].size.Some? && Bytes(ds) + ds[i].size.value > cfg.maxTotalBytes)
      && (ds[i].Skipped? && ds[i].reason == MaxFiles ==> Count(ds) == cfg.maxFiles)
  {
    hide Decisions;
    DecisionAt(files, w, cfg, i);
    var ds := Decisions(files, w, cfg);
    CountsGrow(ds, i);
    LimitsHold(files, w, cfg);
  }

  // ---- Which files are selected ----------------------------------------------------------

  /** No path rule, a supported language, and a listed size, if any, within the limit of one file. */
  predicate MayBeFetched(f: TreeFile, w: World, cfg: Config) {
    w.pathRule(f) == None && w.supported(f) && (f.size.Some? ==> f.size.value <= cfg.maxFileBytes)
  }

  /** There is room for one more file and for its listed size, if any. */
  predicate HasRoom(f: TreeFile, count: nat, total: nat, cfg: Config) {
    count < cfg.maxFiles && (f.size.Some? ==> total + f.size.value <= cfg.maxTotalBytes)
  }

  /** A file is selected exactly when no rule and no limit speaks against it, before and after it is fetched. */
  lemma {:induction false} SelectedIff(f: TreeFile, count: nat, total: nat, w: World, cfg: Config, n: nat)
    ensures Decide(f, count, total, w, cfg) == Selected(n)
       <==> MayBeFetched(f, w, cfg) && HasRoom(f, count, total, cfg)
            && w.fetch(f).Content? && w.fetch(f).size == n && n <= cfg.maxFileBytes && total + n <= cfg.maxTotalBytes
  {
  }

  lemma {:induction false} AbortedIff(f: TreeFile, count: nat, total: nat, w: World, cfg: Config)
    ensures Decide(f, count, total, w, cfg) == Aborted
       <==> MayBeFetched(f, w, cfg) && HasRoom(f, count, total, cfg) && w.fetch(f) == FetchRaises
  {
  }

  /** Why a file that is not selected is skipped: the first test it fails. */
  lemma {:induction false} SkippedBecause(f: TreeFile, count: nat, total: nat, w: World, cfg: Config)
    ensures var d, listed := Decide(f, count, total, w, cfg), f.size;
      if w.pathRule(f).Some? then d == Skipped(ReasonOf(w.pathRule(f).value), listed)
      else if listed.Some? && listed.value > cfg.maxFileBytes then d == Skipped(Oversized, listed)
      else if !w.supported(f) then d == Skipped(Unsupported, listed)
      else if count >= cfg.maxFiles then d == Skipped(MaxFiles, listed)
      else if listed.Some? && total + listed.value > cfg.maxTotalBytes then d == Skipped(MaxTotalBytes, listed)
      else match w.fetch(f)
        case FetchRaises => d == Aborted
        case Undecodable => d == Skipped(Binary, listed)
        case Content(_, n) =>
          (n > cfg.maxFileBytes ==> d == Skipped(Oversized, Some(n)))
          && (n <= cfg.maxFileBytes && total + n > cfg.maxTotalBytes ==> d == Skipped(MaxTotalBytes, Some(n)))
  {
  }

  /** The path rules, by name. */
  lemma {:induction false} PathReasons(f: TreeFile, count: nat, total: nat, w: World, cfg: Config)
    ensures w.pathRule(f) == Some(OnIgnoreList) ==> Decide(f, count, total, w, cfg) == Skipped(Ignored, f.size)
    ensures w.pathRule(f) == Some(VendorPath) ==> Decide(f, count, total, w, cfg) == Skipped(Vendor, f.size)
    ensures w.pathRule(f) == Some(GeneratedPath) ==> Decide(f, count, total, w, cfg) == Skipped(Generated, f.size)
    ensures w.pathRule(f) == Some(MinifiedName) ==> Decide(f, count, total, w, cfg) == Skipped(Minified, f.size)
    ensures w.pathRule(f) == Some(BinarySuffix) ==> Decide(f, count, total, w, cfg) == Skipped(Binary, f.size)
  {
  }

  /** In the plan of a list of files the decision on each file counts the files selected before it. */
  lemma {:induction false} DecidedInTurn(files: seq<TreeFile>, w: World, cfg: Config, i: nat)
    requires i < |files|
    ensures |Decisions(files, w, cfg)| == |files| && |Decisions(files[..i], w, cfg)| == i
    ensures var chosen := Chosen(files[..i], Decisions(files[..i], w, cfg));
      Decisions(files, w, cfg)[i] == Decide(files[i], |chosen|, Total(chosen), w, cfg)
  {
    hide Decide, Decisions, Chosen, Total, Count, Bytes;
    DecisionsLength(files, w, cfg);
    DecisionsLength(files[..i], w, cfg);
    DecisionsStep(files, i, w, cfg);
    DecisionsPrefix(files, i + 1, w, cfg);
    BytesAddUp(files[..i], Decisions(files[..i], w, cfg));
  }

  // ---- The order of paths -----------------------------------------------------------------

  /** The first place where the strings differ decides; a string comes before those it begins. */
  lemma {:induction false} AtMostIff(a: string, b: string)
    ensures AtMost(a, b) <==> a <= b || exists i :: DiffersAt(a, b, i)
    decreases |a|
  {
    if a != "" && b != "" {
      AtMostIff(a[1..], b[1..]);
      if a[0] < b[0] {
        assert DiffersAt(a, b, 0);
      } else if a[0] == b[0] {
        if i :| DiffersAt(a[1..], b[1..], i) {
          assert a[..i + 1] == [a[0]] + a[1..][..i] && b[..i + 1] == [b[0]] + b[1..][..i];
          assert DiffersAt(a, b, i + 1);
        }
        if i :| DiffersAt(a, b, i) {
          assert i > 0 ==> a[1..][..i - 1] == a[..i][1..] && b[1..][..i - 1] == b[..i][1..];
          assert i > 0 ==> DiffersAt(a[1..], b[1..], i - 1);
        }
        assert a[1..] <= b[1..] <==> a <= b;
      }
    }
  }

  predicate DiffersAt(a: string, b: string, i: int) {
    0 <= i < |a| && i < |b| && a[..i] == b[..i] && a[i] < b[i]
  }

  /** The files of one path, in the order of the list. */
  function OfPath(files: seq<TreeFile>, path: string): seq<TreeFile> {
    if files == [] then [] else (if files[0].path == path then [files[0]] else []) + OfPath(files[1..], path)
  }

  lemma {:induction false} InsertOfPath(f: TreeFile, files: seq<TreeFile>, path: string)
    ensures OfPath(Insert(f, files), path) == (if f.path == path then [f] else []) + OfPath(files, path)
  {
    if files == [] || PathOrder(f, files[0]) {
      assert ([f] + files)[1..] == files;
    } else {
      InsertOfPath(f, files[1..], path);
      assert ([files[0]] + Insert(f, files[1..]))[1..] == Insert(f, files[1..]);
      AtMostSelf(f.path);
    }
  }

  lemma {:induction false} AtMostSelf(a: string)
    ensures AtMost(a, a)
  {
    if a != "" {
      AtMostSelf(a[1..]);
    }
  }

  /** The sort is stable. */
  lemma {:induction false} ByPathIsStable(treeFiles: seq<TreeFile>, path: string)
    ensures OfPath(ByPath(treeFiles), path) == OfPath(treeFiles, path)
  {
    hide Insert, PathOrder;
    if treeFiles != [] {
      ByPathIsStable(treeFiles[1..], path);
      InsertOfPath(treeFiles[0], ByPath(treeFiles[1..]), path);
    }
  }
}
