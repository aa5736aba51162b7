/**
  The disk accounting walk of src/storage.rs, over a file tree that does not change
  meanwhile. Listings come in any order. With `faulty`, any question to the file system may
  fail and time may run out; without it, a walk of a countable tree is complete.
 */
module StorageWalk {
  import opened Outcomes
  import opened Sums
  import opened FileTree

  const ERROR_LIMIT := 32

  datatype Problem =
    | EntryLimit | TimeLimit | DepthLimit | AlreadyVisited | Changed | Unreadable
    | OtherFilesystem | TooLarge | NotADirectory

  /** What must be the case when a problem is reported. */
  ghost predicate Reason(fs: map<Key, Node>, root: Key, faulty: bool, entryLimit: nat, p: Problem)
    requires root in fs
  {
    match p
    case EntryLimit => entryLimit <= Sum(ReachableDirectories(fs, root), EntryCounts(fs))
    case TimeLimit => faulty
    case DepthLimit => exists k :: TooDeep(fs, root, k)
    case AlreadyVisited => exists k :: Shared(fs, root, k)
    case Changed => faulty
    case Unreadable => faulty || fs[root].Symlink?
    case OtherFilesystem => exists k :: CrossesDevices(fs, root, k)
    case TooLarge =>
      U64 <= Sum(ReachableFiles(fs, root), Lengths(fs)) || U64 <= Sum(ReachableFiles(fs, root), Allocations(fs))
    case NotADirectory => !fs[root].Directory?
  }

  lemma CountableHasNoReason(fs: map<Key, Node>, root: Key, entryLimit: nat, p: Problem)
    requires Countable(fs, root, entryLimit)
    ensures !Reason(fs, root, false, entryLimit, p)
  {
    if k :| TooDeep(fs, root, k) {
    }
    if k :| Shared(fs, root, k) {
    }
    if k :| CrossesDevices(fs, root, k) {
    }
  }

  ghost predicate Explained(fs: map<Key, Node>, root: Key, faulty: bool, entryLimit: nat, errors: seq<Problem>)
    requires root in fs
  {
    forall k :: 0 <= k < |errors| ==> Reason(fs, root, faulty, entryLimit, errors[k])
  }

  lemma ExplainedMore(fs: map<Key, Node>, root: Key, faulty: bool, entryLimit: nat, errors: seq<Problem>, p: Problem)
    requires root in fs && Explained(fs, root, faulty, entryLimit, errors) && Reason(fs, root, faulty, entryLimit, p)
    ensures Explained(fs, root, faulty, entryLimit, errors + [p])
  {
    hide Reason;
  }

  ghost predicate AllReachable(fs: map<Key, Node>, root: Key, seen: set<Key>) {
    forall k :: k in seen ==> Reachable(fs, root, k)
  }

  lemma OneMoreReachable(fs: map<Key, Node>, root: Key, seen: set<Key>, k: Key)
    requires AllReachable(fs, root, seen) && Reachable(fs, root, k)
    ensures AllReachable(fs, root, seen + {k})
  {
    hide Reachable;
  }

  /** Where each directory but the root was entered from. */
  ghost predicate EnteredOk(fs: map<Key, Node>, root: Key, seen: set<Key>, entered: map<Key, Place>) {
    && (forall x :: x in entered ==> x in seen && LeadsTo(fs, root, entered[x], x) && entered[x].0 in seen)
    && (forall x :: x in seen && x in fs && fs[x].Directory? && x != root ==> x in entered)
  }

  /** Directories entered since then were entered from here or from directories that were new. */
  ghost predicate EnteredLater(entered0: map<Key, Place>, seen0: set<Key>, entered: map<Key, Place>, key: Key) {
    forall x :: x in entered ==>
      (x in entered0 && entered[x] == entered0[x]) || entered[x].0 !in seen0 || entered[x].0 == key
  }

  /** Nothing was entered from the entries still to do. */
  ghost predicate Untouched(entered: map<Key, Place>, key: Key, todo: set<Name>) {
    forall x :: x in entered && entered[x].0 == key ==> entered[x].1 !in todo
  }

  lemma EnteredDirectory(fs: map<Key, Node>, root: Key, seen: set<Key>, entered: map<Key, Place>, k: Key,
                         from: Option<Place>)
    requires EnteredOk(fs, root, seen, entered)
    requires if from.None? then k == root else from.value.0 in seen && LeadsTo(fs, root, from.value, k)
    ensures EnteredOk(fs, root, seen + {k}, if from.None? then entered else entered[k := from.value])
  {
    hide LeadsTo;
  }

  lemma EnteredFile(fs: map<Key, Node>, root: Key, seen: set<Key>, entered: map<Key, Place>, k: Key)
    requires EnteredOk(fs, root, seen, entered) && k in fs && fs[k].File?
    ensures EnteredOk(fs, root, seen + {k}, entered)
  {
    hide LeadsTo;
  }

  /** The walk has seen reachable nodes only, and knows where it entered each directory. */
  ghost predicate TreeOk(fs: map<Key, Node>, root: Key, seen: set<Key>, entered: map<Key, Place>) {
    Closed(fs) && root in fs && seen <= fs.Keys && AllReachable(fs, root, seen) && EnteredOk(fs, root, seen, entered)
  }

  /** The sizes are bounded by what was seen, and equal to it while no sum was too large. */
  ghost predicate TallyOk(fs: map<Key, Node>, seen: set<Key>, exact: bool, logical: nat, onDisk: nat, files: nat) {
    && seen <= fs.Keys && AtMost(fs, seen, logical, onDisk, files)
    && (exact ==> Exactly(fs, seen, logical, onDisk, files))
    && logical < U64 && onDisk < U64
  }

  lemma TallyWeaker(fs: map<Key, Node>, seen: set<Key>, exact: bool, logical: nat, onDisk: nat, files: nat, still: bool)
    requires TallyOk(fs, seen, exact, logical, onDisk, files) && (still ==> exact)
    ensures TallyOk(fs, seen, still, logical, onDisk, files)
  {
  }

  lemma TallyDirectory(fs: map<Key, Node>, seen: set<Key>, exact: bool, logical: nat, onDisk: nat, files: nat,
                       k: Key)
    requires TallyOk(fs, seen, exact, logical, onDisk, files) && k in fs && fs[k].Directory? && k !in seen
    ensures TallyOk(fs, seen + {k}, exact, logical, onDisk, files)
  {
    hide AtMost, Exactly;
    OneMore(fs, seen, k, logical, onDisk, files);
  }

  /** Both sums still fit after a file. */
  predicate Fits(logical: nat, onDisk: nat, length: nat, blocks: nat) {
    logical + length < U64 && blocks * 512 < U64 && onDisk + blocks * 512 < U64
  }

  /** A file adds its sizes, or, when a sum would overflow, nothing. */
  lemma TallyFile(fs: map<Key, Node>, seen: set<Key>, exact: bool, logical: nat, onDisk: nat, files: nat, k: Key)
    requires TallyOk(fs, seen, exact, logical, onDisk, files) && k in fs && fs[k].File? && k !in seen
    ensures Fits(logical, onDisk, fs[k].length, fs[k].blocks) ==>
      TallyOk(fs, seen + {k}, exact, logical + fs[k].length, onDisk + fs[k].blocks * 512, files + 1)
    ensures TallyOk(fs, seen + {k}, false, logical, onDisk, files)
  {
    hide AtMost, Exactly;
    OneMore(fs, seen, k, logical, onDisk, files);
  }

  /** The entries counted, failed and still due are entries of the directories seen, kind by kind. */
  ghost predicate KindsOk(fs: map<Key, Node>, seen: set<Key>, counted: Census, failures: Census, due: Census) {
    seen <= fs.Keys && ThreeWithin(counted, failures, due, Total(fs, seen))
  }

  predicate ThreeWithin(a: Census, b: Census, c: Census, total: Census) {
    && a.folders + b.folders + c.folders <= total.folders && a.plain + b.plain + c.plain <= total.plain
    && a.links + b.links + c.links <= total.links && a.odd + b.odd + c.odd <= total.odd
  }

  lemma ThreeMore(a: Census, b: Census, c: Census, total: Census, more: Census)
    requires ThreeWithin(a, b, c, total)
    ensures ThreeWithin(a, b, c.Plus(more), total.Plus(more))
  {
  }

  /** Every entry is counted or failed. */
  predicate CountOk(count: nat, counted: Census, failures: Census) {
    count == counted.Size() + failures.Size()
  }

  lemma CountMet(count: nat, counted: Census, failures: Census, kind: Kind)
    requires CountOk(count, counted, failures)
    ensures CountOk(count + 1, counted.Plus(One(kind)), failures)
    ensures CountOk(count + 1, counted, failures.Plus(One(kind)))
  {
  }

  lemma KindsMet(fs: map<Key, Node>, seen: set<Key>, count: nat, counted: Census, failures: Census, due: Census,
                 kind: Kind)
    requires KindsOk(fs, seen, counted, failures, due) && CountOk(count, counted, failures) && One(kind).Within(due)
    ensures KindsOk(fs, seen, counted.Plus(One(kind)), failures, due.Minus(One(kind)))
    ensures KindsOk(fs, seen, counted, failures.Plus(One(kind)), due.Minus(One(kind)))
    ensures CountOk(count + 1, counted.Plus(One(kind)), failures)
    ensures CountOk(count + 1, counted, failures.Plus(One(kind)))
  {
    hide Total, CountOk;
    CountMet(count, counted, failures, kind);
  }

  lemma KindsSeen(fs: map<Key, Node>, seen: set<Key>, counted: Census, failures: Census, due: Census, k: Key)
    requires KindsOk(fs, seen, counted, failures, due) && k in fs && k !in seen
    ensures if fs[k].Directory? then
              KindsOk(fs, seen + {k}, counted, failures, due.Plus(CensusOf(fs, fs[k].entries, fs[k].entries.Keys)))
            else
              KindsOk(fs, seen + {k}, counted, failures, due)
  {
    hide Total, CensusOf, ThreeWithin;
    TotalAdd(fs, seen, k);
    if fs[k].Directory? {
      ThreeMore(counted, failures, due, Total(fs, seen), CensusOf(fs, fs[k].entries, fs[k].entries.Keys));
    }
  }

  /** All kinds together. */
  lemma KindsSum(fs: map<Key, Node>, seen: set<Key>, count: nat, counted: Census, failures: Census, due: Census)
    requires KindsOk(fs, seen, counted, failures, due) && CountOk(count, counted, failures)
    ensures seen <= fs.Keys && count <= Total(fs, seen).Size() && counted.Within(Total(fs, seen))
    ensures count == Total(fs, seen).Size() ==> counted.Plus(failures) == Total(fs, seen)
  {
    hide Total;
  }

  lemma KindsOfTree(fs: map<Key, Node>, root: Key, seen: set<Key>, count: nat, counted: Census, failures: Census,
                    due: Census)
    requires KindsOk(fs, seen, counted, failures, due) && CountOk(count, counted, failures)
    requires Closed(fs) && AllReachable(fs, root, seen)
    ensures var all := Total(fs, ReachableDirectories(fs, root));
      && counted.Within(all)
      && (count == Sum(ReachableDirectories(fs, root), EntryCounts(fs)) ==> counted.Plus(failures) == all)
  {
    hide Reachable, Closed, KindsOk, CountOk, Total;
    var directories := set k | k in seen && k in fs && fs[k].Directory?;
    KindsSum(fs, seen, count, counted, failures, due);
    TotalOfDirectories(fs, seen, directories);
    TotalGrows(fs, directories, ReachableDirectories(fs, root));
    TotalIsWhole(fs, ReachableDirectories(fs, root));
    KindsWithin(counted, failures, count, Total(fs, seen), Total(fs, ReachableDirectories(fs, root)));
  }

  lemma KindsWithin(counted: Census, failures: Census, count: nat, some: Census, all: Census)
    requires some.Within(all) && counted.Within(some) && CountOk(count, counted, failures) && count <= some.Size()
    requires count == some.Size() ==> counted.Plus(failures) == some
    ensures counted.Within(all) && (count == all.Size() ==> counted.Plus(failures) == all)
  {
  }

  /** The entries of a listing that have not come up are all still due. */
  predicate AllDue(fs: map<Key, Node>, entries: map<Name, Key>, names: set<Name>, due: Census) {
    CensusOf(fs, entries, names).Within(due)
  }

  /** Since `first`, no more was used up than the entries of the listing that came up. */
  predicate LeftOver(fs: map<Key, Node>, entries: map<Name, Key>, names: set<Name>, first: Census, due: Census) {
    first.Plus(CensusOf(fs, entries, names)).Within(due.Plus(CensusOf(fs, entries, entries.Keys)))
  }

  lemma ListingAtFirst(fs: map<Key, Node>, entries: map<Name, Key>, due: Census)
    ensures LeftOver(fs, entries, entries.Keys, due, due)
    ensures AllDue(fs, entries, entries.Keys, due.Plus(CensusOf(fs, entries, entries.Keys)))
  {
    hide CensusOf;
  }

  /** An entry of its kind was used up, and no more. */
  lemma ListingStep(fs: map<Key, Node>, entries: map<Name, Key>, names: set<Name>, n: Name, first: Census,
                    before: Census, after: Census)
    requires n in names && n in entries && entries[n] in fs
    requires AllDue(fs, entries, names, before) && LeftOver(fs, entries, names, first, before)
    requires UsedOne(before, KindOf(fs[entries[n]]), after)
    ensures AllDue(fs, entries, names - {n}, after) && LeftOver(fs, entries, names - {n}, first, after)
  {
    hide CensusOf;
    CensusWithout(fs, entries, names, n);
  }

  /** Whatever a listing left over since `first`, with its entries it was at least that. */
  lemma ListingDone(fs: map<Key, Node>, entries: map<Name, Key>, names: set<Name>, first: Census, after: Census)
    requires LeftOver(fs, entries, names, first, after)
    ensures first.Within(after.Plus(CensusOf(fs, entries, entries.Keys)))
  {
    hide CensusOf;
  }

  lemma ListingIsDue(fs: map<Key, Node>, entries: map<Name, Key>, due: Census)
    ensures AllDue(fs, entries, entries.Keys, due.Plus(CensusOf(fs, entries, entries.Keys)))
  {
    hide CensusOf;
  }

  lemma MoreDue(due: Census, all: Census)
    ensures due.Within(due) && due.Within(due.Plus(all))
  {
  }

  lemma DirectoryDone(all: Census, before: Census, after: Census)
    requires before.Plus(all).Within(after.Plus(all))
    ensures before.Within(after)
  {
  }

  predicate UsedOne(before: Census, kind: Kind, after: Census) {
    before.Within(after.Plus(One(kind)))
  }

  lemma UsedThat(due: Census, kind: Kind)
    requires One(kind).Within(due)
    ensures UsedOne(due, kind, due.Minus(One(kind)))
  {
  }

  lemma UsedNoMore(due: Census, kind: Kind, after: Census)
    requires One(kind).Within(due) && due.Minus(One(kind)).Within(after)
    ensures UsedOne(due, kind, after)
  {
  }

  /** The next entry is due. */
  lemma IsDue(fs: map<Key, Node>, entries: map<Name, Key>, names: set<Name>, n: Name, due: Census)
    requires n in names && n in entries && entries[n] in fs && AllDue(fs, entries, names, due)
    ensures One(KindOf(fs[entries[n]])).Within(due)
  {
    hide CensusOf;
    CensusWithout(fs, entries, names, n);
  }

  /** Problems that leave part of the tree unseen. */
  predicate Cuts(p: Problem) {
    p !in {AlreadyVisited, OtherFilesystem, TooLarge}
  }

  /** Why part of the tree may be unseen. */
  ghost predicate CutReason(fs: map<Key, Node>, root: Key, faulty: bool, entryLimit: nat)
    requires root in fs
  {
    || faulty || !fs[root].Directory?
    || Reason(fs, root, faulty, entryLimit, EntryLimit) || Reason(fs, root, faulty, entryLimit, DepthLimit)
  }

  /** A tree within the limits gives no reason to leave a part of it out, or to leave sizes out. */
  lemma LimitsNoReason(fs: map<Key, Node>, root: Key, entryLimit: nat)
    requires WithinLimits(fs, root, entryLimit)
    ensures root in fs && !CutReason(fs, root, false, entryLimit) && !Reason(fs, root, false, entryLimit, TooLarge)
  {
    hide ReachableFiles, ReachableDirectories, Lengths, Allocations, EntryCounts;
    if k :| TooDeep(fs, root, k) {
    }
  }

  lemma CutsHaveReason(fs: map<Key, Node>, root: Key, faulty: bool, entryLimit: nat, p: Problem)
    requires root in fs && Reason(fs, root, faulty, entryLimit, p)
    ensures Cuts(p) ==> CutReason(fs, root, faulty, entryLimit)
  {
  }

  /**
    Every problem has its reason, and a walk without problems is complete. It is `cut` when part of
    the tree may be unseen, and `exact` while no sum was too large.
   */
  ghost predicate ReportOk(fs: map<Key, Node>, root: Key, faulty: bool, entryLimit: nat, complete: bool, stopped: bool,
                           errors: seq<Problem>, additional: nat, failures: Census, cut: bool, exact: bool)
  {
    && |errors| <= ERROR_LIMIT && (additional > 0 ==> |errors| == ERROR_LIMIT)
    && (complete <==> errors == []) && (stopped ==> cut) && (complete ==> IsZero(failures) && !cut && exact)
    && root in fs && Explained(fs, root, faulty, entryLimit, errors)
    && (cut ==> CutReason(fs, root, faulty, entryLimit))
    && (!exact ==> Reason(fs, root, faulty, entryLimit, TooLarge))
  }

  predicate IsZero(c: Census) {
    c.folders == 0 && c.plain == 0 && c.links == 0 && c.odd == 0
  }

  /** One more message, or one more that is only counted. */
  predicate Listed(errors: seq<Problem>, additional: nat, p: Problem, errors1: seq<Problem>, additional1: nat) {
    if |errors| < ERROR_LIMIT then errors1 == errors + [p] && additional1 == additional
    else errors1 == errors && additional1 == additional + 1
  }

  predicate Marked(cut: bool, exact: bool, p: Problem, cut1: bool, exact1: bool) {
    cut1 == (cut || Cuts(p)) && exact1 == (exact && p != TooLarge)
  }

  lemma ReportMore(fs: map<Key, Node>, root: Key, faulty: bool, entryLimit: nat, complete: bool, stopped: bool,
                   errors: seq<Problem>, additional: nat, failures: Census, cut: bool, exact: bool, p: Problem,
                   cut1: bool, exact1: bool)
    requires ReportOk(fs, root, faulty, entryLimit, complete, stopped, errors, additional, failures, cut, exact)
    requires Reason(fs, root, faulty, entryLimit, p)
    requires cut1 == (cut || Cuts(p)) && exact1 == (exact && p != TooLarge)
    ensures Marked(cut, exact, p, cut1, exact1)
    ensures |errors| < ERROR_LIMIT ==>
      && Listed(errors, additional, p, errors + [p], additional)
      && ReportOk(fs, root, faulty, entryLimit, false, stopped, errors + [p], additional, failures, cut1, exact1)
    ensures |errors| >= ERROR_LIMIT ==>
      && Listed(errors, additional, p, errors, additional + 1)
      && ReportOk(fs, root, faulty, entryLimit, false, stopped, errors, additional + 1, failures, cut1, exact1)
  {
    hide Reason, Explained, CutReason;
    ExplainedMore(fs, root, faulty, entryLimit, errors, p);
    CutsHaveReason(fs, root, faulty, entryLimit, p);
  }

  lemma ReportLater(fs: map<Key, Node>, root: Key, faulty: bool, entryLimit: nat, stopped: bool, errors: seq<Problem>,
                    additional: nat, failures: Census, cut: bool, exact: bool, other: bool, more: Census)
    requires ReportOk(fs, root, faulty, entryLimit, false, stopped, errors, additional, failures, cut, exact)
    requires other == stopped || cut
    ensures ReportOk(fs, root, faulty, entryLimit, false, other, errors, additional, more, cut, exact)
  {
    hide Explained, Reason, CutReason;
  }

  lemma TreeDirectory(fs: map<Key, Node>, root: Key, seen: set<Key>, entered: map<Key, Place>, k: Key,
                      from: Option<Place>)
    requires TreeOk(fs, root, seen, entered) && k in fs && fs[k].Directory? && Reachable(fs, root, k)
    requires if from.None? then k == root else from.value.0 in seen && LeadsTo(fs, root, from.value, k)
    ensures TreeOk(fs, root, seen + {k}, if from.None? then entered else entered[k := from.value])
  {
    hide Closed, AllReachable, EnteredOk, Reachable, LeadsTo;
    OneMoreReachable(fs, root, seen, k);
    EnteredDirectory(fs, root, seen, entered, k, from);
  }

  lemma TreeFile(fs: map<Key, Node>, root: Key, seen: set<Key>, entered: map<Key, Place>, k: Key)
    requires TreeOk(fs, root, seen, entered) && k in fs && fs[k].File? && Reachable(fs, root, k)
    ensures TreeOk(fs, root, seen + {k}, entered)
  {
    hide Closed, AllReachable, EnteredOk, Reachable;
    OneMoreReachable(fs, root, seen, k);
    EnteredFile(fs, root, seen, entered, k);
  }

  lemma SizeHasReason(fs: map<Key, Node>, root: Key, faulty: bool, entryLimit: nat, seen: set<Key>,
                      entered: map<Key, Place>, k: Key, exact: bool, logical: nat, onDisk: nat, files: nat)
    requires TreeOk(fs, root, seen, entered) && TallyOk(fs, seen, exact, logical, onDisk, files)
    requires k in fs && fs[k].File? && k !in seen && Reachable(fs, root, k)
    ensures !Fits(logical, onDisk, fs[k].length, fs[k].blocks) ==> Reason(fs, root, faulty, entryLimit, TooLarge)
  {
    hide Closed, EnteredOk, Exactly, Reachable, LeadsTo;
    SeenIsReachable(fs, root, seen + {k});
    SumAdd(seen, k, Lengths(fs));
    SumAdd(seen, k, Allocations(fs));
  }

  lemma LimitHasReason(fs: map<Key, Node>, root: Key, faulty: bool, entryLimit: nat, seen: set<Key>,
                       entered: map<Key, Place>, count: nat, counted: Census, failures: Census, due: Census)
    requires TreeOk(fs, root, seen, entered)
    requires KindsOk(fs, seen, counted, failures, due) && CountOk(count, counted, failures)
    ensures count >= entryLimit ==> Reason(fs, root, faulty, entryLimit, EntryLimit)
    ensures faulty ==>
      Reason(fs, root, faulty, entryLimit, TimeLimit) && Reason(fs, root, faulty, entryLimit, Unreadable)
  {
    hide Closed, EnteredOk, Reachable, LeadsTo, Total, KindsOk, CountOk;
    KindsSum(fs, seen, count, counted, failures, due);
    TotalIsWhole(fs, seen);
    SeenIsReachable(fs, root, seen);
  }

  /** A directory about to be entered, from an entry that nothing was entered from. */
  ghost predicate NewPlace(fs: map<Key, Node>, root: Key, seen: set<Key>, entered: map<Key, Place>, key: Key,
                           from: Option<Place>)
  {
    if from.None? then key == root && seen == {}
    else
      && from.value.0 in seen && LeadsTo(fs, root, from.value, key)
      && forall x :: x in entered ==> entered[x] != from.value
  }

  /** Directories entered since then were entered from directories that were new, but for one. */
  ghost predicate EnteredFrom(entered0: map<Key, Place>, seen0: set<Key>, entered: map<Key, Place>,
                              from: Option<Place>)
  {
    forall x :: x in entered ==>
      (x in entered0 && entered[x] == entered0[x]) || entered[x].0 !in seen0 || Some(entered[x]) == from
  }

  /** What is known of the entry that comes up next. */
  lemma KnownPlace(fs: map<Key, Node>, root: Key, seen: set<Key>, entered: map<Key, Place>, key: Key, n: Name,
                   depth: nat, todo: set<Name>, faulty: bool, entryLimit: nat)
    requires TreeOk(fs, root, seen, entered) && key in fs && fs[key].Directory? && n in fs[key].entries && n in todo
    requires key in seen && ReachableIn(fs, root, key, depth) && Untouched(entered, key, todo)
    ensures var k := fs[key].entries[n];
      && k in fs && (faulty ==> Reason(fs, root, faulty, entryLimit, Unreadable))
      && (!fs[k].Symlink? && k.device != root.device ==> Reason(fs, root, faulty, entryLimit, OtherFilesystem))
      && (Counts(fs, root.device, k) ==> Reachable(fs, root, k) && ReachableIn(fs, root, k, depth + 1))
      && NewPlace(fs, root, seen, entered, k, Some((key, n)))
    ensures Untouched(entered, key, todo - {n}) && EnteredLater(entered, seen, entered, key)
  {
    hide AllReachable, EnteredOk;
    var k := fs[key].entries[n];
    assert Reachable(fs, root, key);
    assert LeadsTo(fs, root, (key, n), k);
    if Counts(fs, root.device, k) {
      assert Child(fs, root.device, key, k);
      assert ReachableIn(fs, root, k, depth + 1);
      assert Reachable(fs, root, k);
    }
    assert !fs[k].Symlink? && k.device != root.device ==> CrossesDevices(fs, root, k);
    hide Reachable, LeadsTo, CrossesDevices, Closed;
  }

  lemma DepthHasReason(fs: map<Key, Node>, root: Key, faulty: bool, entryLimit: nat, key: Key)
    requires root in fs && key in fs && fs[key].Directory? && ReachableIn(fs, root, key, DEPTH_LIMIT + 1)
    ensures Reason(fs, root, faulty, entryLimit, DepthLimit)
  {
    assert TooDeep(fs, root, key);
  }

  lemma IsReachable(fs: map<Key, Node>, root: Key, k: Key, steps: nat)
    requires ReachableIn(fs, root, k, steps)
    ensures Reachable(fs, root, k)
  {
    hide ReachableIn;
  }

  /** A directory that was seen before is in two places. */
  lemma DirectoryHasReason(fs: map<Key, Node>, root: Key, faulty: bool, entryLimit: nat, seen: set<Key>,
                           entered: map<Key, Place>, key: Key, depth: nat, from: Option<Place>)
    requires TreeOk(fs, root, seen, entered) && key in fs && fs[key].Directory? && ReachableIn(fs, root, key, depth)
    requires NewPlace(fs, root, seen, entered, key, from)
    ensures Reachable(fs, root, key) && seen <= fs.Keys
    ensures if from.None? then key == root else from.value.0 in seen && LeadsTo(fs, root, from.value, key)
    ensures faulty ==> Reason(fs, root, faulty, entryLimit, Unreadable) && Reason(fs, root, faulty, entryLimit, Changed)
    ensures key in seen ==> Reason(fs, root, faulty, entryLimit, AlreadyVisited)
  {
    hide Reachable, ReachableIn, LeadsTo, Closed, AllReachable, ReachableFiles, ReachableDirectories;
    IsReachable(fs, root, key, depth);
    if key in seen {
      assert key != root ==> LeadsTo(fs, root, entered[key], key) && entered[key] != from.value;
      assert Shared(fs, root, key);
    }
  }

  lemma NothingEntered(entered: map<Key, Place>, seen: set<Key>, key: Key, from: Option<Place>)
    ensures EnteredLater(entered, seen, entered, key) && EnteredFrom(entered, seen, entered, from)
  {
  }

  lemma EnteredBelow(entered0: map<Key, Place>, seen0: set<Key>, entered: map<Key, Place>, key: Key, n: Name,
                     todo: set<Name>)
    requires EnteredFrom(entered0, seen0, entered, Some((key, n))) && Untouched(entered0, key, todo) && key in seen0
    ensures Untouched(entered, key, todo - {n}) && EnteredLater(entered0, seen0, entered, key)
  {
  }

  lemma EnteredTwice(a: map<Key, Place>, seenA: set<Key>, b: map<Key, Place>, seenB: set<Key>, c: map<Key, Place>,
                     key: Key)
    requires EnteredLater(a, seenA, b, key) && EnteredLater(b, seenB, c, key) && seenA <= seenB
    ensures EnteredLater(a, seenA, c, key)
  {
  }

  lemma EnteredHere(fs: map<Key, Node>, root: Key, seen0: set<Key>, entered0: map<Key, Place>, key: Key,
                    from: Option<Place>, names: set<Name>)
    requires TreeOk(fs, root, seen0, entered0) && NewPlace(fs, root, seen0, entered0, key, from) && key !in seen0
    ensures var entered := if from.None? then entered0 else entered0[key := from.value];
            Untouched(entered, key, names) && EnteredFrom(entered0, seen0, entered, from)
  {
    hide LeadsTo, Closed, AllReachable;
  }

  lemma EnteredInside(entered0: map<Key, Place>, seen0: set<Key>, entered1: map<Key, Place>, entered: map<Key, Place>,
                      key: Key, from: Option<Place>)
    requires EnteredFrom(entered0, seen0, entered1, from)
    requires EnteredLater(entered1, seen0 + {key}, entered, key) && key !in seen0
    ensures EnteredFrom(entered0, seen0, entered, from)
  {
  }

  lemma NothingSeen(fs: map<Key, Node>, root: Key)
    requires Closed(fs) && root in fs
    ensures TreeOk(fs, root, {}, map[]) && TallyOk(fs, {}, true, 0, 0, 0)
    ensures ReachableIn(fs, root, root, 0) && NewPlace(fs, root, {}, map[], root, None)
  {
    hide KindsOk;
  }

  lemma NothingMet(fs: map<Key, Node>, counted: Census, failures: Census, due: Census)
    requires IsZero(counted) && IsZero(failures) && IsZero(due)
    ensures KindsOk(fs, {}, counted, failures, due)
  {
    hide Total;
  }

  lemma NothingCounted(counted: Census, failures: Census)
    requires IsZero(counted) && IsZero(failures)
    ensures CountOk(0, counted, failures)
  {
  }

  lemma NothingReported(fs: map<Key, Node>, root: Key, faulty: bool, entryLimit: nat, failures: Census)
    requires root in fs && IsZero(failures)
    ensures ReportOk(fs, root, faulty, entryLimit, true, false, [], 0, failures, false, true)
    ensures fs[root].Symlink? || faulty ==> Reason(fs, root, faulty, entryLimit, Unreadable)
    ensures !fs[root].Directory? ==> Reason(fs, root, faulty, entryLimit, NotADirectory)
  {
    hide ReachableFiles, ReachableDirectories, EntryCounts, Shared, TooDeep, CrossesDevices, CutReason;
  }

  /** The counter that an entry without a problem goes to, when it is not a directory. */
  predicate CountsOnce(node: Node, known: bool, files0: nat, hardlinks0: nat, symlinks0: nat, others0: nat,
                       files: nat, hardlinks: nat, symlinks: nat, others: nat)
  {
    && files == files0 + (if node.File? && !known then 1 else 0)
    && hardlinks == hardlinks0 + (if node.File? && known then 1 else 0)
    && symlinks == symlinks0 + (if node.Symlink? then 1 else 0)
    && others == others0 + (if node.Special? then 1 else 0)
  }

  class Walk {
    const fs: map<Key, Node>
    const entryLimit: nat
    const faulty: bool

    var found: Option<bool>
    var complete: bool
    var logical: nat
    var onDisk: nat
    var files: nat
    var entriesSeen: nat
    var hardlinks: nat
    var symlinks: nat
    var others: nat
    var errors: seq<Problem>
    var additional: nat
    var seen: set<Key>
    var stopped: bool
    /** Entries that were directories, and entries that ended in an error, by kind. */
    ghost var directories: nat
    ghost var failures: Census
    /** Entries of the directories seen that have not come up yet. */
    ghost var due: Census
    ghost var entered: map<Key, Place>
    /** Part of the tree may be unseen; no sum was too large. */
    ghost var cut: bool
    ghost var exact: bool

    constructor (fs: map<Key, Node>, entryLimit: nat, faulty: bool)
      requires Closed(fs)
      ensures this.fs == fs && this.entryLimit == entryLimit && this.faulty == faulty && Fresh()
    {
      this.fs, this.entryLimit, this.faulty := fs, entryLimit, faulty;
      found, complete, stopped := None, true, false;
      logical, onDisk, files, entriesSeen, hardlinks, symlinks, others := 0, 0, 0, 0, 0, 0, 0;
      errors, additional, seen := [], 0, {};
      directories, failures, due, entered := 0, Census(0, 0, 0, 0), Census(0, 0, 0, 0), map[];
      cut, exact := false, true;
    }

    ghost predicate Fresh()
      reads this
    {
      && Closed(fs) && found == None && complete && !stopped && errors == [] && additional == 0 && seen == {}
      && entriesSeen == logical == onDisk == files == hardlinks == symlinks == others == directories == 0
      && IsZero(failures) && IsZero(due) && entered == map[]
      && !cut && exact
    }

    ghost predicate Valid(root: Key)
      reads this
    {
      && root in fs && TreeOk(fs, root, seen, entered) && TallyOk(fs, seen, exact, logical, onDisk, files)
      && entriesSeen <= entryLimit
      && CountOk(entriesSeen, Census(directories, files + hardlinks, symlinks, others), failures)
      && KindsOk(fs, seen, Census(directories, files + hardlinks, symlinks, others), failures, due)
      && ReportOk(fs, root, faulty, entryLimit, complete, stopped, errors, additional, failures, cut, exact)
    }

    /** A question to the file system. */
    method Ask() returns (answered: bool)
      ensures !answered ==> faulty
    {
      answered := *;
      answered := answered || !faulty;
    }

    method Error(problem: Problem, ghost root: Key)
      requires Valid(root) && Reason(fs, root, faulty, entryLimit, problem)
      modifies this`complete, this`errors, this`additional, this`cut, this`exact
      ensures Valid(root) && !complete
      ensures Listed(old(errors), old(additional), problem, errors, additional)
      ensures Marked(old(cut), old(exact), problem, cut, exact)
    {
      hide Reason, TreeOk, TallyOk, KindsOk, CountOk, ReportOk, Listed, Marked;
      ghost var cut1, exact1 := cut || Cuts(problem), exact && problem != TooLarge;
      ReportMore(fs, root, faulty, entryLimit, complete, stopped, errors, additional, failures, cut, exact, problem,
                 cut1, exact1);
      TallyWeaker(fs, seen, exact, logical, onDisk, files, exact1);
      complete := false;
      if |errors| < ERROR_LIMIT {
        errors := errors + [problem];
      } else {
        additional := additional + 1;
      }
      cut, exact := cut1, exact1;
    }

    /** An entry that ends in an error. */
    method FailEntry(problem: Problem, ghost root: Key, ghost kind: Kind)
      requires Valid(root) && Reason(fs, root, faulty, entryLimit, problem) && entriesSeen < entryLimit
      requires One(kind).Within(due)
      modifies this`complete, this`errors, this`additional, this`entriesSeen, this`failures, this`due,
               this`cut, this`exact
      ensures Marked(old(cut), old(exact), problem, cut, exact)
      ensures Valid(root) && !complete && entriesSeen == old(entriesSeen) + 1 && due == old(due).Minus(One(kind))
    {
      hide Reason, TreeOk, TallyOk, KindsOk, CountOk, ReportOk;
      Error(problem, root);
      KindsMet(fs, seen, entriesSeen, Census(directories, files + hardlinks, symlinks, others), failures, due, kind);
      ReportLater(fs, root, faulty, entryLimit, stopped, errors, additional, failures, cut, exact, stopped,
                  failures.Plus(One(kind)));
      entriesSeen, failures, due := entriesSeen + 1, failures.Plus(One(kind)), due.Minus(One(kind));
    }

    method WithinBudget(ghost root: Key) returns (ok: bool)
      requires Valid(root)
      modifies this`complete, this`errors, this`additional, this`stopped, this`cut, this`exact
      ensures Valid(root) && stopped == !ok && (!cut ==> ok && !old(cut)) && exact == old(exact)
      ensures (complete ==> ok && old(complete)) && (old(cut) ==> cut)
      ensures ok ==> complete == old(complete) && cut == old(cut) && entriesSeen < entryLimit
    {
      hide Reason, TreeOk, TallyOk, KindsOk, CountOk;
      if stopped {
        return false;
      }
      LimitHasReason(fs, root, faulty, entryLimit, seen, entered, entriesSeen,
                     Census(directories, files + hardlinks, symlinks, others), failures, due);
      var inTime := Ask();
      var reason := if entriesSeen >= entryLimit then Some(EntryLimit) else if !inTime then Some(TimeLimit) else None;
      if reason.Some? {
        Error(reason.value, root);
        ReportLater(fs, root, faulty, entryLimit, stopped, errors, additional, failures, cut, exact, true, failures);
        stopped := true;
      }
      return !stopped;
    }

    /** A directory that is new to the walk. */
    method SeeDirectory(key: Key, ghost root: Key, ghost from: Option<Place>)
      requires Valid(root) && key in fs && fs[key].Directory? && key !in seen && Reachable(fs, root, key)
      requires if from.None? then key == root else from.value.0 in seen && LeadsTo(fs, root, from.value, key)
      modifies this`seen, this`due, this`entered
      ensures Valid(root) && seen == old(seen) + {key}
      ensures due == old(due).Plus(CensusOf(fs, fs[key].entries, fs[key].entries.Keys))
      ensures entered == if from.None? then old(entered) else old(entered)[key := from.value]
    {
      hide Reachable, LeadsTo, TreeOk, TallyOk, KindsOk, CountOk, ReportOk, CensusOf;
      TreeDirectory(fs, root, seen, entered, key, from);
      TallyDirectory(fs, seen, exact, logical, onDisk, files, key);
      KindsSeen(fs, seen, Census(directories, files + hardlinks, symlinks, others), failures, due, key);
      seen := seen + {key};
      due := due.Plus(CensusOf(fs, fs[key].entries, fs[key].entries.Keys));
      if from.Some? {
        entered := entered[key := from.value];
      }
    }

    /** An entry that is counted by its kind and not looked into. */
    method CountEntry(kind: Kind, ghost root: Key)
      requires Valid(root) && entriesSeen < entryLimit && One(kind).Within(due)
      modifies this`entriesSeen, this`hardlinks, this`symlinks, this`others, this`directories, this`due
      ensures Valid(root) && entriesSeen == old(entriesSeen) + 1 && due == old(due).Minus(One(kind))
      ensures Census(directories, hardlinks, symlinks, others)
           == Census(old(directories), old(hardlinks), old(symlinks), old(others)).Plus(One(kind))
    {
      hide TreeOk, TallyOk, KindsOk, CountOk, ReportOk;
      KindsMet(fs, seen, entriesSeen, Census(directories, files + hardlinks, symlinks, others), failures, due, kind);
      entriesSeen, due := entriesSeen + 1, due.Minus(One(kind));
      match kind {
        case Folder => directories := directories + 1;
        case Plain => hardlinks := hardlinks + 1;
        case Link => symlinks := symlinks + 1;
        case Odd => others := others + 1;
      }
    }

    /** A regular file that is new to the walk, when its sizes fit. */
    method AddFile(key: Key, ghost root: Key)
      requires Valid(root) && key in fs && fs[key].File? && key !in seen && Reachable(fs, root, key)
      requires entriesSeen < entryLimit && One(Plain).Within(due)
      requires Fits(logical, onDisk, fs[key].length, fs[key].blocks)
      modifies this`entriesSeen, this`due, this`seen, this`logical, this`onDisk, this`files
      ensures Valid(root) && seen == old(seen) + {key} && files == old(files) + 1
      ensures entriesSeen == old(entriesSeen) + 1 && due == old(due).Minus(One(Plain))
    {
      hide Reachable, TreeOk, TallyOk, KindsOk, CountOk, ReportOk, Fits;
      TreeFile(fs, root, seen, entered, key);
      TallyFile(fs, seen, exact, logical, onDisk, files, key);
      KindsSeen(fs, seen, Census(directories, files + hardlinks, symlinks, others), failures, due, key);
      seen := seen + {key};
      KindsMet(fs, seen, entriesSeen, Census(directories, files + hardlinks, symlinks, others), failures, due, Plain);
      logical, onDisk, files := logical + fs[key].length, onDisk + fs[key].blocks * 512, files + 1;
      entriesSeen, due := entriesSeen + 1, due.Minus(One(Plain));
    }

    /** A regular file that is new to the walk; its sizes are added with checks. */
    method SeeFile(key: Key, ghost root: Key)
      requires Valid(root) && key in fs && fs[key].File? && key !in seen && Reachable(fs, root, key)
      requires entriesSeen < entryLimit && One(Plain).Within(due)
      modifies this`complete, this`errors, this`additional, this`entriesSeen, this`failures, this`due, this`seen,
               this`logical, this`onDisk, this`files, this`cut, this`exact
      ensures Valid(root) && seen == old(seen) + {key}
      ensures entriesSeen == old(entriesSeen) + 1 && due == old(due).Minus(One(Plain))
      ensures var fits := Fits(old(logical), old(onDisk), fs[key].length, fs[key].blocks);
        && (complete <==> old(complete) && fits) && (exact <==> old(exact) && fits) && cut == old(cut)
        && files == old(files) + (if fits then 1 else 0)
    {
      hide Reachable, Reason, TreeOk, TallyOk, KindsOk, CountOk, ReportOk, Fits;
      if Fits(logical, onDisk, fs[key].length, fs[key].blocks) {
        AddFile(key, root);
        return;
      }
      SizeHasReason(fs, root, faulty, entryLimit, seen, entered, key, exact, logical, onDisk, files);
      FailEntry(TooLarge, root, Plain);
      TreeFile(fs, root, seen, entered, key);
      TallyFile(fs, seen, exact, logical, onDisk, files, key);
      KindsSeen(fs, seen, Census(directories, files + hardlinks, symlinks, others), failures, due, key);
      seen := seen + {key};
    }

    /** An entry that is neither a directory nor a symlink. */
    method Leaf(key: Key, n: Name, device: nat, ghost root: Key, ghost todo: set<Name>, ghost seen0: set<Key>,
                ghost count0: nat)
      requires Valid(root) && key in fs && fs[key].Directory? && n in fs[key].entries && n in todo
      requires fs[key].entries[n] in fs && entriesSeen < entryLimit
      requires var k := fs[key].entries[n];
        && One(KindOf(fs[k])).Within(due) && ((fs[k].File? && Reachable(fs, root, k)) || fs[k].Special?)
      requires !cut ==> Partly(fs, device, key, todo, seen0, count0, seen, entriesSeen)
      modifies this
      ensures Valid(root) && old(seen) <= seen && found == old(found)
      ensures due == old(due).Minus(One(KindOf(fs[fs[key].entries[n]]))) && entered == old(entered)
      ensures cut == old(cut) && (exact ==> old(exact)) && (complete ==> old(complete))
      ensures !cut ==> !old(cut) && Partly(fs, device, key, todo - {n}, seen0, count0, seen, entriesSeen)
      ensures var k := fs[key].entries[n];
        exact ==>
          CountsOnce(fs[k], k in old(seen), old(files), old(hardlinks), old(symlinks), old(others),
                     files, hardlinks, symlinks, others)
    {
      hide Valid, Reachable, Partly, Fits;
      var k := fs[key].entries[n];
      if fs[k].File? && k !in seen {
        if !cut {
          PartlyFile(fs, device, key, todo, n, seen0, count0, seen, entriesSeen);
        }
        SeeFile(k, root);
        return;
      }
      if !cut {
        PartlySkip(fs, device, key, todo, n, seen0, count0, seen, entriesSeen);
      }
      CountEntry(if fs[k].File? then Plain else Odd, root);
    }

    /** One entry of a listing. */
    method Entry(key: Key, n: Name, device: nat, depth: nat, ghost root: Key, ghost todo: set<Name>,
                 ghost seen0: set<Key>, ghost count0: nat)
        returns (more: bool)
      requires Valid(root) && key in fs && fs[key].Directory? && n in fs[key].entries && n in todo && key in seen
      requires depth <= DEPTH_LIMIT && device == root.device && ReachableIn(fs, root, key, depth)
      requires entriesSeen < entryLimit && Untouched(entered, key, todo)
      requires AllDue(fs, fs[key].entries, todo, due)
      requires !cut ==> Partly(fs, device, key, todo, seen0, count0, seen, entriesSeen)
      modifies this
      ensures Valid(root) && old(seen) <= seen && found == old(found) && fs[key].entries[n] in fs
      ensures UsedOne(old(due), KindOf(fs[fs[key].entries[n]]), due)
      ensures EnteredLater(old(entered), old(seen), entered, key) && Untouched(entered, key, todo - {n})
      ensures (!more ==> cut) && (exact ==> old(exact)) && (complete ==> old(complete))
      ensures !cut ==> !old(cut) && Partly(fs, device, key, todo - {n}, seen0, count0, seen, entriesSeen)
      ensures var k := fs[key].entries[n];
        more && exact && (fs[k].Symlink? || (k.device == device && !fs[k].Directory?)) ==>
          CountsOnce(fs[k], k in old(seen), old(files), old(hardlinks), old(symlinks), old(others),
                     files, hardlinks, symlinks, others)
      decreases DEPTH_LIMIT + 1 - depth, 1
    {
      hide Reachable, ReachableIn, Partly, Wholly, TreeOk, TallyOk, KindsOk, CountOk, ReportOk, AllDue, UsedOne,
           Reason, LeadsTo, Untouched, EnteredLater, NewPlace, EnteredFrom;
      KnownPlace(fs, root, seen, entered, key, n, depth, todo, faulty, entryLimit);
      IsDue(fs, fs[key].entries, todo, n, due);
      UsedThat(due, KindOf(fs[fs[key].entries[n]]));
      var readable := Ask();
      var k := fs[key].entries[n];
      if !cut && !Counts(fs, device, k) {
        PartlySkip(fs, device, key, todo, n, seen0, count0, seen, entriesSeen);
      }
      if !readable || (!fs[k].Symlink? && k.device != device) {
        FailEntry(if !readable then Unreadable else OtherFilesystem, root, KindOf(fs[k]));
        return readable;
      }
      if fs[k].Symlink? {
        CountEntry(Link, root);
      } else if fs[k].Directory? {
        Descend(key, n, device, depth, root, todo, seen0, count0);
      } else {
        Leaf(key, n, device, root, todo, seen0, count0);
      }
      return true;
    }

    /** An entry that is a directory. */
    method Descend(key: Key, n: Name, device: nat, depth: nat, ghost root: Key, ghost todo: set<Name>,
                   ghost seen0: set<Key>, ghost count0: nat)
      requires Valid(root) && key in fs && fs[key].Directory? && n in fs[key].entries && n in todo && key in seen
      requires depth <= DEPTH_LIMIT && device == root.device && entriesSeen < entryLimit
      requires var k := fs[key].entries[n];
        && k in fs && fs[k].Directory? && k.device == device && ReachableIn(fs, root, k, depth + 1)
        && NewPlace(fs, root, seen, entered, k, Some((key, n)))
      requires One(Folder).Within(due) && Untouched(entered, key, todo)
      requires !cut ==> Partly(fs, device, key, todo, seen0, count0, seen, entriesSeen)
      modifies this
      ensures Valid(root) && old(seen) <= seen && found == old(found) && UsedOne(old(due), Folder, due)
      ensures EnteredLater(old(entered), old(seen), entered, key) && Untouched(entered, key, todo - {n})
      ensures (exact ==> old(exact)) && (complete ==> old(complete))
      ensures !cut ==> !old(cut) && Partly(fs, device, key, todo - {n}, seen0, count0, seen, entriesSeen)
      decreases DEPTH_LIMIT + 1 - depth, 0
    {
      hide Reachable, ReachableIn, Partly, Wholly, TreeOk, TallyOk, KindsOk, CountOk, ReportOk, UsedOne,
           Untouched, EnteredLater, NewPlace, EnteredFrom;
      var k := fs[key].entries[n];
      ghost var before, entered0, due0 := seen, entered, due;
      CountEntry(Folder, root);
      Directory(k, device, depth + 1, root, Some((key, n)));
      EnteredBelow(entered0, before, entered, key, n, todo);
      UsedNoMore(due0, Folder, due);
      if !cut {
        if k in before {
          PartlySkip(fs, device, key, todo, n, seen0, count0, before, old(entriesSeen));
        } else {
          PartlyDirectory(fs, device, key, todo, n, seen0, count0, before, old(entriesSeen), seen, entriesSeen);
        }
      }
    }

    /** The loop of `directory`; a listing that fails may also end early. */
    method Entries(key: Key, device: nat, depth: nat, ghost root: Key, ghost seen0: set<Key>, ghost count0: nat)
      requires Valid(root) && key in fs && fs[key].Directory? && key in seen
      requires depth <= DEPTH_LIMIT && device == root.device && ReachableIn(fs, root, key, depth)
      requires AllDue(fs, fs[key].entries, fs[key].entries.Keys, due)
      requires Untouched(entered, key, fs[key].entries.Keys)
      requires !cut ==> Partly(fs, device, key, fs[key].entries.Keys, seen0, count0, seen, entriesSeen)
      modifies this
      ensures Valid(root) && old(seen) <= seen && found == old(found)
      ensures old(due).Within(due.Plus(CensusOf(fs, fs[key].entries, fs[key].entries.Keys)))
      ensures EnteredLater(old(entered), old(seen), entered, key)
      ensures (exact ==> old(exact)) && (complete ==> old(complete))
      ensures !cut ==> !old(cut) && Wholly(fs, device, key, seen0, count0, seen, entriesSeen)
      decreases DEPTH_LIMIT + 1 - depth, 2
    {
      hide Valid, Reachable, ReachableIn, Partly, Wholly, Reason, Untouched, EnteredLater, CensusOf, AllDue, LeftOver,
           UsedOne;
      ListingAtFirst(fs, fs[key].entries, due);
      ListingDone(fs, fs[key].entries, fs[key].entries.Keys, due, due);
      var todo := fs[key].entries.Keys;
      NothingEntered(entered, seen, key, None);
      while todo != {}
        invariant Valid(root) && old(seen) <= seen && found == old(found) && todo <= fs[key].entries.Keys
        invariant AllDue(fs, fs[key].entries, todo, due)
        invariant LeftOver(fs, fs[key].entries, todo, old(due), due)
        invariant old(due).Within(due.Plus(CensusOf(fs, fs[key].entries, fs[key].entries.Keys)))
        invariant EnteredLater(old(entered), old(seen), entered, key) && Untouched(entered, key, todo)
        invariant (exact ==> old(exact)) && (complete ==> old(complete))
        invariant !cut ==> !old(cut) && Partly(fs, device, key, todo, seen0, count0, seen, entriesSeen)
        decreases |todo|
      {
        var ok := WithinBudget(root);
        if !ok {
          return;
        }
        var n :| n in todo;
        ghost var before, entered0, due0 := seen, entered, due;
        var more := Entry(key, n, device, depth, root, todo, seen0, count0);
        EnteredTwice(old(entered), old(seen), entered0, before, entered, key);
        ListingStep(fs, fs[key].entries, todo, n, old(due), due0, due);
        ListingDone(fs, fs[key].entries, todo - {n}, old(due), due);
        todo := todo - {n};
        // A listing that fails may also end.
        if !more {
          var ended: bool := *;
          if ended {
            return;
          }
        }
      }
      if !cut {
        PartlyDone(fs, device, key, seen0, count0, seen, entriesSeen);
      }
    }

    /** The part of `directory` before its loop; a directory that is entered is new. */
    method Enter(key: Key, device: nat, depth: nat, ghost root: Key, ghost from: Option<Place>) returns (ok: bool)
      requires Valid(root) && key in fs && depth <= DEPTH_LIMIT + 1 && device == root.device == key.device
      requires fs[key].Directory? && ReachableIn(fs, root, key, depth) && NewPlace(fs, root, seen, entered, key, from)
      modifies this`complete, this`errors, this`additional, this`stopped, this`seen, this`due, this`entered, this`cut,
               this`exact
      ensures Valid(root) && old(seen) <= seen && old(due).Within(due) && exact == old(exact)
      ensures (complete ==> old(complete)) && (!cut ==> !old(cut))
      ensures EnteredFrom(old(entered), old(seen), entered, from)
      ensures !ok && !cut ==> key in old(seen) && seen == old(seen)
      ensures ok ==>
        && depth <= DEPTH_LIMIT && key !in old(seen) && seen == old(seen) + {key} && cut == old(cut)
        && Untouched(entered, key, fs[key].entries.Keys)
        && due == old(due).Plus(CensusOf(fs, fs[key].entries, fs[key].entries.Keys))
    {
      hide Reachable, ReachableIn, TreeOk, TallyOk, KindsOk, CountOk, ReportOk, CensusOf, Reason, Untouched,
           EnteredLater, LeadsTo, NewPlace, EnteredFrom;
      NothingEntered(entered, seen, key, from);
      ok := WithinBudget(root);
      if !ok {
        return;
      }
      DirectoryHasReason(fs, root, faulty, entryLimit, seen, entered, key, depth, from);
      if depth > DEPTH_LIMIT {
        DepthHasReason(fs, root, faulty, entryLimit, key);
      }
      var readable := Ask();
      var same := Ask();
      var problem :=
        if depth > DEPTH_LIMIT then Some(DepthLimit)
        else if !readable then Some(Unreadable)
        else if !same then Some(Changed)
        else if key in seen then Some(AlreadyVisited)
        else None;
      if problem.Some? {
        Error(problem.value, root);
        return false;
      }
      EnteredHere(fs, root, seen, entered, key, from, fs[key].entries.Keys);
      MoreDue(due, CensusOf(fs, fs[key].entries, fs[key].entries.Keys));
      SeeDirectory(key, root, from);
    }

    /** `directory` */
    method Directory(key: Key, device: nat, depth: nat, ghost root: Key, ghost from: Option<Place>)
      requires Valid(root) && key in fs && depth <= DEPTH_LIMIT + 1 && device == root.device == key.device
      requires fs[key].Directory? && ReachableIn(fs, root, key, depth) && NewPlace(fs, root, seen, entered, key, from)
      modifies this
      ensures Valid(root) && old(seen) <= seen && found == old(found) && old(due).Within(due)
      ensures EnteredFrom(old(entered), old(seen), entered, from)
      ensures (exact ==> old(exact)) && (complete ==> old(complete)) && (!cut ==> !old(cut))
      ensures !cut && key !in old(seen) ==>
        Wholly(fs, device, key, old(seen), old(entriesSeen), seen, entriesSeen)
      ensures !cut && key in old(seen) ==> seen == old(seen) && entriesSeen == old(entriesSeen)
      decreases DEPTH_LIMIT + 1 - depth, 3
    {
      hide Reachable, ReachableIn, Partly, Wholly, TreeOk, TallyOk, KindsOk, CountOk, ReportOk, CensusOf, AllDue,
           Untouched, EnteredLater, NewPlace, EnteredFrom;
      var ok := Enter(key, device, depth, root, from);
      if !ok {
        return;
      }
      ListingIsDue(fs, fs[key].entries, old(due));
      SeenKnown(root);
      var readable := Ask();
      if !readable {
        MoreDue(old(due), CensusOf(fs, fs[key].entries, fs[key].entries.Keys));
        Error(Unreadable, root);
        return;
      }
      if !cut {
        PartlyAtFirst(fs, device, key, old(seen), old(entriesSeen));
      }
      ghost var entered0 := entered;
      Entries(key, device, depth, root, old(seen), old(entriesSeen));
      EnteredInside(old(entered), old(seen), entered0, entered, key, from);
      DirectoryDone(CensusOf(fs, fs[key].entries, fs[key].entries.Keys), old(due), due);
    }

    lemma SeenKnown(root: Key)
      requires Valid(root)
      ensures seen <= fs.Keys && (faulty ==> Reason(fs, root, faulty, entryLimit, Unreadable))
    {
      hide TreeOk, KindsOk, CountOk, ReportOk;
    }

    /** `scan` once the path leads to something. */
    method Existing(root: Key, readable: bool)
      requires Fresh() && root in fs && (!readable ==> faulty)
      modifies this
      ensures Valid(root) && found == if readable && !fs[root].Symlink? then Some(true) else None
      ensures !readable || fs[root].Symlink? ==> cut && errors == [Unreadable] && additional == 0
      ensures !fs[root].Directory? ==> cut
      ensures readable && !fs[root].Directory? && !fs[root].Symlink? ==> errors == [NotADirectory] && additional == 0
      ensures !cut ==> Wholly(fs, root.device, root, {}, 0, seen, entriesSeen)
    {
      hide Reachable, ReachableIn, Wholly, TreeOk, TallyOk, NewPlace, EnteredFrom, KindsOk, CountOk, ReportOk, Reason;
      NothingSeen(fs, root);
      NothingMet(fs, Census(directories, files + hardlinks, symlinks, others), failures, due);
      NothingCounted(Census(directories, files + hardlinks, symlinks, others), failures);
      NothingReported(fs, root, faulty, entryLimit, failures);
      if !readable || fs[root].Symlink? {
        Error(Unreadable, root);
      } else {
        found := Some(true);
        if fs[root].Directory? {
          Directory(root, root.device, 0, root, None);
        } else {
          Error(NotADirectory, root);
        }
      }
    }

    /**
      `scan` on a path that leads to `path`, or to nothing. Any walk counts no more than the
      files that can be reached, each once. Without faults, and with a tree within the limits, it
      counts exactly those, whatever other file systems and shared directories it met and
      reported; and of a countable tree it reports nothing.
     */
    method Scan(path: Option<Key>)
      requires Fresh()
      requires path.Some? ==> path.value in fs
      modifies this
      ensures |errors| <= ERROR_LIMIT && (complete <==> errors == [] && additional == 0)
      ensures entriesSeen <= entryLimit
      ensures CountOk(entriesSeen, Census(directories, files + hardlinks, symlinks, others), failures)
      ensures path.None? ==>
        && files == logical == onDisk == 0
        && (if found == Some(false) then complete else found == None && errors == [Unreadable] && faulty)
      ensures path.Some? ==> found == Some(true) || (found == None && errors == [Unreadable])
      ensures path.Some? && !faulty ==> (found == Some(true) <==> !fs[path.value].Symlink?)
      ensures path.Some? && found == Some(true) && !fs[path.value].Directory? ==> errors == [NotADirectory]
      ensures path.Some? ==>
        && var all := ReachableFiles(fs, path.value);
        && files <= |all| && logical <= Sum(all, Lengths(fs)) && onDisk <= Sum(all, Allocations(fs))
        && Census(directories, files + hardlinks, symlinks, others)
             .Within(Total(fs, ReachableDirectories(fs, path.value)))
      ensures path.Some? && (complete || (!faulty && WithinLimits(fs, path.value, entryLimit))) ==>
        && var all := ReachableFiles(fs, path.value);
        && files == |all| && logical == Sum(all, Lengths(fs)) && onDisk == Sum(all, Allocations(fs))
        && entriesSeen == Sum(ReachableDirectories(fs, path.value), EntryCounts(fs))
        && Census(directories, files + hardlinks, symlinks, others).Plus(failures)
             == Total(fs, ReachableDirectories(fs, path.value))
      ensures path.Some? && complete ==> IsZero(failures)
      ensures path.Some? ==> Explained(fs, path.value, faulty, entryLimit, errors)
      ensures path.Some? && !faulty && Countable(fs, path.value, entryLimit) ==> complete && found == Some(true)
    {
      hide Valid, Reason, Countable, WithinLimits, ReachableFiles, ReachableDirectories, Lengths, Allocations,
           EntryCounts, Total, CountOk;
      NothingCounted(Census(directories, files + hardlinks, symlinks, others), failures);
      var readable := Ask();
      if path.None? {
        if readable {
          found := Some(false);
        } else {
          complete, errors := false, [Unreadable];
        }
        return;
      }
      Existing(path.value, readable);
      Facts(path.value);
      Finish(path.value);
    }

    lemma Facts(root: Key)
      requires Valid(root)
      ensures |errors| <= ERROR_LIMIT && (complete <==> errors == [] && additional == 0)
      ensures entriesSeen <= entryLimit && Explained(fs, root, faulty, entryLimit, errors)
      ensures CountOk(entriesSeen, Census(directories, files + hardlinks, symlinks, others), failures)
      ensures complete ==> IsZero(failures)
    {
      hide TreeOk, TallyOk, KindsOk, CountOk, Explained, CutReason, Reason;
    }

    /** All entries are met when as many are met as there are. */
    lemma KindsOfWhole(root: Key)
      requires Valid(root)
      ensures var all := Total(fs, ReachableDirectories(fs, root));
        && Census(directories, files + hardlinks, symlinks, others).Within(all)
        && (entriesSeen == Sum(ReachableDirectories(fs, root), EntryCounts(fs)) ==>
              Census(directories, files + hardlinks, symlinks, others).Plus(failures) == all)
    {
      hide AtMost, Exactly, Reachable, EnteredOk, Closed, KindsOk, CountOk, Total, ReportOk, TallyOk;
      KindsOfTree(fs, root, seen, entriesSeen, Census(directories, files + hardlinks, symlinks, others), failures, due);
    }

    /** A walk that was not cut short has seen what can be reached; one that was had a reason. */
    lemma Finish(root: Key)
      requires Valid(root) && (!cut ==> Wholly(fs, root.device, root, {}, 0, seen, entriesSeen))
      ensures var all := ReachableFiles(fs, root);
        && files <= |all| && logical <= Sum(all, Lengths(fs)) && onDisk <= Sum(all, Allocations(fs))
        && Census(directories, files + hardlinks, symlinks, others).Within(Total(fs, ReachableDirectories(fs, root)))
        && (complete || (!faulty && WithinLimits(fs, root, entryLimit)) ==>
              && files == |all| && logical == Sum(all, Lengths(fs)) && onDisk == Sum(all, Allocations(fs))
              && entriesSeen == Sum(ReachableDirectories(fs, root), EntryCounts(fs))
              && Census(directories, files + hardlinks, symlinks, others).Plus(failures)
                   == Total(fs, ReachableDirectories(fs, root)))
      ensures !faulty && Countable(fs, root, entryLimit) ==> complete
    {
      hide Reason, CutReason, Reachable, LeadsTo, KindsOk, CountOk, Total, WithinLimits, Countable;
      KindsOfWhole(root);
      SumsOfFiles(fs, seen);
      SeenIsReachable(fs, root, seen);
      var some, all := Files(fs, seen), ReachableFiles(fs, root);
      if !faulty && WithinLimits(fs, root, entryLimit) {
        LimitsNoReason(fs, root, entryLimit);
      }
      if !cut {
        WholeTree(fs, root, seen, entriesSeen);
      }
      if !complete && !faulty && Countable(fs, root, entryLimit) {
        CountableHasNoReason(fs, root, entryLimit, errors[0]);
      }
      SumOfOnes(some, FileCounts(fs));
      SumOfOnes(all, FileCounts(fs));
      SumMonotone(some, all, FileCounts(fs));
    }
  }
}
