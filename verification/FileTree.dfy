/**
  File trees as the disk accounting walk of src/storage.rs sees them: what is reachable,
  what it adds up to, and what a walk has explored so far.
 */
module FileTree {
  import opened Sums

  const DEPTH_LIMIT := 64
  const U64 := 0x1_0000_0000_0000_0000

  /** Device and inode number. */
  datatype Key = Key(device: nat, inode: nat)

  type Name = string

  datatype Node =
    | Directory(entries: map<Name, Key>)
    | File(length: nat, blocks: nat)
    | Symlink
    | Special

  /** Every entry of every directory leads to a node. */
  predicate Closed(fs: map<Key, Node>) {
    forall d, n :: d in fs && fs[d].Directory? && n in fs[d].entries ==> fs[d].entries[n] in fs
  }

  // ----- What should be counted -----

  /** Entries that the walk looks into or counts: files and directories on the root's device. */
  predicate Counts(fs: map<Key, Node>, device: nat, k: Key) {
    k in fs && k.device == device && (fs[k].File? || fs[k].Directory?)
  }

  predicate Child(fs: map<Key, Node>, device: nat, d: Key, k: Key) {
    d in fs && fs[d].Directory? && k in fs[d].entries.Values && Counts(fs, device, k)
  }

  ghost predicate ReachableIn(fs: map<Key, Node>, root: Key, k: Key, steps: nat)
    decreases steps
  {
    if steps == 0 then k == root
    else exists d :: ReachableIn(fs, root, d, steps - 1) && Child(fs, root.device, d, k)
  }

  /** There is a path of directories from the root, on its device and through no symlink. */
  ghost predicate Reachable(fs: map<Key, Node>, root: Key, k: Key) {
    exists steps: nat :: ReachableIn(fs, root, k, steps)
  }

  ghost function ReachableFiles(fs: map<Key, Node>, root: Key): (s: set<Key>)
    ensures s <= fs.Keys
  {
    set k | k in fs && fs[k].File? && Reachable(fs, root, k)
  }

  ghost function ReachableDirectories(fs: map<Key, Node>, root: Key): (s: set<Key>)
    ensures s <= fs.Keys
  {
    set k | k in fs && fs[k].Directory? && Reachable(fs, root, k)
  }

  ghost function Lengths(fs: map<Key, Node>): (f: map<Key, nat>)
    ensures f.Keys == fs.Keys
  {
    map k | k in fs :: if fs[k].File? then fs[k].length else 0
  }

  ghost function Allocations(fs: map<Key, Node>): (f: map<Key, nat>)
    ensures f.Keys == fs.Keys
  {
    map k | k in fs :: if fs[k].File? then fs[k].blocks * 512 else 0
  }

  ghost function FileCounts(fs: map<Key, Node>): (f: map<Key, nat>)
    ensures f.Keys == fs.Keys
  {
    map k | k in fs :: if fs[k].File? then 1 else 0
  }

  ghost function EntryCounts(fs: map<Key, Node>): (f: map<Key, nat>)
    ensures f.Keys == fs.Keys
  {
    map k | k in fs :: if fs[k].Directory? then |fs[k].entries| else 0
  }

  ghost function Files(fs: map<Key, Node>, s: set<Key>): set<Key> {
    set k | k in s && k in fs && fs[k].File?
  }

  lemma SumUnion(s: set<Key>, t: set<Key>, f: map<Key, nat>)
    requires s !! t && s + t <= f.Keys
    ensures Sum(s + t, f) == Sum(s, f) + Sum(t, f)
    decreases |t|
  {
    if t == {} {
      assert s + t == s;
    } else {
      var k := Pick(t);
      SumUnion(s, t - {k}, f);
      assert s + t == (s + (t - {k})) + {k};
      SumAdd(s + (t - {k}), k, f);
      SumRemove(t, k, f);
    }
  }

  lemma {:induction false} SumSupport(s: set<Key>, t: set<Key>, f: map<Key, nat>)
    requires t <= s <= f.Keys && forall k :: k in s - t ==> f[k] == 0
    ensures Sum(s, f) == Sum(t, f)
    decreases |s|
  {
    if k :| k in s - t {
      SumRemove(s, k, f);
      SumSupport(s - {k}, t, f);
    } else {
      forall k | k in s ensures k in t {
        assert k !in s - t;
      }
      assert s == t;
    }
  }

  lemma {:induction false} SumOfOnes(s: set<Key>, f: map<Key, nat>)
    requires s <= f.Keys && forall k :: k in s ==> f[k] == 1
    ensures Sum(s, f) == |s|
    decreases |s|
  {
    if s != {} {
      SumOfOnes(s - {Pick(s)}, f);
    }
  }

  // ----- Entries by kind -----

  datatype Kind = Folder | Plain | Link | Odd

  function KindOf(node: Node): Kind {
    match node
    case Directory(_) => Folder
    case File(_, _) => Plain
    case Symlink => Link
    case Special => Odd
  }

  /** A number for each kind. */
  datatype Census = Census(folders: nat, plain: nat, links: nat, odd: nat) {
    predicate Within(that: Census) {
      folders <= that.folders && plain <= that.plain && links <= that.links && odd <= that.odd
    }

    function Plus(that: Census): Census {
      Census(folders + that.folders, plain + that.plain, links + that.links, odd + that.odd)
    }

    function Minus(that: Census): Census
      requires that.Within(this)
    {
      Census(folders - that.folders, plain - that.plain, links - that.links, odd - that.odd)
    }

    function Size(): nat {
      folders + plain + links + odd
    }
  }

  function One(kind: Kind): Census {
    Census(if kind == Folder then 1 else 0, if kind == Plain then 1 else 0, if kind == Link then 1 else 0,
           if kind == Odd then 1 else 0)
  }

  /** The entries among `names` that lead to a node of this kind. */
  function Named(fs: map<Key, Node>, entries: map<Name, Key>, names: set<Name>, kind: Kind): set<Name> {
    set n | n in names && n in entries && entries[n] in fs && KindOf(fs[entries[n]]) == kind
  }

  function CensusOf(fs: map<Key, Node>, entries: map<Name, Key>, names: set<Name>): Census {
    Census(|Named(fs, entries, names, Folder)|, |Named(fs, entries, names, Plain)|,
           |Named(fs, entries, names, Link)|, |Named(fs, entries, names, Odd)|)
  }

  ghost function KindCounts(fs: map<Key, Node>, kind: Kind): (f: map<Key, nat>)
    ensures f.Keys == fs.Keys
  {
    map k | k in fs ::
      if fs[k].Directory? then |Named(fs, fs[k].entries, fs[k].entries.Keys, kind)| else 0
  }

  /** The entries of some directories, by kind. */
  ghost function Total(fs: map<Key, Node>, s: set<Key>): Census
    requires s <= fs.Keys
  {
    Census(Sum(s, KindCounts(fs, Folder)), Sum(s, KindCounts(fs, Plain)), Sum(s, KindCounts(fs, Link)),
           Sum(s, KindCounts(fs, Odd)))
  }

  lemma NamedWithout(fs: map<Key, Node>, entries: map<Name, Key>, names: set<Name>, n: Name, kind: Kind)
    requires n in names && n in entries && entries[n] in fs
    ensures |Named(fs, entries, names, kind)|
         == |Named(fs, entries, names - {n}, kind)| + if KindOf(fs[entries[n]]) == kind then 1 else 0
  {
    var all, rest := Named(fs, entries, names, kind), Named(fs, entries, names - {n}, kind);
    if KindOf(fs[entries[n]]) == kind {
      assert all == rest + {n};
    } else {
      assert all == rest;
    }
  }

  lemma CensusWithout(fs: map<Key, Node>, entries: map<Name, Key>, names: set<Name>, n: Name)
    requires n in names && n in entries && entries[n] in fs
    ensures CensusOf(fs, entries, names) == CensusOf(fs, entries, names - {n}).Plus(One(KindOf(fs[entries[n]])))
  {
    NamedWithout(fs, entries, names, n, Folder);
    NamedWithout(fs, entries, names, n, Plain);
    NamedWithout(fs, entries, names, n, Link);
    NamedWithout(fs, entries, names, n, Odd);
    hide Named;
  }

  /** Every entry is of one kind. */
  lemma {:induction false} CensusIsWhole(fs: map<Key, Node>, entries: map<Name, Key>, names: set<Name>)
    requires names <= entries.Keys && forall n :: n in names ==> entries[n] in fs
    ensures CensusOf(fs, entries, names).Size() == |names|
    decreases |names|
  {
    if names == {} {
      assert Named(fs, entries, names, Folder) == Named(fs, entries, names, Plain) == {};
      assert Named(fs, entries, names, Link) == Named(fs, entries, names, Odd) == {};
    } else {
      var n := Pick(names);
      CensusIsWhole(fs, entries, names - {n});
      CensusWithout(fs, entries, names, n);
      hide CensusOf, KindOf;
      assert |names| == |names - {n}| + 1;
    }
  }

  lemma KindAdd(fs: map<Key, Node>, s: set<Key>, k: Key, kind: Kind)
    requires s <= fs.Keys && k in fs && k !in s
    ensures Sum(s + {k}, KindCounts(fs, kind))
         == Sum(s, KindCounts(fs, kind))
            + if fs[k].Directory? then |Named(fs, fs[k].entries, fs[k].entries.Keys, kind)| else 0
  {
    hide Named, Sum;
    SumAdd(s, k, KindCounts(fs, kind));
  }

  lemma TotalAdd(fs: map<Key, Node>, s: set<Key>, k: Key)
    requires s <= fs.Keys && k in fs && k !in s
    ensures Total(fs, s + {k}) == if fs[k].Directory? then
                                    Total(fs, s).Plus(CensusOf(fs, fs[k].entries, fs[k].entries.Keys))
                                  else
                                    Total(fs, s)
  {
    hide Named, Sum, KindCounts;
    KindAdd(fs, s, k, Folder);
    KindAdd(fs, s, k, Plain);
    KindAdd(fs, s, k, Link);
    KindAdd(fs, s, k, Odd);
  }

  lemma TotalOfNone(fs: map<Key, Node>)
    ensures Total(fs, {}) == Census(0, 0, 0, 0) && Sum({}, EntryCounts(fs)) == 0
  {
    hide KindCounts, EntryCounts;
  }

  lemma EntriesAdd(fs: map<Key, Node>, s: set<Key>, k: Key)
    requires Closed(fs) && s <= fs.Keys && k in fs && k !in s
    ensures Sum(s + {k}, EntryCounts(fs))
         == Sum(s, EntryCounts(fs))
            + if fs[k].Directory? then CensusOf(fs, fs[k].entries, fs[k].entries.Keys).Size() else 0
  {
    hide Sum, CensusOf;
    SumAdd(s, k, EntryCounts(fs));
    if fs[k].Directory? {
      CensusIsWhole(fs, fs[k].entries, fs[k].entries.Keys);
      assert |fs[k].entries.Keys| == |fs[k].entries|;
    }
  }

  /** The entries of all kinds together are all entries. */
  lemma {:induction false} TotalIsWhole(fs: map<Key, Node>, s: set<Key>)
    requires Closed(fs) && s <= fs.Keys
    ensures Total(fs, s).Size() == Sum(s, EntryCounts(fs))
    decreases |s|
  {
    if s == {} {
      TotalOfNone(fs);
    } else {
      var k := Pick(s);
      hide Sum, Total, CensusOf;
      TotalIsWhole(fs, s - {k});
      assert s - {k} + {k} == s;
      TotalAdd(fs, s - {k}, k);
      EntriesAdd(fs, s - {k}, k);
    }
  }

  lemma TotalOfDirectories(fs: map<Key, Node>, s: set<Key>, directories: set<Key>)
    requires directories <= s <= fs.Keys && forall k :: k in s - directories ==> !fs[k].Directory?
    ensures Total(fs, s) == Total(fs, directories)
  {
    SumSupport(s, directories, KindCounts(fs, Folder));
    SumSupport(s, directories, KindCounts(fs, Plain));
    SumSupport(s, directories, KindCounts(fs, Link));
    SumSupport(s, directories, KindCounts(fs, Odd));
  }

  lemma TotalGrows(fs: map<Key, Node>, s: set<Key>, t: set<Key>)
    requires s <= t <= fs.Keys
    ensures Total(fs, s).Within(Total(fs, t))
  {
    SumMonotone(s, t, KindCounts(fs, Folder));
    SumMonotone(s, t, KindCounts(fs, Plain));
    SumMonotone(s, t, KindCounts(fs, Link));
    SumMonotone(s, t, KindCounts(fs, Odd));
  }

  // ----- Exploring -----

  /** Everything that counts below this directory has been met. */
  predicate Explored(fs: map<Key, Node>, device: nat, seen: set<Key>, d: Key) {
    d in fs && fs[d].Directory? ==>
      forall n :: n in fs[d].entries && Counts(fs, device, fs[d].entries[n]) ==> fs[d].entries[n] in seen
  }

  lemma ExploredGrows(fs: map<Key, Node>, device: nat, seen: set<Key>, more: set<Key>, d: Key)
    requires Explored(fs, device, seen, d) && seen <= more
    ensures Explored(fs, device, more, d)
  {
  }

  /** A directory has been walked completely since `seen0` and `count0`. */
  ghost predicate Wholly(fs: map<Key, Node>, device: nat, key: Key, seen0: set<Key>, count0: nat, seen: set<Key>,
                         count: nat)
  {
    && key in seen && key !in seen0 && seen0 <= seen <= fs.Keys
    && (forall x :: x in seen - seen0 ==> Explored(fs, device, seen, x))
    && count == count0 + Sum(seen - seen0, EntryCounts(fs))
  }

  /** A directory has been walked except for the entries in `todo`. */
  ghost predicate Partly(fs: map<Key, Node>, device: nat, key: Key, todo: set<Name>, seen0: set<Key>, count0: nat,
                         seen: set<Key>, count: nat)
  {
    && key in fs && fs[key].Directory? && todo <= fs[key].entries.Keys
    && key !in seen0 && seen0 + {key} <= seen <= fs.Keys
    && (forall n :: n in fs[key].entries && n !in todo && Counts(fs, device, fs[key].entries[n]) ==>
          fs[key].entries[n] in seen)
    && (forall x :: x in seen - seen0 - {key} ==> Explored(fs, device, seen, x))
    && count == count0 + |fs[key].entries.Keys| - |todo| + Sum(seen - seen0 - {key}, EntryCounts(fs))
  }

  lemma PartlyAtFirst(fs: map<Key, Node>, device: nat, key: Key, seen0: set<Key>, count0: nat)
    requires key in fs && fs[key].Directory? && key !in seen0 && seen0 <= fs.Keys
    ensures Partly(fs, device, key, fs[key].entries.Keys, seen0, count0, seen0 + {key}, count0)
  {
    assert seen0 + {key} - seen0 - {key} == {};
  }

  lemma PartlySkip(fs: map<Key, Node>, device: nat, key: Key, todo: set<Name>, n: Name, seen0: set<Key>, count0: nat,
                   seen: set<Key>, count: nat)
    requires Partly(fs, device, key, todo, seen0, count0, seen, count) && n in todo
    requires Counts(fs, device, fs[key].entries[n]) ==> fs[key].entries[n] in seen
    ensures Partly(fs, device, key, todo - {n}, seen0, count0, seen, count + 1)
  {
    hide Explored, Counts;
  }

  lemma PartlyFile(fs: map<Key, Node>, device: nat, key: Key, todo: set<Name>, n: Name, seen0: set<Key>, count0: nat,
                   seen: set<Key>, count: nat)
    requires Partly(fs, device, key, todo, seen0, count0, seen, count) && n in todo
    requires var k := fs[key].entries[n]; k in fs && fs[k].File? && k !in seen
    ensures Partly(fs, device, key, todo - {n}, seen0, count0, seen + {fs[key].entries[n]}, count + 1)
  {
    hide Counts;
    var k := fs[key].entries[n];
    var before, after := seen - seen0 - {key}, seen + {k} - seen0 - {key};
    forall x | x in after ensures Explored(fs, device, seen + {k}, x) {
      if x != k {
        ExploredGrows(fs, device, seen, seen + {k}, x);
      }
    }
    hide Explored;
    assert after == before + {k};
    SumAdd(before, k, EntryCounts(fs));
  }

  lemma PartlyDirectory(fs: map<Key, Node>, device: nat, key: Key, todo: set<Name>, n: Name, seen0: set<Key>,
                        count0: nat, seen: set<Key>, count: nat, seen1: set<Key>, count1: nat)
    requires Partly(fs, device, key, todo, seen0, count0, seen, count) && n in todo
    requires Wholly(fs, device, fs[key].entries[n], seen, count + 1, seen1, count1)
    ensures Partly(fs, device, key, todo - {n}, seen0, count0, seen1, count1)
  {
    hide Counts;
    var before, later, after := seen - seen0 - {key}, seen1 - seen, seen1 - seen0 - {key};
    forall x | x in after ensures Explored(fs, device, seen1, x) {
      if x in before {
        ExploredGrows(fs, device, seen, seen1, x);
      }
    }
    hide Explored;
    assert after == before + later;
    SumUnion(before, later, EntryCounts(fs));
  }

  lemma PartlyDone(fs: map<Key, Node>, device: nat, key: Key, seen0: set<Key>, count0: nat, seen: set<Key>, count: nat)
    requires Partly(fs, device, key, {}, seen0, count0, seen, count)
    ensures Wholly(fs, device, key, seen0, count0, seen, count)
  {
    var before, after := seen - seen0 - {key}, seen - seen0;
    forall x | x in after ensures Explored(fs, device, seen, x) {
      if x != key {
        assert x in before;
      }
    }
    hide Explored;
    assert after == before + {key};
    SumAdd(before, key, EntryCounts(fs));
  }

  /** A set that holds the root and is explored holds everything reachable. */
  lemma {:induction false} ExploredHoldsReachable(fs: map<Key, Node>, root: Key, seen: set<Key>, k: Key, steps: nat)
    requires root in seen && ReachableIn(fs, root, k, steps)
    requires forall x :: x in seen ==> Explored(fs, root.device, seen, x)
    ensures k in seen
    decreases steps
  {
    if steps > 0 {
      var d :| ReachableIn(fs, root, d, steps - 1) && Child(fs, root.device, d, k);
      ExploredHoldsReachable(fs, root, seen, d, steps - 1);
      assert Explored(fs, root.device, seen, d);
    }
  }

  /** After a complete walk the reachable files and directories are what was seen. */
  lemma WholeTree(fs: map<Key, Node>, root: Key, seen: set<Key>, count: nat)
    requires Wholly(fs, root.device, root, {}, 0, seen, count)
    requires forall k :: k in seen ==> Reachable(fs, root, k)
    ensures ReachableFiles(fs, root) == Files(fs, seen)
    ensures count == Sum(ReachableDirectories(fs, root), EntryCounts(fs))
  {
    forall k | Reachable(fs, root, k) ensures k in seen {
      assert seen - {} == seen;
      var steps: nat :| ReachableIn(fs, root, k, steps);
      ExploredHoldsReachable(fs, root, seen, k, steps);
    }
    hide Explored, Reachable;
    SumSupport(seen, ReachableDirectories(fs, root), EntryCounts(fs));
    assert seen - {} == seen;
  }

  /** The sums over what was seen are the sums over its files. */
  lemma SumsOfFiles(fs: map<Key, Node>, seen: set<Key>)
    requires seen <= fs.Keys
    ensures Sum(seen, Lengths(fs)) == Sum(Files(fs, seen), Lengths(fs))
    ensures Sum(seen, Allocations(fs)) == Sum(Files(fs, seen), Allocations(fs))
    ensures Sum(seen, FileCounts(fs)) == |Files(fs, seen)|
  {
    var files := Files(fs, seen);
    SumSupport(seen, files, Lengths(fs));
    SumSupport(seen, files, Allocations(fs));
    SumSupport(seen, files, FileCounts(fs));
    SumOfOnes(files, FileCounts(fs));
  }

  /** The counters do not exceed the sums over a set of nodes. */
  ghost predicate AtMost(fs: map<Key, Node>, s: set<Key>, logical: nat, onDisk: nat, files: nat)
    requires s <= fs.Keys
  {
    logical <= Sum(s, Lengths(fs)) && onDisk <= Sum(s, Allocations(fs)) && files <= Sum(s, FileCounts(fs))
  }

  /** The counters are the sums over a set of nodes. */
  ghost predicate Exactly(fs: map<Key, Node>, s: set<Key>, logical: nat, onDisk: nat, files: nat)
    requires s <= fs.Keys
  {
    logical == Sum(s, Lengths(fs)) && onDisk == Sum(s, Allocations(fs)) && files == Sum(s, FileCounts(fs))
  }

  /** One more node; only a file's own numbers are added. */
  lemma OneMore(fs: map<Key, Node>, s: set<Key>, k: Key, logical: nat, onDisk: nat, files: nat)
    requires s <= fs.Keys && k in fs && k !in s
    ensures AtMost(fs, s, logical, onDisk, files) ==> AtMost(fs, s + {k}, logical, onDisk, files)
    ensures AtMost(fs, s, logical, onDisk, files) && fs[k].File? ==>
              AtMost(fs, s + {k}, logical + fs[k].length, onDisk + fs[k].blocks * 512, files + 1)
    ensures Exactly(fs, s, logical, onDisk, files) && fs[k].File? ==>
              Exactly(fs, s + {k}, logical + fs[k].length, onDisk + fs[k].blocks * 512, files + 1)
    ensures Exactly(fs, s, logical, onDisk, files) && !fs[k].File? ==> Exactly(fs, s + {k}, logical, onDisk, files)
  {
    SumAdd(s, k, Lengths(fs));
    SumAdd(s, k, Allocations(fs));
    SumAdd(s, k, FileCounts(fs));
  }

  /** At most the reachable files and directories have been seen. */
  lemma SeenIsReachable(fs: map<Key, Node>, root: Key, s: set<Key>)
    requires s <= fs.Keys && forall k :: k in s ==> Reachable(fs, root, k)
    ensures Sum(s, Lengths(fs)) <= Sum(ReachableFiles(fs, root), Lengths(fs))
    ensures Sum(s, Allocations(fs)) <= Sum(ReachableFiles(fs, root), Allocations(fs))
    ensures Sum(s, EntryCounts(fs)) <= Sum(ReachableDirectories(fs, root), EntryCounts(fs))
    ensures Files(fs, s) <= ReachableFiles(fs, root)
  {
    SumsOfFiles(fs, s);
    SumMonotone(Files(fs, s), ReachableFiles(fs, root), Lengths(fs));
    SumMonotone(Files(fs, s), ReachableFiles(fs, root), Allocations(fs));
    var directories := set k | k in s && fs[k].Directory?;
    SumSupport(s, directories, EntryCounts(fs));
    SumMonotone(directories, ReachableDirectories(fs, root), EntryCounts(fs));
  }

  // ----- Trees that can be counted completely -----

  type Place = (Key, Name)

  /** An entry of a reachable directory that leads to a node. */
  ghost predicate LeadsTo(fs: map<Key, Node>, root: Key, e: Place, k: Key) {
    e.0 in fs && fs[e.0].Directory? && Reachable(fs, root, e.0) && e.1 in fs[e.0].entries && fs[e.0].entries[e.1] == k
  }

  /** A directory in two places. */
  ghost predicate Shared(fs: map<Key, Node>, root: Key, k: Key) {
    && k in fs && fs[k].Directory?
    && exists e: Place ::
         LeadsTo(fs, root, e, k) && (k == root || exists e1: Place :: e1 != e && LeadsTo(fs, root, e1, k))
  }

  ghost predicate CrossesDevices(fs: map<Key, Node>, root: Key, k: Key) {
    k in fs && !fs[k].Symlink? && k.device != root.device && exists e: Place :: LeadsTo(fs, root, e, k)
  }

  ghost predicate TooDeep(fs: map<Key, Node>, root: Key, k: Key) {
    k in fs && fs[k].Directory? && ReachableIn(fs, root, k, DEPTH_LIMIT + 1)
  }

  /** A tree that is not too deep, and with sums that fit the limits. */
  ghost predicate WithinLimits(fs: map<Key, Node>, root: Key, entryLimit: nat) {
    && root in fs && fs[root].Directory? && (forall k :: k in fs ==> !TooDeep(fs, root, k))
    && Sum(ReachableDirectories(fs, root), EntryCounts(fs)) < entryLimit
    && Sum(ReachableFiles(fs, root), Lengths(fs)) < U64 && Sum(ReachableFiles(fs, root), Allocations(fs)) < U64
  }

  /** Such a tree on one device, without directories in two places. */
  ghost predicate Countable(fs: map<Key, Node>, root: Key, entryLimit: nat) {
    && WithinLimits(fs, root, entryLimit)
    && forall k :: k in fs ==> !Shared(fs, root, k) && !CrossesDevices(fs, root, k)
  }
}
