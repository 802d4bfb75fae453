/** The budgeted breadth-first directory scan, over a finite tree with a clock and failures it does not control. */
module Scan {
  import opened Core

  /** A file name as the kernel stores it: each `char` stands for one byte, so lengths are byte lengths. */
  type Name = string

  type Path = seq<Name>

  /** `listing` is the order in which the kernel happens to enumerate the directory. */
  datatype Node = Directory(listing: seq<Name>) | RegularFile | Symlink | Special

  type Tree = map<Path, Node>

  ghost predicate WellFormed(tree: Tree) {
    forall p :: p in tree && tree[p].Directory? ==>
      NoDuplicates(tree[p].listing) && forall n :: n in tree[p].listing ==> p + [n] in tree
  }

  predicate IsDirectory(tree: Tree, p: Path) {
    p in tree && tree[p].Directory?
  }

  predicate IsFile(tree: Tree, p: Path) {
    p in tree && tree[p].RegularFile?
  }

  datatype Order = Ascending | Descending

  datatype RawBudget = ScanBudget(maxDepth: u64, maxEntries: u64, maxPathBytes: u64)

  type ScanBudget = b: RawBudget | b.maxDepth > 0 && b.maxEntries > 0 && b.maxPathBytes > 0
    witness ScanBudget(1, 1, 1)

  datatype Uncertainty = DepthBudget | EntryBudget | PathByteBudget | TimeBudget | PathRace

  /** What the environment decides: when time is up, and which opens, entries and type queries fail. */
  datatype Env = Env(expired: nat -> bool, openFails: Path -> bool, entryFails: Path -> bool, typeFails: Path -> bool)

  /** Names that the scan visits first come first. */
  predicate Before(order: Order, a: Name, b: Name) {
    if order.Ascending? then LexLess(a, b) else LexLess(b, a)
  }

  lemma BeforeTotal(order: Order, a: Name, b: Name)
    ensures a == b || Before(order, a, b) || Before(order, b, a)
    ensures !(Before(order, a, b) && Before(order, b, a))
  {
    LexTotal(a, b);
  }

  lemma BeforeTransitive(order: Order, a: Name, b: Name, c: Name)
    requires Before(order, a, b) && Before(order, b, c)
    ensures Before(order, a, c)
  {
    if order.Ascending? {
      LexTransitive(a, b, c);
    } else {
      LexTransitive(c, b, a);
    }
  }

  // ----- the bounded ordered set of entries of one directory -----

  function InsertName(order: Order, kept: seq<Name>, n: Name): seq<Name> {
    if kept == [] || Before(order, n, kept[0]) then [n] + kept else [kept[0]] + InsertName(order, kept[1..], n)
  }

  ghost predicate InVisitOrder(order: Order, kept: seq<Name>) {
    forall i, j :: 0 <= i < j < |kept| ==> Before(order, kept[i], kept[j])
  }

  lemma {:induction false} InsertNameFacts(order: Order, kept: seq<Name>, n: Name)
    requires InVisitOrder(order, kept) && n !in kept
    ensures InVisitOrder(order, InsertName(order, kept, n))
    ensures |InsertName(order, kept, n)| == |kept| + 1
    ensures forall x :: x in InsertName(order, kept, n) <==> x in kept || x == n
  {
    if kept == [] {
    } else if Before(order, n, kept[0]) {
      forall i | 0 < i < |kept|
        ensures Before(order, n, kept[i])
      {
        BeforeTransitive(order, n, kept[0], kept[i]);
      }
    } else {
      var rest := InsertName(order, kept[1..], n);
      InsertNameFacts(order, kept[1..], n);
      BeforeTotal(order, n, kept[0]);
      assert kept == [kept[0]] + kept[1..];
      forall i | 0 <= i < |rest|
        ensures Before(order, kept[0], rest[i])
      {
        assert rest[i] in rest;
      }
    }
  }

  /** `kept` holds the first `limit` of the names read, in visiting order. */
  ghost predicate KeepsFirst(order: Order, limit: nat, read: set<Name>, kept: seq<Name>) {
    && InVisitOrder(order, kept)
    && |kept| <= limit
    && (forall k :: k in kept ==> k in read)
    && (forall x :: x in read && x !in kept ==> |kept| == limit && forall k :: k in kept ==> Before(order, k, x))
  }

  /** Some name that was read has not been kept. */
  ghost predicate Dropped(read: set<Name>, kept: seq<Name>) {
    exists n :: n in read && n !in kept
  }

  function KeepName(order: Order, limit: nat, kept: seq<Name>, n: Name): seq<Name> {
    var grown := InsertName(order, kept, n);
    if |grown| > limit then grown[..limit] else grown
  }

  lemma LastIsDropped(order: Order, grown: seq<Name>, limit: nat)
    requires |grown| == limit + 1 && InVisitOrder(order, grown)
    ensures forall k :: k in grown[..limit] ==> Before(order, k, grown[limit]) && k != grown[limit]
    ensures forall x :: x in grown <==> x in grown[..limit] || x == grown[limit]
  {
    assert grown == grown[..limit] + [grown[limit]];
    forall k | k in grown[..limit]
      ensures Before(order, k, grown[limit]) && k != grown[limit]
    {
      var i :| 0 <= i < limit && grown[i] == k;
      BeforeTotal(order, k, grown[limit]);
    }
  }

  lemma KeepOneMore(order: Order, limit: nat, read: set<Name>, kept: seq<Name>, n: Name)
    requires KeepsFirst(order, limit, read, kept) && n !in read
    ensures KeepsFirst(order, limit, read + {n}, KeepName(order, limit, kept, n))
    ensures |InsertName(order, kept, n)| == |kept| + 1
    ensures Dropped(read + {n}, KeepName(order, limit, kept, n)) <==> |kept| == limit
  {
    var grown := InsertName(order, kept, n);
    InsertNameFacts(order, kept, n);
    if |kept| == limit {
      var front, last := grown[..limit], grown[limit];
      LastIsDropped(order, grown, limit);
      assert last in grown && last in read + {n};
      forall x, k | x in read + {n} && x !in front && k in front
        ensures Before(order, k, x)
      {
        assert k in grown;
        if x != last {
          assert x in read && x !in kept;
          if k == n {
            assert last in kept;
            BeforeTransitive(order, n, last, x);
          }
        }
      }
    }
  }

  datatype Listing = Listing(kept: seq<Name>, exhausted: bool, uncertainty: Option<Uncertainty>, clock: nat)

  function Note(uncertainty: Option<Uncertainty>, reason: Uncertainty): Option<Uncertainty> {
    if uncertainty.Some? then uncertainty else Some(reason)
  }

  /** Any new uncertainty is that of a clock reading taken meanwhile, or of a failed entry of `dir`. */
  ghost predicate Hindered(
    dir: Path, listing: seq<Name>, env: Env, clock: nat, now: nat,
    before: Option<Uncertainty>, after: Option<Uncertainty>)
  {
    before != after ==>
      || (after == Some(TimeBudget) && exists k :: clock < k <= now && env.expired(k))
      || (after == Some(PathRace) && exists n :: n in listing && env.entryFails(dir + [n]))
  }

  lemma NothingKept(order: Order, limit: nat)
    ensures KeepsFirst(order, limit, {}, [])
  {
  }

  /** Names are dropped only when there is no room left. */
  lemma DroppedWhenFull(order: Order, limit: nat, read: set<Name>, kept: seq<Name>)
    requires KeepsFirst(order, limit, read, kept)
    ensures |kept| <= limit && (Dropped(read, kept) ==> |kept| == limit)
  {
  }

  /**
   * Read a directory's entries, keeping at most `remaining` of them: whatever the enumeration order, those kept are
   * the first in visiting order of those read, and without new uncertainty or overflow they are all of them.
   */
  method ReadEntries(dir: Path, listing: seq<Name>, remaining: nat, order: Order, env: Env,
                     uncertainty: Option<Uncertainty>, clock: nat)
    returns (r: Listing, ghost read: set<Name>)
    requires NoDuplicates(listing) && remaining > 0
    ensures read <= set n | n in listing
    ensures forall n :: n in read ==> !env.entryFails(dir + [n])
    ensures (forall n :: n in listing && !env.entryFails(dir + [n]) ==> n in read)
            || exists k :: clock < k <= r.clock && env.expired(k)
    ensures KeepsFirst(order, remaining, read, r.kept)
    ensures r.exhausted <==> Dropped(read, r.kept)
    ensures uncertainty.Some? ==> r.uncertainty == uncertainty
    ensures Hindered(dir, listing, env, clock, r.clock, uncertainty, r.uncertainty)
    ensures clock <= r.clock <= clock + |listing|
    ensures r.uncertainty.None? && !r.exhausted ==> forall n :: n in listing ==> n in r.kept
  {
    hide KeepsFirst, InsertName, InVisitOrder;
    r := Listing([], false, uncertainty, clock);
    read := {};
    NothingKept(order, remaining);
    var i := 0;
    while i < |listing|
      invariant 0 <= i <= |listing|
      invariant read <= set n | n in listing[..i]
      invariant forall n :: n in read ==> !env.entryFails(dir + [n])
      invariant forall n :: n in listing[..i] && !env.entryFails(dir + [n]) ==> n in read
      invariant KeepsFirst(order, remaining, read, r.kept)
      invariant r.exhausted <==> Dropped(read, r.kept)
      invariant uncertainty.Some? ==> r.uncertainty == uncertainty
      invariant Hindered(dir, listing, env, clock, r.clock, uncertainty, r.uncertainty)
      invariant r.clock == clock + i
      invariant r.uncertainty.None? ==> forall n :: n in listing[..i] ==> n in read
    {
      r := r.(clock := r.clock + 1);
      if env.expired(r.clock) {
        r := r.(uncertainty := Note(r.uncertainty, TimeBudget));
        return;
      }
      var name := listing[i];
      assert name !in listing[..i];
      assert listing[..i + 1] == listing[..i] + [name];
      i := i + 1;
      if env.entryFails(dir + [name]) {
        r := r.(uncertainty := Note(r.uncertainty, PathRace));
        continue;
      }
      DroppedWhenFull(order, remaining, read, r.kept);
      KeepOneMore(order, remaining, read, r.kept, name);
      var grown := InsertName(order, r.kept, name);
      read := read + {name};
      if |grown| > remaining {
        r := r.(kept := grown[..remaining], exhausted := true);
      } else {
        r := r.(kept := grown);
      }
    }
    assert listing[..i] == listing;
  }

  // ----- what the scan should find -----

  function Parent(p: Path): Path
    requires p != []
  {
    p[..|p| - 1]
  }

  /** `p` is under `root` along entries of real directories. */
  ghost predicate Reachable(tree: Tree, root: Path, p: Path)
    decreases |p|
  {
    || p == root
    || (|p| > |root| && IsDirectory(tree, Parent(p)) && p[|p| - 1] in tree[Parent(p)].listing
        && Reachable(tree, root, Parent(p)))
  }

  /** The length of a relative path as text: its names and the separators between them. */
  function PathBytes(p: Path): nat {
    if p == [] then 0 else PathBytes(Parent(p)) + |p[|p| - 1]| + if |p| == 1 then 0 else 1
  }

  /** The text of a relative path. */
  ghost function PathText(p: Path): string {
    if |p| <= 1 then (if p == [] then "" else p[0]) else PathText(Parent(p)) + "/" + p[|p| - 1]
  }

  /** Path bytes are counted on that text. */
  lemma {:induction false} PathBytesCountText(p: Path)
    ensures PathBytes(p) == |PathText(p)|
  {
    if |p| > 1 {
      PathBytesCountText(Parent(p));
    } else if |p| == 1 {
      assert PathBytes(Parent(p)) == 0;
    }
  }

  function TotalBytes(paths: seq<Path>): nat {
    if paths == [] then 0 else TotalBytes(paths[..|paths| - 1]) + PathBytes(paths[|paths| - 1])
  }

  lemma TotalSnoc(paths: seq<Path>, p: Path)
    ensures TotalBytes(paths + [p]) == TotalBytes(paths) + PathBytes(p)
  {
    assert (paths + [p])[..|paths|] == paths;
  }

  lemma {:induction false} TotalConcat(a: seq<Path>, c: seq<Path>)
    ensures TotalBytes(a + c) == TotalBytes(a) + TotalBytes(c)
  {
    if c == [] {
      assert a + c == a;
    } else {
      TotalConcat(a, c[..|c| - 1]);
      assert a + c == (a + c[..|c| - 1]) + [c[|c| - 1]];
      TotalSnoc(a + c[..|c| - 1], c[|c| - 1]);
    }
  }

  /** The entries of a set of directories. */
  ghost function EntriesOf(tree: Tree, dirs: set<Path>): set<Path> {
    set d, n | d in dirs && IsDirectory(tree, d) && n in tree[d].listing :: d + [n]
  }

  ghost predicate AllReachable(tree: Tree, root: Path, paths: set<Path>) {
    forall p :: p in paths ==> Reachable(tree, root, p)
  }

  /** Distinct reachable directories and files. */
  ghost predicate Findable(tree: Tree, root: Path, paths: seq<Path>) {
    && NoDuplicates(paths)
    && forall p :: p in paths ==> Reachable(tree, root, p) && (IsDirectory(tree, p) || IsFile(tree, p))
  }

  /** An open, an entry or a type query of something under `root` fails. */
  predicate Fails(env: Env, p: Path) {
    env.openFails(p) || env.entryFails(p) || env.typeFails(p)
  }

  /** The tree or the environment really is the way an uncertainty says, after `now` readings of the clock. */
  ghost predicate Justified(tree: Tree, root: Path, b: ScanBudget, env: Env, now: nat, reason: Uncertainty) {
    match reason
    case TimeBudget => exists k :: 0 < k <= now && env.expired(k)
    case PathRace => exists p :: Reachable(tree, root, p) && Fails(env, p)
    case DepthBudget => exists p :: Reachable(tree, root, p) && IsDirectory(tree, p) && |p| == |root| + b.maxDepth
    case EntryBudget => exists dirs :: AllReachable(tree, root, dirs) && |EntriesOf(tree, dirs)| > b.maxEntries
    case PathByteBudget => exists paths :: Findable(tree, root, paths) && TotalBytes(paths) > b.maxPathBytes
  }

  ghost predicate Excused(
    tree: Tree, root: Path, b: ScanBudget, env: Env, now: nat, uncertainty: Option<Uncertainty>)
  {
    uncertainty.Some? ==> Justified(tree, root, b, env, now, uncertainty.value)
  }

  /** Time ran out, or the tree exceeds the entry or path-byte budget. */
  ghost predicate Spent(tree: Tree, root: Path, b: ScanBudget, env: Env, now: nat) {
    || Justified(tree, root, b, env, now, TimeBudget)
    || Justified(tree, root, b, env, now, EntryBudget)
    || Justified(tree, root, b, env, now, PathByteBudget)
  }

  /** Neither the entry nor its type query fails. */
  predicate Legible(env: Env, p: Path) {
    !env.entryFails(p) && !env.typeFails(p)
  }

  /** What a scan can see in spite of failures and of its depth budget: legible under directories that can be opened. */
  ghost predicate Visible(tree: Tree, root: Path, b: ScanBudget, env: Env, p: Path)
    decreases |p|
  {
    || p == root
    || (|root| < |p| <= |root| + b.maxDepth && IsDirectory(tree, Parent(p)) && p[|p| - 1] in tree[Parent(p)].listing
        && !env.openFails(Parent(p)) && Legible(env, p) && Visible(tree, root, b, env, Parent(p)))
  }

  // ----- the traversal -----

  datatype Pending = Pending(path: Path, depth: nat)

  datatype Progress = Progress(
    queue: seq<Pending>,
    directories: seq<Path>,
    files: seq<Path>,
    entryCount: nat,
    pathBytes: nat,
    uncertainty: Option<Uncertainty>)

  datatype ScanResult = ScanResult(directories: seq<Path>, files: seq<Path>, uncertainty: Option<Uncertainty>)

  /** Account for one kept entry; the second result says that the path-byte budget ended the scan. */
  function Visit(tree: Tree, b: ScanBudget, env: Env, at: Pending, name: Name, st: Progress): (Progress, bool)
    requires at.path + [name] in tree
  {
    var child := at.path + [name];
    var counted := st.(entryCount := st.entryCount + 1);
    if env.typeFails(child) then (counted.(uncertainty := Note(st.uncertainty, PathRace)), false)
    else if tree[child].Symlink? || tree[child].Special? then (counted, false)
    else if SatAdd(st.pathBytes, PathBytes(child)) > b.maxPathBytes then
      (counted.(uncertainty := Note(st.uncertainty, PathByteBudget)), true)
    else
      var sized := counted.(pathBytes := SatAdd(st.pathBytes, PathBytes(child)));
      if tree[child].RegularFile? then (sized.(files := st.files + [child]), false)
      else if at.depth + 1 < b.maxDepth then
        (sized.(directories := st.directories + [child], queue := st.queue + [Pending(child, at.depth + 1)]), false)
      else
        (sized.(directories := st.directories + [child], uncertainty := Note(st.uncertainty, DepthBudget)), false)
  }

  /** A path the scan may list: reachable, within the depth budget, under a directory already taken up. */
  ghost predicate MayList(tree: Tree, root: Path, b: ScanBudget, visited: set<Path>, p: Path) {
    && p in tree && Reachable(tree, root, p)
    && |root| < |p| <= |root| + b.maxDepth
    && Parent(p) in visited
  }

  ghost predicate QueueOk(root: Path, b: ScanBudget, st: Progress, visited: set<Path>) {
    && (forall i :: 0 <= i < |st.queue| ==>
          var q := st.queue[i];
          && (q.path == root || q.path in st.directories)
          && |root| + q.depth == |q.path| && q.depth < b.maxDepth
          && q.path !in visited)
    && (forall i, j :: 0 <= i < j < |st.queue| ==> st.queue[i].path != st.queue[j].path)
  }

  ghost predicate ListOk(tree: Tree, root: Path, b: ScanBudget, visited: set<Path>, paths: seq<Path>) {
    NoDuplicates(paths) && forall p :: p in paths ==> MayList(tree, root, b, visited, p)
  }

  ghost predicate ListsOk(tree: Tree, root: Path, b: ScanBudget, st: Progress, visited: set<Path>) {
    && ListOk(tree, root, b, visited, st.directories) && (forall p :: p in st.directories ==> IsDirectory(tree, p))
    && ListOk(tree, root, b, visited, st.files) && (forall p :: p in st.files ==> IsFile(tree, p))
  }

  ghost predicate BudgetsOk(b: ScanBudget, st: Progress) {
    && |st.directories| + |st.files| <= st.entryCount <= b.maxEntries
    && SatAdd(TotalBytes(st.directories), TotalBytes(st.files)) == st.pathBytes <= b.maxPathBytes
  }

  ghost predicate Sound(tree: Tree, root: Path, b: ScanBudget, st: Progress, visited: set<Path>) {
    && QueueOk(root, b, st, visited)
    && ListsOk(tree, root, b, st, visited)
    && BudgetsOk(b, st)
    && visited <= tree.Keys
    && (forall v :: v in visited ==> v == root || v in st.directories)
  }

  /** A directory or regular file that is in its list. */
  ghost predicate Listed(tree: Tree, st: Progress, p: Path) {
    p in tree && (tree[p].Directory? ==> p in st.directories) && (tree[p].RegularFile? ==> p in st.files)
  }

  ghost predicate InQueue(st: Progress, p: Path) {
    exists i :: 0 <= i < |st.queue| && st.queue[i].path == p
  }

  /** Every directory found is queued or was taken up. */
  ghost predicate NoneForgotten(root: Path, st: Progress, visited: set<Path>) {
    forall p :: p == root || p in st.directories ==> p in visited || InQueue(st, p)
  }

  ghost predicate ReadCompletely(tree: Tree, st: Progress, d: Path) {
    IsDirectory(tree, d) && forall n :: n in tree[d].listing ==> Listed(tree, st, d + [n])
  }

  /** Every directory found within the depth budget is queued or was taken up. */
  ghost predicate NoneSkipped(root: Path, b: ScanBudget, st: Progress, visited: set<Path>) {
    forall p :: p == root || (p in st.directories && |p| < |root| + b.maxDepth) ==> p in visited || InQueue(st, p)
  }

  /** A directory that cannot be opened, or whose legible entries are all listed. */
  ghost predicate ReadThrough(tree: Tree, env: Env, st: Progress, d: Path) {
    IsDirectory(tree, d)
    && (env.openFails(d) || forall n :: n in tree[d].listing && Legible(env, d + [n]) ==> Listed(tree, st, d + [n]))
  }

  /** Failures and the depth budget are all that the scan has let itself be hindered by. */
  ghost predicate Thorough(tree: Tree, root: Path, b: ScanBudget, env: Env, st: Progress, visited: set<Path>) {
    NoneSkipped(root, b, st, visited) && forall d :: d in visited ==> ReadThrough(tree, env, st, d)
  }

  /** Nothing is listed that a scan cannot see. */
  ghost predicate AllSeen(tree: Tree, root: Path, b: ScanBudget, env: Env, st: Progress) {
    && (forall p :: p in st.directories ==> Visible(tree, root, b, env, p))
    && (forall p :: p in st.files ==> Visible(tree, root, b, env, p))
  }

  /** `later` has everything `st` had. */
  ghost predicate Extends(st: Progress, later: Progress) {
    && st.directories <= later.directories && st.files <= later.files
    && (st.uncertainty.Some? ==> later.uncertainty == st.uncertainty)
  }

  /** A directory being read: reachable, at its depth, and taken up. */
  ghost predicate Current(tree: Tree, root: Path, b: ScanBudget, visited: set<Path>, at: Pending) {
    && IsDirectory(tree, at.path) && Reachable(tree, root, at.path) && at.path in visited
    && |root| + at.depth == |at.path| && at.depth < b.maxDepth
  }

  lemma ChildMayBeListed(tree: Tree, root: Path, b: ScanBudget, visited: set<Path>, at: Pending, name: Name)
    requires WellFormed(tree) && Current(tree, root, b, visited, at) && name in tree[at.path].listing
    ensures MayList(tree, root, b, visited, at.path + [name])
  {
    assert Parent(at.path + [name]) == at.path;
  }

  lemma AppendOk(tree: Tree, root: Path, b: ScanBudget, visited: set<Path>, paths: seq<Path>, p: Path)
    requires ListOk(tree, root, b, visited, paths) && MayList(tree, root, b, visited, p) && p !in paths
    ensures ListOk(tree, root, b, visited, paths + [p])
  {
  }

  lemma VisitKeepsLists(tree: Tree, root: Path, b: ScanBudget, env: Env, at: Pending, name: Name,
                        st: Progress, visited: set<Path>)
    requires ListsOk(tree, root, b, st, visited) && MayList(tree, root, b, visited, at.path + [name])
    requires at.path + [name] !in st.directories && at.path + [name] !in st.files
    ensures ListsOk(tree, root, b, Visit(tree, b, env, at, name, st).0, visited)
  {
    AppendOk(tree, root, b, visited, st.directories, at.path + [name]);
    AppendOk(tree, root, b, visited, st.files, at.path + [name]);
  }

  lemma VisitKeepsBudgets(tree: Tree, b: ScanBudget, env: Env, at: Pending, name: Name, st: Progress)
    requires BudgetsOk(b, st) && st.entryCount < b.maxEntries && at.path + [name] in tree
    ensures BudgetsOk(b, Visit(tree, b, env, at, name, st).0)
  {
    var child, next := at.path + [name], Visit(tree, b, env, at, name, st).0;
    SatAddSum(TotalBytes(st.directories), TotalBytes(st.files), PathBytes(child));
    if next.directories != st.directories {
      TotalSnoc(st.directories, child);
    } else if next.files != st.files {
      TotalSnoc(st.files, child);
    }
  }

  lemma SatAddSum(a: nat, b: nat, c: nat)
    ensures SatAdd(SatAdd(a, b), c) == SatAdd(a + c, b) == SatAdd(a, b + c)
  {
  }

  lemma AppendQueueOk(root: Path, b: ScanBudget, st: Progress, next: Progress, visited: set<Path>, q: Pending)
    requires QueueOk(root, b, st, visited) && next.queue == st.queue + [q]
    requires next.directories == st.directories + [q.path] && q.path !in st.directories
    requires |root| + q.depth == |q.path| > |root| && q.depth < b.maxDepth && q.path !in visited
    ensures QueueOk(root, b, next, visited)
  {
    forall i | 0 <= i < |st.queue|
      ensures st.queue[i].path != q.path
    {
    }
  }

  lemma VisitKeepsQueue(tree: Tree, root: Path, b: ScanBudget, env: Env, at: Pending, name: Name,
                        st: Progress, visited: set<Path>)
    requires QueueOk(root, b, st, visited) && |root| + at.depth == |at.path|
    requires at.path + [name] in tree && at.path + [name] !in st.directories && at.path + [name] !in visited
    ensures QueueOk(root, b, Visit(tree, b, env, at, name, st).0, visited)
  {
    var child, next := at.path + [name], Visit(tree, b, env, at, name, st).0;
    if next.queue != st.queue {
      AppendQueueOk(root, b, st, next, visited, Pending(child, at.depth + 1));
    }
  }

  /** One entry: nothing listed is lost, and unless the scan became uncertain the entry is listed and queued. */
  lemma VisitLists(tree: Tree, root: Path, b: ScanBudget, env: Env, at: Pending, name: Name,
                   st: Progress, visited: set<Path>)
    requires at.path + [name] in tree
    ensures var (next, stop) := Visit(tree, b, env, at, name, st);
            && Extends(st, next) && next.entryCount == st.entryCount + 1
            && (stop ==> next.uncertainty.Some?)
            && (next.uncertainty.None? ==> Listed(tree, next, at.path + [name]))
            && (next.uncertainty.None? && NoneForgotten(root, st, visited) ==> NoneForgotten(root, next, visited))
            && (forall p :: p in next.directories ==> p in st.directories || p == at.path + [name])
            && (forall p :: p in next.files ==> p in st.files || p == at.path + [name])
  {
    var (next, stop) := Visit(tree, b, env, at, name, st);
    var child := at.path + [name];
    if next.uncertainty.None? && NoneForgotten(root, st, visited) {
      forall p | p == root || p in next.directories
        ensures p in visited || InQueue(next, p)
      {
        if p == child && child in next.directories && child !in st.directories {
          assert next.queue[|next.queue| - 1].path == child;
        } else if InQueue(st, p) {
          var i :| 0 <= i < |st.queue| && st.queue[i].path == p;
          assert next.queue[i] == st.queue[i];
        }
      }
    }
  }

  /** One entry again: unless the path-byte budget stops the scan, it is listed if it is legible, and queued. */
  lemma VisitSees(tree: Tree, root: Path, b: ScanBudget, env: Env, at: Pending, name: Name, st: Progress,
                  visited: set<Path>)
    requires at.path + [name] in tree && |root| + at.depth == |at.path| && at.depth < b.maxDepth
    ensures var (next, stop) := Visit(tree, b, env, at, name, st);
            && (!stop && !env.typeFails(at.path + [name]) ==> Listed(tree, next, at.path + [name]))
            && (!stop && NoneSkipped(root, b, st, visited) ==> NoneSkipped(root, b, next, visited))
  {
    var (next, stop) := Visit(tree, b, env, at, name, st);
    var child := at.path + [name];
    if !stop && NoneSkipped(root, b, st, visited) {
      forall p | p == root || (p in next.directories && |p| < |root| + b.maxDepth)
        ensures p in visited || InQueue(next, p)
      {
        if p == child && child !in st.directories && p != root {
          assert next.queue[|next.queue| - 1].path == child;
        } else if InQueue(st, p) {
          var i :| 0 <= i < |st.queue| && st.queue[i].path == p;
          assert next.queue[i] == st.queue[i];
        }
      }
    }
  }

  lemma VisitListsVisible(tree: Tree, root: Path, b: ScanBudget, env: Env, at: Pending, name: Name, st: Progress)
    requires at.path + [name] in tree && |root| + at.depth == |at.path| && at.depth < b.maxDepth
    requires IsDirectory(tree, at.path) && name in tree[at.path].listing
    requires Visible(tree, root, b, env, at.path) && !env.openFails(at.path) && !env.entryFails(at.path + [name])
    requires AllSeen(tree, root, b, env, st)
    ensures AllSeen(tree, root, b, env, Visit(tree, b, env, at, name, st).0)
  {
    assert Parent(at.path + [name]) == at.path;
  }

  lemma VisitStopsJustified(tree: Tree, root: Path, b: ScanBudget, env: Env, now: nat, at: Pending, name: Name,
                            st: Progress, visited: set<Path>)
    requires MayList(tree, root, b, visited, at.path + [name])
    requires ListsOk(tree, root, b, st, visited) && BudgetsOk(b, st)
    requires at.path + [name] !in st.directories && at.path + [name] !in st.files
    ensures Visit(tree, b, env, at, name, st).1 ==> Justified(tree, root, b, env, now, PathByteBudget)
  {
    if Visit(tree, b, env, at, name, st).1 {
      OneMoreIsFindable(tree, root, b, st, visited, at.path + [name]);
    }
  }

  lemma VisitExcused(tree: Tree, root: Path, b: ScanBudget, env: Env, now: nat, at: Pending, name: Name,
                     st: Progress, visited: set<Path>)
    requires Excused(tree, root, b, env, now, st.uncertainty) && MayList(tree, root, b, visited, at.path + [name])
    requires ListsOk(tree, root, b, st, visited) && BudgetsOk(b, st) && |root| + at.depth == |at.path|
    requires at.path + [name] !in st.directories && at.path + [name] !in st.files && at.depth < b.maxDepth
    ensures Excused(tree, root, b, env, now, Visit(tree, b, env, at, name, st).0.uncertainty)
  {
    VisitStopsJustified(tree, root, b, env, now, at, name, st, visited);
  }

  lemma OneMoreIsFindable(tree: Tree, root: Path, b: ScanBudget, st: Progress, visited: set<Path>, p: Path)
    requires ListsOk(tree, root, b, st, visited)
    requires Reachable(tree, root, p) && (IsDirectory(tree, p) || IsFile(tree, p))
    requires p !in st.directories && p !in st.files
    ensures var paths := st.directories + st.files + [p];
            && Findable(tree, root, paths)
            && TotalBytes(paths) == TotalBytes(st.directories) + TotalBytes(st.files) + PathBytes(p)
  {
    var found := st.directories + st.files;
    TotalConcat(st.directories, st.files);
    TotalSnoc(found, p);
    FoundIsFindable(tree, root, b, st, visited);
  }

  lemma FoundIsFindable(tree: Tree, root: Path, b: ScanBudget, st: Progress, visited: set<Path>)
    requires ListsOk(tree, root, b, st, visited)
    ensures Findable(tree, root, st.directories + st.files)
  {
    forall i, j | 0 <= i < |st.directories| && 0 <= j < |st.files|
      ensures st.directories[i] != st.files[j]
    {
      assert st.directories[i] in st.directories && st.files[j] in st.files;
    }
  }

  lemma ListedStays(tree: Tree, st: Progress, later: Progress, p: Path)
    requires Listed(tree, st, p) && Extends(st, later)
    ensures Listed(tree, later, p)
  {
  }

  // ----- breadth first, siblings in visiting order -----

  ghost predicate ByDepth(paths: seq<Path>) {
    forall i, j :: 0 <= i < j < |paths| ==> |paths[i]| <= |paths[j]|
  }

  /** Entries of one directory appear in visiting order. */
  ghost predicate SiblingsInOrder(order: Order, paths: seq<Path>) {
    forall i, j :: 0 <= i < j < |paths| && paths[i] != [] && paths[j] != [] && Parent(paths[i]) == Parent(paths[j]) ==>
      Before(order, paths[i][|paths[i]| - 1], paths[j][|paths[j]| - 1])
  }

  ghost predicate Arranged(order: Order, paths: seq<Path>) {
    ByDepth(paths) && SiblingsInOrder(order, paths)
  }

  /** Queued directories are one level apart at most. */
  ghost predicate QueueLevel(queue: seq<Pending>, d: nat) {
    && (forall i :: 0 <= i < |queue| ==> d <= |queue[i].path| <= d + 1)
    && (forall i, j :: 0 <= i < j < |queue| ==> |queue[i].path| <= |queue[j].path|)
  }

  ghost predicate NoDeeper(paths: seq<Path>, d: nat) {
    forall i :: 0 <= i < |paths| ==> |paths[i]| <= d
  }

  /** The traversal is at level `d`. */
  ghost predicate AtLevel(st: Progress, d: nat) {
    QueueLevel(st.queue, d) && NoDeeper(st.directories, d + 1) && NoDeeper(st.files, d + 1)
  }

  lemma AppendQueueLevel(queue: seq<Pending>, q: Pending, d: nat)
    requires QueueLevel(queue, d) && |q.path| == d + 1
    ensures QueueLevel(queue + [q], d)
  {
  }

  lemma AppendNoDeeper(paths: seq<Path>, p: Path, d: nat)
    requires NoDeeper(paths, d) && |p| <= d
    ensures NoDeeper(paths + [p], d)
  {
  }

  /** Every listed entry of `dir` comes before `name`. */
  ghost predicate PrecededBy(order: Order, paths: seq<Path>, dir: Path, name: Name) {
    forall i :: 0 <= i < |paths| && paths[i] != [] && Parent(paths[i]) == dir ==>
      Before(order, paths[i][|paths[i]| - 1], name)
  }

  ghost predicate InOrderSoFar(order: Order, st: Progress) {
    Arranged(order, st.directories) && Arranged(order, st.files)
  }

  ghost predicate EntriesPrecede(order: Order, st: Progress, dir: Path, name: Name) {
    PrecededBy(order, st.directories, dir, name) && PrecededBy(order, st.files, dir, name)
  }

  lemma AppendArranged(order: Order, paths: seq<Path>, dir: Path, name: Name)
    requires Arranged(order, paths) && PrecededBy(order, paths, dir, name)
    requires forall i :: 0 <= i < |paths| ==> |paths[i]| <= |dir| + 1
    ensures Arranged(order, paths + [dir + [name]])
  {
    assert Parent(dir + [name]) == dir;
  }

  lemma AppendPreceded(order: Order, paths: seq<Path>, dir: Path, name: Name, later: Name)
    requires PrecededBy(order, paths, dir, name) && Before(order, name, later)
    ensures PrecededBy(order, paths, dir, later)
    ensures PrecededBy(order, paths + [dir + [name]], dir, later)
  {
    forall i | 0 <= i < |paths| && paths[i] != [] && Parent(paths[i]) == dir
      ensures Before(order, paths[i][|paths[i]| - 1], later)
    {
      BeforeTransitive(order, paths[i][|paths[i]| - 1], name, later);
    }
  }

  lemma VisitKeepsLevel(tree: Tree, b: ScanBudget, env: Env, at: Pending, name: Name, st: Progress)
    requires at.path + [name] in tree && AtLevel(st, |at.path|)
    ensures AtLevel(Visit(tree, b, env, at, name, st).0, |at.path|)
  {
    var child := at.path + [name];
    AppendQueueLevel(st.queue, Pending(child, at.depth + 1), |at.path|);
    AppendNoDeeper(st.directories, child, |at.path| + 1);
    AppendNoDeeper(st.files, child, |at.path| + 1);
  }

  lemma VisitKeepsArranged(tree: Tree, b: ScanBudget, env: Env, order: Order, at: Pending, name: Name, st: Progress)
    requires at.path + [name] in tree && AtLevel(st, |at.path|) && InOrderSoFar(order, st)
    requires EntriesPrecede(order, st, at.path, name)
    ensures InOrderSoFar(order, Visit(tree, b, env, at, name, st).0)
    ensures forall later :: Before(order, name, later) ==>
              EntriesPrecede(order, Visit(tree, b, env, at, name, st).0, at.path, later)
  {
    AppendArranged(order, st.directories, at.path, name);
    AppendArranged(order, st.files, at.path, name);
    forall later | Before(order, name, later)
      ensures EntriesPrecede(order, Visit(tree, b, env, at, name, st).0, at.path, later)
    {
      AppendPreceded(order, st.directories, at.path, name, later);
      AppendPreceded(order, st.files, at.path, name, later);
    }
  }

  /** Account for one entry of the directory being read. */
  method VisitEntry(tree: Tree, root: Path, b: ScanBudget, env: Env, ghost now: nat, ghost order: Order, at: Pending,
                    name: Name, st: Progress, ghost visited: set<Path>) returns (next: Progress, stop: bool)
    requires WellFormed(tree) && Sound(tree, root, b, st, visited) && Current(tree, root, b, visited, at)
    requires name in tree[at.path].listing && st.entryCount < b.maxEntries
    requires at.path + [name] !in st.directories && at.path + [name] !in st.files
    requires Excused(tree, root, b, env, now, st.uncertainty)
    requires AtLevel(st, |at.path|) && InOrderSoFar(order, st) && EntriesPrecede(order, st, at.path, name)
    requires Visible(tree, root, b, env, at.path) && !env.openFails(at.path) && !env.entryFails(at.path + [name])
    requires AllSeen(tree, root, b, env, st)
    ensures AllSeen(tree, root, b, env, next)
    ensures stop ==> Justified(tree, root, b, env, now, PathByteBudget)
    ensures !stop && !env.typeFails(at.path + [name]) ==> Listed(tree, next, at.path + [name])
    ensures !stop && NoneSkipped(root, b, st, visited) ==> NoneSkipped(root, b, next, visited)
    ensures AtLevel(next, |at.path|) && InOrderSoFar(order, next)
    ensures forall later :: Before(order, name, later) ==> EntriesPrecede(order, next, at.path, later)
    ensures Excused(tree, root, b, env, now, next.uncertainty)
    ensures Sound(tree, root, b, next, visited) && Extends(st, next) && next.entryCount == st.entryCount + 1
    ensures stop ==> next.uncertainty.Some?
    ensures next.uncertainty.None? ==> Listed(tree, next, at.path + [name])
    ensures next.uncertainty.None? && NoneForgotten(root, st, visited) ==> NoneForgotten(root, next, visited)
    ensures forall p :: p in next.directories ==> p in st.directories || p == at.path + [name]
    ensures forall p :: p in next.files ==> p in st.files || p == at.path + [name]
  {
    ChildMayBeListed(tree, root, b, visited, at, name);
    VisitKeepsLists(tree, root, b, env, at, name, st, visited);
    VisitKeepsBudgets(tree, b, env, at, name, st);
    VisitKeepsQueue(tree, root, b, env, at, name, st, visited);
    VisitLists(tree, root, b, env, at, name, st, visited);
    VisitExcused(tree, root, b, env, now, at, name, st, visited);
    VisitStopsJustified(tree, root, b, env, now, at, name, st, visited);
    VisitSees(tree, root, b, env, at, name, st, visited);
    VisitListsVisible(tree, root, b, env, at, name, st);
    VisitKeepsLevel(tree, b, env, at, name, st);
    VisitKeepsArranged(tree, b, env, order, at, name, st);
    var (after, ended) := Visit(tree, b, env, at, name, st);
    next, stop := after, ended;
  }

  /** A directory is being read, and what is listed is right, visible and in order. */
  ghost predicate Reading(tree: Tree, root: Path, b: ScanBudget, env: Env, now: nat, order: Order, at: Pending,
                          st: Progress, visited: set<Path>)
  {
    && WellFormed(tree) && Current(tree, root, b, visited, at)
    && Visible(tree, root, b, env, at.path) && !env.openFails(at.path)
    && Steady(tree, root, b, env, now, order, st, visited, |at.path|)
  }

  ghost predicate Steady(tree: Tree, root: Path, b: ScanBudget, env: Env, now: nat, order: Order, st: Progress,
                         visited: set<Path>, d: nat)
  {
    && Sound(tree, root, b, st, visited) && Excused(tree, root, b, env, now, st.uncertainty)
    && AtLevel(st, d) && InOrderSoFar(order, st) && AllSeen(tree, root, b, env, st)
  }

  /** These entries of the directory may be visited next: legible, distinct, in order, unlisted and within budget. */
  ghost predicate Presentable(tree: Tree, b: ScanBudget, env: Env, order: Order, at: Pending, names: seq<Name>,
                              st: Progress)
    requires IsDirectory(tree, at.path)
  {
    && NoDuplicates(names) && InVisitOrder(order, names)
    && (forall n :: n in names ==> n in tree[at.path].listing && !env.entryFails(at.path + [n]))
    && ChildrenUnlisted(st, at.path, names, 0)
    && (forall j :: 0 <= j < |names| ==> EntriesPrecede(order, st, at.path, names[j]))
    && st.entryCount + |names| <= b.maxEntries
  }

  /** Directories found are not forgotten; unless a budget other than depth was hit, not even in spite of failures. */
  ghost predicate StillQueued(tree: Tree, root: Path, b: ScanBudget, env: Env, now: nat, st: Progress, next: Progress,
                              visited: set<Path>)
  {
    && (next.uncertainty.None? && NoneForgotten(root, st, visited) ==> NoneForgotten(root, next, visited))
    && (NoneSkipped(root, b, st, visited) ==>
          NoneSkipped(root, b, next, visited) || Spent(tree, root, b, env, now))
  }

  /** Visit the kept entries of one directory in order, until the path-byte budget stops the scan. */
  method VisitEntries(tree: Tree, root: Path, b: ScanBudget, env: Env, ghost now: nat, ghost order: Order, at: Pending,
                      names: seq<Name>, start: Progress, ghost visited: set<Path>)
    returns (st: Progress, stop: bool)
    requires Reading(tree, root, b, env, now, order, at, start, visited)
    requires Presentable(tree, b, env, order, at, names, start)
    ensures Reading(tree, root, b, env, now, order, at, st, visited) && Extends(start, st)
    ensures st.entryCount <= start.entryCount + |names|
    ensures stop ==> st.uncertainty.Some? && Justified(tree, root, b, env, now, PathByteBudget)
    ensures st.uncertainty.None? ==> ChildrenListed(tree, st, at.path, names, |names|)
    ensures !stop ==> LegibleListed(tree, env, st, at.path, names, |names|)
    ensures StillQueued(tree, root, b, env, now, start, st, visited)
  {
    st, stop := start, false;
    var i := 0;
    while i < |names|
      invariant 0 <= i <= |names|
      invariant Steady(tree, root, b, env, now, order, st, visited, |at.path|) && Extends(start, st)
      invariant forall j :: i <= j < |names| ==> EntriesPrecede(order, st, at.path, names[j])
      invariant st.entryCount == start.entryCount + i
      invariant ChildrenUnlisted(st, at.path, names, i)
      invariant st.uncertainty.None? ==> ChildrenListed(tree, st, at.path, names, i)
      invariant !stop && LegibleListed(tree, env, st, at.path, names, i)
      invariant StillQueued(tree, root, b, env, now, start, st, visited)
    {
      assert names[i] in names && Unlisted(st, at.path + [names[i]]);
      ghost var before := st;
      st, stop := VisitEntry(tree, root, b, env, now, order, at, names[i], st, visited);
      OneMoreChild(tree, before, st, at.path, names, i);
      if stop {
        return;
      }
      OneMoreLegible(tree, env, before, st, at.path, names, i);
      i := i + 1;
    }
  }

  ghost predicate Unlisted(st: Progress, p: Path) {
    p !in st.directories && p !in st.files
  }

  ghost predicate ChildrenUnlisted(st: Progress, dir: Path, names: seq<Name>, from: nat) {
    forall j :: from <= j < |names| ==> Unlisted(st, dir + [names[j]])
  }

  ghost predicate ChildrenListed(tree: Tree, st: Progress, dir: Path, names: seq<Name>, until: nat)
    requires until <= |names|
  {
    forall j :: 0 <= j < until ==> Listed(tree, st, dir + [names[j]])
  }

  ghost predicate LegibleListed(tree: Tree, env: Env, st: Progress, dir: Path, names: seq<Name>, until: nat)
    requires until <= |names|
  {
    forall j :: 0 <= j < until && !env.typeFails(dir + [names[j]]) ==> Listed(tree, st, dir + [names[j]])
  }

  lemma OneMoreLegible(tree: Tree, env: Env, st: Progress, next: Progress, dir: Path, names: seq<Name>, i: nat)
    requires i < |names| && Extends(st, next) && LegibleListed(tree, env, st, dir, names, i)
    requires !env.typeFails(dir + [names[i]]) ==> Listed(tree, next, dir + [names[i]])
    ensures LegibleListed(tree, env, next, dir, names, i + 1)
  {
    forall j | 0 <= j < i + 1 && !env.typeFails(dir + [names[j]])
      ensures Listed(tree, next, dir + [names[j]])
    {
      if j < i {
        ListedStays(tree, st, next, dir + [names[j]]);
      }
    }
  }

  lemma OneMoreChild(tree: Tree, st: Progress, next: Progress, dir: Path, names: seq<Name>, i: nat)
    requires i < |names| && NoDuplicates(names) && Extends(st, next)
    requires ChildrenUnlisted(st, dir, names, i)
    requires forall p :: p in next.directories ==> p in st.directories || p == dir + [names[i]]
    requires forall p :: p in next.files ==> p in st.files || p == dir + [names[i]]
    ensures ChildrenUnlisted(next, dir, names, i + 1)
    ensures ChildrenListed(tree, st, dir, names, i) && Listed(tree, next, dir + [names[i]]) ==>
              ChildrenListed(tree, next, dir, names, i + 1)
  {
    forall j | i + 1 <= j < |names|
      ensures Unlisted(next, dir + [names[j]])
    {
      assert Unlisted(st, dir + [names[j]]);
      assert (dir + [names[j]])[|dir|] == names[j] && (dir + [names[i]])[|dir|] == names[i];
    }
    if ChildrenListed(tree, st, dir, names, i) && Listed(tree, next, dir + [names[i]]) {
      forall j | 0 <= j < i + 1
        ensures Listed(tree, next, dir + [names[j]])
      {
        if j < i {
          ListedStays(tree, st, next, dir + [names[j]]);
        }
      }
    }
  }

  // ----- the whole scan -----

  /** Everything known while the queue is being worked off. */
  ghost predicate Working(tree: Tree, root: Path, b: ScanBudget, env: Env, now: nat, order: Order, st: Progress,
                          visited: set<Path>)
  {
    && WellFormed(tree) && IsDirectory(tree, root)
    && Sound(tree, root, b, st, visited) && Excused(tree, root, b, env, now, st.uncertainty)
    && InOrderSoFar(order, st) && AllSeen(tree, root, b, env, st)
    && (st.queue != [] ==> AtLevel(st, |st.queue[0].path|))
    && AllReachable(tree, root, visited) && st.entryCount <= |EntriesOf(tree, visited)|
    && Complete(tree, root, st, visited)
    && (Thorough(tree, root, b, env, st, visited) || Spent(tree, root, b, env, now))
  }

  /** Without uncertainty nothing found is forgotten and everything taken up was read completely. */
  ghost predicate Complete(tree: Tree, root: Path, st: Progress, visited: set<Path>) {
    st.uncertainty.None? ==>
      NoneForgotten(root, st, visited) && forall d :: d in visited ==> ReadCompletely(tree, st, d)
  }

  lemma StartIsWorking(tree: Tree, root: Path, b: ScanBudget, env: Env, order: Order)
    requires WellFormed(tree) && IsDirectory(tree, root)
    ensures Working(tree, root, b, env, 0, order, Progress([Pending(root, 0)], [], [], 0, 0, None), {})
  {
    var st := Progress([Pending(root, 0)], [], [], 0, 0, None);
    assert st.queue[0].path == root;
    assert InQueue(st, root);
  }

  ghost function Children(dir: Path, names: seq<Name>): set<Path> {
    set n | n in names :: dir + [n]
  }

  lemma {:induction false} ChildrenCount(dir: Path, names: seq<Name>)
    requires NoDuplicates(names)
    ensures |Children(dir, names)| == |names|
  {
    if names != [] {
      var front, last := names[..|names| - 1], names[|names| - 1];
      ChildrenCount(dir, front);
      assert names == front + [last];
      assert Children(dir, names) == Children(dir, front) + {dir + [last]};
      forall n | n in front
        ensures dir + [n] != dir + [last]
      {
        assert (dir + [n])[|dir|] == n && (dir + [last])[|dir|] == last;
      }
    }
  }

  /** A directory taken up contributes all its entries, and no other directory has any of them. */
  lemma EntriesGrow(tree: Tree, visited: set<Path>, d: Path)
    requires WellFormed(tree) && IsDirectory(tree, d) && d !in visited
    ensures |EntriesOf(tree, visited + {d})| == |EntriesOf(tree, visited)| + |tree[d].listing|
  {
    var mine := Children(d, tree[d].listing);
    ChildrenCount(d, tree[d].listing);
    assert EntriesOf(tree, visited + {d}) == EntriesOf(tree, visited) + mine;
    forall p | p in EntriesOf(tree, visited)
      ensures p !in mine
    {
      var e, n :| e in visited && IsDirectory(tree, e) && n in tree[e].listing && p == e + [n];
      assert Parent(p) == e;
      assert forall m :: m in tree[d].listing ==> Parent(d + [m]) == d;
    }
  }

  /** Taking a directory off the queue. */
  lemma TakeUp(tree: Tree, root: Path, b: ScanBudget, env: Env, now: nat, order: Order, st: Progress,
               visited: set<Path>)
    requires Working(tree, root, b, env, now, order, st, visited) && st.queue != []
    ensures var at, rest := st.queue[0], st.(queue := st.queue[1..]);
            && at.path !in visited && Current(tree, root, b, visited + {at.path}, at)
            && Visible(tree, root, b, env, at.path)
            && Steady(tree, root, b, env, now, order, rest, visited + {at.path}, |at.path|)
            && NoneYet(rest, at.path)
  {
    hide Excused, Complete, Thorough, Spent, EntriesOf, Arranged;
    var at, rest := st.queue[0], st.(queue := st.queue[1..]);
    assert QueueOk(root, b, rest, visited + {at.path}) by {
      assert forall i :: 0 <= i < |rest.queue| ==> rest.queue[i] == st.queue[i + 1];
    }
    PopLevel(st);
    NewDirectoryHasNone(tree, root, b, st, visited, at.path);
  }

  lemma TakeUpForgetsNone(root: Path, b: ScanBudget, st: Progress, visited: set<Path>)
    requires st.queue != []
    ensures var at, rest := st.queue[0], st.(queue := st.queue[1..]);
            && (NoneForgotten(root, st, visited) ==> NoneForgotten(root, rest, visited + {at.path}))
            && (NoneSkipped(root, b, st, visited) ==> NoneSkipped(root, b, rest, visited + {at.path}))
  {
    var at, rest := st.queue[0], st.(queue := st.queue[1..]);
    forall p | InQueue(st, p) && p != at.path
      ensures InQueue(rest, p)
    {
      var i :| 0 <= i < |st.queue| && st.queue[i].path == p;
      assert rest.queue[i - 1] == st.queue[i];
    }
  }

  lemma CompletionSurvives(tree: Tree, st: Progress, later: Progress, visited: set<Path>)
    requires Extends(st, later) && forall d :: d in visited ==> ReadCompletely(tree, st, d)
    ensures forall d :: d in visited ==> ReadCompletely(tree, later, d)
  {
    forall d | d in visited
      ensures ReadCompletely(tree, later, d)
    {
      forall n | n in tree[d].listing
        ensures Listed(tree, later, d + [n])
      {
        assert ReadCompletely(tree, st, d);
        ListedStays(tree, st, later, d + [n]);
      }
    }
  }

  /** With nothing uncertain and nothing queued, every reachable directory and file is in its list. */
  lemma {:induction false} FoundAll(tree: Tree, root: Path, st: Progress, visited: set<Path>, p: Path)
    requires NoneForgotten(root, st, visited) && st.queue == []
    requires forall d :: d in visited ==> ReadCompletely(tree, st, d)
    requires Reachable(tree, root, p) && p != root && p in tree
    ensures tree[p].Directory? ==> p in st.directories
    ensures tree[p].RegularFile? ==> p in st.files
    decreases |p|
  {
    var parent := Parent(p);
    if parent != root {
      FoundAll(tree, root, st, visited, parent);
    }
    assert parent in visited || InQueue(st, parent);
    assert ReadCompletely(tree, st, parent);
    assert p == parent + [p[|p| - 1]];
  }

  /** With nothing queued, every directory and file that the scan can see is in its list, whatever else failed. */
  lemma {:induction false} FoundSeen(tree: Tree, root: Path, b: ScanBudget, env: Env, st: Progress, visited: set<Path>,
                                     p: Path)
    requires Thorough(tree, root, b, env, st, visited) && st.queue == []
    requires Visible(tree, root, b, env, p) && p != root && p in tree
    ensures Listed(tree, st, p)
    decreases |p|
  {
    var parent := Parent(p);
    if parent != root {
      FoundSeen(tree, root, b, env, st, visited, parent);
    }
    assert parent in visited || InQueue(st, parent);
    assert ReadThrough(tree, env, st, parent);
    assert p == parent + [p[|p| - 1]];
  }

  /** A result: what it lists is right and within budget, and without uncertainty it is everything there is. */
  ghost predicate Describes(tree: Tree, root: Path, b: ScanBudget, r: ScanResult) {
    && NoDuplicates(r.directories) && NoDuplicates(r.files)
    && (forall p :: p in r.directories ==> Reachable(tree, root, p) && IsDirectory(tree, p))
    && (forall p :: p in r.files ==> Reachable(tree, root, p) && IsFile(tree, p))
    && (forall p :: p in r.directories || p in r.files ==> |root| < |p| <= |root| + b.maxDepth)
    && |r.directories| + |r.files| <= b.maxEntries
    && (b.maxPathBytes < U64_MAX ==> TotalBytes(r.directories) + TotalBytes(r.files) <= b.maxPathBytes)
    && (r.uncertainty.None? ==>
          forall p :: p in tree && p != root && Reachable(tree, root, p) ==>
            (IsDirectory(tree, p) ==> p in r.directories) && (IsFile(tree, p) ==> p in r.files))
  }

  /** The result lists exactly the directories and files that a scan of this depth can see. */
  ghost predicate ListsVisible(tree: Tree, root: Path, b: ScanBudget, env: Env, r: ScanResult) {
    && (forall p :: p in r.directories <==> p != root && IsDirectory(tree, p) && Visible(tree, root, b, env, p))
    && (forall p :: p in r.files <==> p != root && IsFile(tree, p) && Visible(tree, root, b, env, p))
  }

  lemma WorkedOff(tree: Tree, root: Path, b: ScanBudget, env: Env, now: nat, order: Order, st: Progress,
                  visited: set<Path>)
    requires Working(tree, root, b, env, now, order, st, visited) && (st.queue == [] || st.uncertainty.Some?)
    ensures Describes(tree, root, b, ScanResult(st.directories, st.files, st.uncertainty))
  {
    hide Thorough, Spent, Excused, AllSeen, InOrderSoFar, AtLevel, EntriesOf;
    if st.uncertainty.None? {
      forall p | p in tree && p != root && Reachable(tree, root, p)
        ensures (IsDirectory(tree, p) ==> p in st.directories) && (IsFile(tree, p) ==> p in st.files)
      {
        FoundAll(tree, root, st, visited, p);
      }
    }
  }

  lemma SeenIsListed(tree: Tree, root: Path, b: ScanBudget, env: Env, now: nat, order: Order, st: Progress,
                     visited: set<Path>)
    requires Working(tree, root, b, env, now, order, st, visited)
    requires st.queue == [] && !Spent(tree, root, b, env, now)
    ensures ListsVisible(tree, root, b, env, ScanResult(st.directories, st.files, st.uncertainty))
  {
    hide Thorough, Spent, Excused, InOrderSoFar, AtLevel, EntriesOf, Complete, BudgetsOk;
    forall p | p != root && p in tree && Visible(tree, root, b, env, p)
      ensures Listed(tree, st, p)
    {
      FoundSeen(tree, root, b, env, st, visited, p);
    }
  }

  function Noted(st: Progress, reason: Uncertainty): Progress {
    st.(uncertainty := Note(st.uncertainty, reason))
  }

  lemma NotingKeeps(tree: Tree, root: Path, b: ScanBudget, env: Env, now: nat, order: Order, st: Progress,
                    visited: set<Path>, d: nat, reason: Uncertainty)
    requires Sound(tree, root, b, st, visited) && AtLevel(st, d) && InOrderSoFar(order, st)
    requires Excused(tree, root, b, env, now, st.uncertainty) && Justified(tree, root, b, env, now, reason)
    ensures Sound(tree, root, b, Noted(st, reason), visited)
    ensures AtLevel(Noted(st, reason), d) && InOrderSoFar(order, Noted(st, reason))
    ensures Extends(st, Noted(st, reason)) && Noted(st, reason).uncertainty.Some?
    ensures Excused(tree, root, b, env, now, Noted(st, reason).uncertainty)
  {
  }

  /** What hindered reading the entries of a reachable directory excuses the uncertainty it caused. */
  lemma HinderedExcused(tree: Tree, root: Path, b: ScanBudget, env: Env, clock: nat, now: nat, dir: Path,
                        before: Option<Uncertainty>, after: Option<Uncertainty>)
    requires WellFormed(tree) && IsDirectory(tree, dir) && Reachable(tree, root, dir) && clock <= now
    requires Excused(tree, root, b, env, clock, before)
    requires Hindered(dir, tree[dir].listing, env, clock, now, before, after)
    ensures Excused(tree, root, b, env, now, after)
  {
    if before != after && after == Some(PathRace) {
      var n :| n in tree[dir].listing && env.entryFails(dir + [n]);
      assert Parent(dir + [n]) == dir && |root| <= |dir|;
      assert Reachable(tree, root, dir + [n]) && Fails(env, dir + [n]);
    }
  }

  lemma ReplacedKeeps(tree: Tree, root: Path, b: ScanBudget, order: Order, st: Progress,
                      uncertainty: Option<Uncertainty>, visited: set<Path>, d: nat)
    requires Sound(tree, root, b, st, visited) && AtLevel(st, d) && InOrderSoFar(order, st)
    requires st.uncertainty.Some? ==> uncertainty == st.uncertainty
    ensures var next := st.(uncertainty := uncertainty);
            Sound(tree, root, b, next, visited) && AtLevel(next, d) && InOrderSoFar(order, next) && Extends(st, next)
  {
  }

  lemma EntriesOverflow(tree: Tree, root: Path, b: ScanBudget, env: Env, now: nat, visited: set<Path>, d: Path)
    requires AllReachable(tree, root, visited) && Reachable(tree, root, d)
    requires |EntriesOf(tree, visited + {d})| > b.maxEntries
    ensures Justified(tree, root, b, env, now, EntryBudget)
  {
    assert AllReachable(tree, root, visited + {d});
  }

  lemma ReadingSurvives(tree: Tree, env: Env, st: Progress, later: Progress, visited: set<Path>)
    requires Extends(st, later) && forall d :: d in visited ==> ReadThrough(tree, env, st, d)
    ensures forall d :: d in visited ==> ReadThrough(tree, env, later, d)
  {
    forall d | d in visited
      ensures ReadThrough(tree, env, later, d)
    {
      assert ReadThrough(tree, env, st, d);
      forall n | n in tree[d].listing && Listed(tree, st, d + [n])
        ensures Listed(tree, later, d + [n])
      {
        ListedStays(tree, st, later, d + [n]);
      }
    }
  }

  /** A directory has been dealt with: the scan goes on knowing what it knew. */
  lemma DirectoryDone(tree: Tree, root: Path, b: ScanBudget, env: Env, clock: nat, now: nat, order: Order,
                      st: Progress, next: Progress, visited: set<Path>, d: Path)
    requires Working(tree, root, b, env, clock, order, st, visited) && clock <= now && Reachable(tree, root, d)
    requires Steady(tree, root, b, env, now, order, next, visited + {d}, |d|) && Extends(st, next)
    requires next.entryCount <= |EntriesOf(tree, visited + {d})|
    requires next.uncertainty.None? ==> NoneForgotten(root, next, visited + {d})
    requires NoneSkipped(root, b, st, visited) ==>
               NoneSkipped(root, b, next, visited + {d}) || Spent(tree, root, b, env, now)
    requires DealtWith(tree, root, b, env, now, next, d)
    ensures Working(tree, root, b, env, now, order, next, visited + {d})
  {
    hide Sound, Excused, InOrderSoFar, AllSeen, EntriesOf, ReadThrough, ReadCompletely, NoneForgotten, NoneSkipped;
    if next.uncertainty.None? {
      CompletionSurvives(tree, st, next, visited);
    }
    if !Spent(tree, root, b, env, now) {
      ReadingSurvives(tree, env, st, next, visited);
    }
    NextLevel(next, |d|);
  }

  /** A directory that cannot be opened, or is empty, or no longer fits the entry budget. */
  lemma PassedOver(tree: Tree, root: Path, b: ScanBudget, env: Env, now: nat, order: Order, st: Progress,
                   next: Progress, visited: set<Path>)
    requires Working(tree, root, b, env, now, order, st, visited) && st.queue != []
    requires var at, rest := st.queue[0], st.(queue := st.queue[1..]);
             && (next == rest
                 || exists reason :: Justified(tree, root, b, env, now, reason) && next == Noted(rest, reason))
             && DealtWith(tree, root, b, env, now, next, at.path)
    ensures Working(tree, root, b, env, now, order, next, visited + {st.queue[0].path})
  {
    hide Visible, NoneForgotten, NoneSkipped, InOrderSoFar, Justified, Excused, DealtWith, NoneYet, ReadCompletely;
    hide Thorough, Spent, AtLevel, QueueOk, ListsOk, BudgetsOk, Sound, EntriesOf;
    var at, rest := st.queue[0], st.(queue := st.queue[1..]);
    TakeUp(tree, root, b, env, now, order, st, visited);
    TakeUpForgetsNone(root, b, st, visited);
    EntriesGrow(tree, visited, at.path);
    SameQueue(root, b, rest, next, visited + {at.path});
    if next != rest {
      var reason :| Justified(tree, root, b, env, now, reason) && next == Noted(rest, reason);
      NotingKeeps(tree, root, b, env, now, order, rest, visited + {at.path}, |at.path|, reason);
    }
    DirectoryDone(tree, root, b, env, now, now, order, st, next, visited, at.path);
  }

  /** Read one directory under the remaining budgets; `stop` ends the scan with what it has. */
  method ScanDirectory(tree: Tree, root: Path, b: ScanBudget, order: Order, env: Env, st: Progress, clock: nat,
                       ghost visited: set<Path>) returns (next: Progress, stop: bool, now: nat)
    requires Working(tree, root, b, env, clock, order, st, visited) && st.queue != []
    ensures Working(tree, root, b, env, now, order, next, visited + {st.queue[0].path})
    ensures st.queue[0].path !in visited && st.queue[0].path in tree
    ensures clock <= now
    ensures |EntriesOf(tree, visited + {st.queue[0].path})| - now >= |EntriesOf(tree, visited)| - clock
    ensures stop ==> next.uncertainty.Some? && Spent(tree, root, b, env, now)
  {
    hide Visible, NoneForgotten, NoneSkipped, AllSeen, InOrderSoFar, EntriesOf, Reachable, Thorough, AtLevel;
    hide ReadCompletely, QueueOk, ListsOk, NoneYet, DealtWith;
    var at := st.queue[0];
    TakeUp(tree, root, b, env, clock, order, st, visited);
    TakeUpForgetsNone(root, b, st, visited);
    EntriesGrow(tree, visited, at.path);
    next, stop, now := st.(queue := st.queue[1..]), false, clock;
    if env.openFails(at.path) {
      next := Noted(next, PathRace);
      UnopenedIsDealtWith(tree, root, b, env, now, next, at.path);
      PassedOver(tree, root, b, env, now, order, st, next, visited);
    } else if next.entryCount >= b.maxEntries {
      if tree[at.path].listing != [] {
        EntriesOverflow(tree, root, b, env, now, visited, at.path);
        next := Noted(next, EntryBudget);
        stop := true;
      }
      UnreadIsDealtWith(tree, root, b, env, now, next, at.path);
      PassedOver(tree, root, b, env, now, order, st, next, visited);
    } else {
      next, stop, now := ScanEntries(tree, root, b, order, env, at, next, clock, visited);
      DirectoryDone(tree, root, b, env, clock, now, order, st, next, visited, at.path);
    }
  }

  lemma UnopenedIsDealtWith(tree: Tree, root: Path, b: ScanBudget, env: Env, now: nat, next: Progress, dir: Path)
    requires IsDirectory(tree, dir) && Reachable(tree, root, dir) && env.openFails(dir) && next.uncertainty.Some?
    ensures DealtWith(tree, root, b, env, now, next, dir) && Justified(tree, root, b, env, now, PathRace)
  {
    assert Fails(env, dir);
  }

  lemma UnreadIsDealtWith(tree: Tree, root: Path, b: ScanBudget, env: Env, now: nat, next: Progress, dir: Path)
    requires IsDirectory(tree, dir)
    requires tree[dir].listing == []
             || (next.uncertainty.Some? && Justified(tree, root, b, env, now, EntryBudget))
    ensures DealtWith(tree, root, b, env, now, next, dir)
  {
  }

  lemma PopLevel(st: Progress)
    requires st.queue != [] && AtLevel(st, |st.queue[0].path|)
    ensures AtLevel(st.(queue := st.queue[1..]), |st.queue[0].path|)
  {
  }

  lemma NextLevel(st: Progress, d: nat)
    requires AtLevel(st, d)
    ensures st.queue != [] ==> AtLevel(st, |st.queue[0].path|)
  {
  }

  lemma NoneYetMeansUnlisted(order: Order, st: Progress, dir: Path, names: seq<Name>)
    requires NoneYet(st, dir)
    ensures ChildrenUnlisted(st, dir, names, 0)
    ensures forall j :: 0 <= j < |names| ==> EntriesPrecede(order, st, dir, names[j])
  {
    forall j | 0 <= j < |names|
      ensures Unlisted(st, dir + [names[j]])
    {
      assert Parent(dir + [names[j]]) == dir;
    }
  }

  /** No entry of `dir` is listed. */
  ghost predicate NoneYet(st: Progress, dir: Path) {
    && (forall i :: 0 <= i < |st.directories| && st.directories[i] != [] ==> Parent(st.directories[i]) != dir)
    && (forall i :: 0 <= i < |st.files| && st.files[i] != [] ==> Parent(st.files[i]) != dir)
  }

  /** Listed paths belong to directories already taken up, so a new one has no listed entries. */
  lemma NewDirectoryHasNone(tree: Tree, root: Path, b: ScanBudget, st: Progress, visited: set<Path>, dir: Path)
    requires ListsOk(tree, root, b, st, visited) && dir !in visited
    ensures NoneYet(st, dir)
  {
    forall i | 0 <= i < |st.directories| && st.directories[i] != []
      ensures Parent(st.directories[i]) != dir
    {
      assert st.directories[i] in st.directories;
    }
    forall i | 0 <= i < |st.files| && st.files[i] != []
      ensures Parent(st.files[i]) != dir
    {
      assert st.files[i] in st.files;
    }
  }

  /** What the scan of a directory owes: all its entries, or without uncertainty at least; or a budget was hit. */
  ghost predicate DealtWith(tree: Tree, root: Path, b: ScanBudget, env: Env, now: nat, next: Progress, dir: Path) {
    && (next.uncertainty.None? ==> ReadCompletely(tree, next, dir))
    && (ReadThrough(tree, env, next, dir) || Spent(tree, root, b, env, now))
  }

  /** A directory that has just been taken up and can be opened, with room left in the entry budget. */
  ghost predicate Opened(tree: Tree, root: Path, b: ScanBudget, env: Env, clock: nat, order: Order, at: Pending,
                         st: Progress, visited: set<Path>)
  {
    && Reading(tree, root, b, env, clock, order, at, st, visited + {at.path}) && at.path !in visited
    && AllReachable(tree, root, visited) && st.entryCount <= |EntriesOf(tree, visited)|
    && st.entryCount < b.maxEntries && NoneYet(st, at.path)
  }

  /** The names kept from a directory just read can be visited. */
  lemma KeptArePresentable(tree: Tree, root: Path, b: ScanBudget, order: Order, env: Env, at: Pending, st: Progress,
                           clock: nat, visited: set<Path>, entries: Listing, read: set<Name>)
    requires Opened(tree, root, b, env, clock, order, at, st, visited)
    requires read <= (set n | n in tree[at.path].listing) && forall n :: n in read ==> !env.entryFails(at.path + [n])
    requires KeepsFirst(order, SatSub(b.maxEntries, st.entryCount), read, entries.kept)
    requires clock <= entries.clock && (st.uncertainty.Some? ==> entries.uncertainty == st.uncertainty)
    requires Hindered(at.path, tree[at.path].listing, env, clock, entries.clock, st.uncertainty, entries.uncertainty)
    ensures var start := st.(uncertainty := entries.uncertainty);
            && Reading(tree, root, b, env, entries.clock, order, at, start, visited + {at.path})
            && Presentable(tree, b, env, order, at, entries.kept, start)
    ensures Dropped(read, entries.kept) ==>
              st.entryCount + |entries.kept| == b.maxEntries && |entries.kept| < |tree[at.path].listing|
    ensures |entries.kept| <= |tree[at.path].listing|
  {
    hide AtLevel, InOrderSoFar, Visible, AllReachable, EntriesOf, Reachable, EntriesPrecede, Justified, QueueOk;
    hide ListsOk;
    HinderedExcused(tree, root, b, env, clock, entries.clock, at.path, st.uncertainty, entries.uncertainty);
    ReplacedKeeps(tree, root, b, order, st, entries.uncertainty, visited + {at.path}, |at.path|);
    KeptAreDistinct(order, entries.kept);
    KeptWithin(tree[at.path].listing, entries.kept, read);
    NoneYetMeansUnlisted(order, st.(uncertainty := entries.uncertainty), at.path, entries.kept);
  }

  lemma SameQueue(root: Path, b: ScanBudget, st: Progress, other: Progress, visited: set<Path>)
    requires st.queue == other.queue && st.directories == other.directories
    ensures NoneForgotten(root, st, visited) <==> NoneForgotten(root, other, visited)
    ensures NoneSkipped(root, b, st, visited) <==> NoneSkipped(root, b, other, visited)
  {
    assert forall p :: InQueue(st, p) <==> InQueue(other, p);
  }

  lemma NotingReads(tree: Tree, root: Path, b: ScanBudget, env: Env, now: nat, order: Order, at: Pending,
                    st: Progress, visited: set<Path>, reason: Uncertainty)
    requires Reading(tree, root, b, env, now, order, at, st, visited)
    requires Justified(tree, root, b, env, now, reason)
    ensures Reading(tree, root, b, env, now, order, at, Noted(st, reason), visited)
    ensures Extends(st, Noted(st, reason)) && Noted(st, reason).uncertainty.Some?
  {
    hide Visible;
    NotingKeeps(tree, root, b, env, now, order, st, visited, |at.path|, reason);
  }

  /** Read and visit a directory's entries while the entry budget has room. */
  method ScanEntries(tree: Tree, root: Path, b: ScanBudget, order: Order, env: Env, at: Pending, st: Progress,
                     clock: nat, ghost visited: set<Path>) returns (next: Progress, stop: bool, now: nat)
    requires Opened(tree, root, b, env, clock, order, at, st, visited)
    ensures Reading(tree, root, b, env, now, order, at, next, visited + {at.path}) && Extends(st, next)
    ensures next.entryCount <= |EntriesOf(tree, visited + {at.path})|
    ensures clock <= now <= clock + |tree[at.path].listing|
    ensures stop ==> next.uncertainty.Some? && Spent(tree, root, b, env, now)
    ensures DealtWith(tree, root, b, env, now, next, at.path)
    ensures StillQueued(tree, root, b, env, now, st, next, visited + {at.path})
  {
    hide AtLevel, InOrderSoFar, Visible, AllSeen, NoneSkipped, NoneForgotten, Hindered, QueueOk, ListsOk, Steady;
    hide AllReachable, EntriesOf, Reachable, KeepsFirst, NoneYet, Presentable, LegibleListed, ChildrenListed;
    var listing := tree[at.path].listing;
    EntriesGrow(tree, visited, at.path);
    var entries, read := ReadEntries(
      at.path, listing, SatSub(b.maxEntries, st.entryCount), order, env, st.uncertainty, clock);
    now := entries.clock;
    KeptArePresentable(tree, root, b, order, env, at, st, clock, visited, entries, read);
    SameQueue(root, b, st, st.(uncertainty := entries.uncertainty), visited + {at.path});
    next, stop := VisitEntries(tree, root, b, env, now, order, at, entries.kept,
                               st.(uncertainty := entries.uncertainty), visited + {at.path});
    if !stop && entries.exhausted {
      EntriesOverflow(tree, root, b, env, now, visited, at.path);
      NotingReads(tree, root, b, env, now, order, at, next, visited + {at.path}, EntryBudget);
      SameQueue(root, b, next, Noted(next, EntryBudget), visited + {at.path});
      next := Noted(next, EntryBudget);
      stop := true;
    }
    if next.uncertainty.None? {
      AllChildrenListed(tree, next, at.path, entries.kept);
    }
    if !Spent(tree, root, b, env, now) {
      AllLegibleListed(tree, env, next, at.path, entries.kept);
    }
  }

  lemma AllLegibleListed(tree: Tree, env: Env, st: Progress, dir: Path, names: seq<Name>)
    requires IsDirectory(tree, dir) && LegibleListed(tree, env, st, dir, names, |names|)
    requires forall n :: n in tree[dir].listing && !env.entryFails(dir + [n]) ==> n in names
    ensures ReadThrough(tree, env, st, dir)
  {
    forall n | n in tree[dir].listing && Legible(env, dir + [n])
      ensures Listed(tree, st, dir + [n])
    {
      var j :| 0 <= j < |names| && names[j] == n;
    }
  }

  lemma AllChildrenListed(tree: Tree, st: Progress, dir: Path, names: seq<Name>)
    requires IsDirectory(tree, dir) && ChildrenListed(tree, st, dir, names, |names|)
    requires forall n :: n in tree[dir].listing ==> n in names
    ensures ReadCompletely(tree, st, dir)
  {
    forall n | n in tree[dir].listing
      ensures Listed(tree, st, dir + [n])
    {
      var j :| 0 <= j < |names| && names[j] == n;
    }
  }

  lemma {:induction false} NamesCount(names: seq<Name>)
    requires NoDuplicates(names)
    ensures |set n | n in names| == |names|
  {
    if names != [] {
      var front, last := names[..|names| - 1], names[|names| - 1];
      NamesCount(front);
      assert names == front + [last];
      assert (set n | n in names) == (set n | n in front) + {last};
    }
  }

  /** Keeping a part of what was read counts no more entries than there are, and fewer if one was dropped. */
  lemma KeptWithin(listing: seq<Name>, kept: seq<Name>, read: set<Name>)
    requires NoDuplicates(listing) && NoDuplicates(kept)
    requires read <= (set n | n in listing) && (forall k :: k in kept ==> k in read)
    ensures |kept| <= |listing|
    ensures Dropped(read, kept) ==> |kept| < |listing|
  {
    var all, some := set n | n in listing, set n | n in kept;
    NamesCount(listing);
    NamesCount(kept);
    assert all == some + (all - some);
    if Dropped(read, kept) {
      var n :| n in read && n !in kept;
      assert n in all - some;
    }
  }

  lemma KeptAreDistinct(order: Order, kept: seq<Name>)
    requires InVisitOrder(order, kept)
    ensures NoDuplicates(kept)
  {
    forall i, j | 0 <= i < j < |kept|
      ensures kept[i] != kept[j]
    {
      BeforeTotal(order, kept[i], kept[j]);
    }
  }

  lemma EntriesOfMore(tree: Tree, some: set<Path>, all: set<Path>)
    requires some <= all
    ensures |some| + |EntriesOf(tree, some)| <= |all| + |EntriesOf(tree, all)|
  {
    SubsetCount(some, all);
    SubsetCount(EntriesOf(tree, some), EntriesOf(tree, all));
  }

  lemma SubsetCount(some: set<Path>, all: set<Path>)
    requires some <= all
    ensures |some| <= |all|
  {
    assert all == some + (all - some);
  }

  /** Clock readings so far: at most one for each directory taken up and each of its entries. */
  ghost predicate ReadingsBounded(tree: Tree, visited: set<Path>, now: nat) {
    now <= |visited| + |EntriesOf(tree, visited)|
  }

  lemma OneMoreTakenUp(tree: Tree, visited: set<Path>, d: Path, clock: nat, now: nat)
    requires ReadingsBounded(tree, visited, clock) && d !in visited
    requires |EntriesOf(tree, visited + {d})| - now >= |EntriesOf(tree, visited)| - clock - 1
    ensures ReadingsBounded(tree, visited + {d}, now)
  {
  }

  lemma TimeIsUp(tree: Tree, root: Path, b: ScanBudget, env: Env, now: nat, order: Order, st: Progress,
                 visited: set<Path>)
    requires 0 < now && env.expired(now)
    requires Working(tree, root, b, env, now - 1, order, st, visited) && st.queue != []
    ensures Working(tree, root, b, env, now, order, Noted(st, TimeBudget), visited)
    ensures Noted(st, TimeBudget).uncertainty.Some? && Spent(tree, root, b, env, now)
  {
    hide Sound, InOrderSoFar, AtLevel, EntriesOf, Reachable, AllReachable, Findable, Excused, NoneForgotten;
    ClockGoesOn(tree, root, b, env, now - 1, now, order, st, visited);
    NotingKeeps(tree, root, b, env, now, order, st, visited, |st.queue[0].path|, TimeBudget);
  }

  lemma ClockGoesOn(tree: Tree, root: Path, b: ScanBudget, env: Env, clock: nat, now: nat, order: Order,
                    st: Progress, visited: set<Path>)
    requires Working(tree, root, b, env, clock, order, st, visited) && clock <= now
    ensures Working(tree, root, b, env, now, order, st, visited)
  {
    hide Sound, InOrderSoFar, AllSeen, AtLevel, EntriesOf, Complete, Thorough, Reachable, AllReachable, Findable;
  }

  /**
   * The scan. For any tree and enumeration order, any clock and any failures: it terminates, what it lists is right,
   * free of duplicates, breadth first with siblings in visiting order, and within every budget, a result without
   * uncertainty is complete, and an uncertainty is reported only when its budget is really exceeded by the tree, one
   * of the `now` clock readings taken, at most one for each directory and entry, showed that time had run out, or
   * something reachable really failed. And failures cost no more than what is behind them: unless time ran out or the
   * tree exceeds the entry or path-byte budget, exactly what can be seen within the depth budget is listed.
   */
  method ScanTree(tree: Tree, root: Path, b: ScanBudget, order: Order, env: Env)
    returns (r: Option<ScanResult>, now: nat)
    requires WellFormed(tree)
    ensures r.None? <==> !IsDirectory(tree, root)
    ensures r.Some? ==> Describes(tree, root, b, r.value) && Excused(tree, root, b, env, now, r.value.uncertainty)
    ensures r.Some? ==> Arranged(order, r.value.directories) && Arranged(order, r.value.files)
    ensures r.Some? && !Spent(tree, root, b, env, now) ==> ListsVisible(tree, root, b, env, r.value)
    ensures now <= |tree.Keys| + |EntriesOf(tree, tree.Keys)| + 1
  {
    hide AtLevel, Reachable, Thorough, Describes, AllSeen, Complete, ListsVisible, Spent;
    now := 0;
    if !IsDirectory(tree, root) {
      return None, now;
    }
    var st, stop := Progress([Pending(root, 0)], [], [], 0, 0, None), false;
    ghost var visited: set<Path> := {};
    StartIsWorking(tree, root, b, env, order);
    while st.queue != [] && !stop
      invariant Working(tree, root, b, env, now, order, st, visited)
      invariant stop ==> st.uncertainty.Some? && Spent(tree, root, b, env, now)
      invariant ReadingsBounded(tree, visited, if stop then SatSub(now, 1) else now)
      decreases tree.Keys - visited, !stop
    {
      now := now + 1;
      if env.expired(now) {
        TimeIsUp(tree, root, b, env, now, order, st, visited);
        st := Noted(st, TimeBudget);
        stop := true;
      } else {
        ClockGoesOn(tree, root, b, env, now - 1, now, order, st, visited);
        ghost var path, clock := st.queue[0].path, now;
        st, stop, now := ScanDirectory(tree, root, b, order, env, st, now, visited);
        OneMoreTakenUp(tree, visited, path, SatSub(clock, 1), now);
        visited := visited + {path};
      }
    }
    WorkedOff(tree, root, b, env, now, order, st, visited);
    if !Spent(tree, root, b, env, now) {
      SeenIsListed(tree, root, b, env, now, order, st, visited);
    }
    EntriesOfMore(tree, visited, tree.Keys);
    r := Some(ScanResult(st.directories, st.files, st.uncertainty));
  }
}
