/**
 The bounded walk over a skill directory: an explicit stack, fixed limits, and
 counters that are exactly those of a plain recursive walk unless a limit is hit.
 */
module SkillScan {
  import opened Wrappers

  const MAX_DEPTH: nat := 8
  const MAX_DIRECTORIES: nat := 1024
  const MAX_FILES: nat := 4096
  const MAX_ENTRIES_PER_DIRECTORY: nat := 5120

  /** What the walk meets; a skill file that cannot be resolved counts as a plain one. */
  datatype Node =
    | Link
    | Folder(readable: bool, entries: seq<Node>)
    | SkillFile(declared: bool)
    | PlainFile
    | Unknown

  datatype Counter = Directories | Files | Undeclared | Links | Unreadable

  datatype Counts = Counts(directories: nat, files: nat, undeclared: nat, links: nat, unreadable: nat) {
    function Of(what: Counter): nat {
      match what
      case Directories => directories
      case Files => files
      case Undeclared => undeclared
      case Links => links
      case Unreadable => unreadable
    }
  }

  // ----- the recursive walk -----

  function One(condition: bool): nat {
    if condition then 1 else 0
  }

  /** What a node adds to a counter by itself. */
  function Self(what: Counter, n: Node): nat {
    match n
    case Link => One(what == Links)
    case Folder(readable, _) => One(what == Directories || (what == Unreadable && !readable))
    case SkillFile(declared) => One(what == Files || (what == Undeclared && !declared))
    case PlainFile => One(what == Files)
    case Unknown => 0
  }

  function CountIn(what: Counter, n: Node): nat
    decreases n
  {
    Self(what, n) + if n.Folder? && n.readable then CountOf(what, n.entries) else 0
  }

  function CountOf(what: Counter, ns: seq<Node>): nat
    decreases ns
  {
    if ns == [] then 0 else CountOf(what, ns[..|ns| - 1]) + CountIn(what, ns[|ns| - 1])
  }

  /** No folder holds as many entries as are read at once, and none at the greatest depth holds a folder. */
  predicate Fits(n: Node, depth: nat)
    decreases n
  {
    n.Folder? && n.readable ==>
      |n.entries| < MAX_ENTRIES_PER_DIRECTORY && (depth < MAX_DEPTH || NoFolder(n.entries)) && AllFit(n.entries, depth + 1)
  }

  predicate AllFit(ns: seq<Node>, depth: nat)
    decreases ns
  {
    forall k :: 0 <= k < |ns| ==> Fits(ns[k], depth)
  }

  predicate NoFolder(ns: seq<Node>) {
    forall k :: 0 <= k < |ns| ==> !ns[k].Folder?
  }

  predicate OnlyFolders(ns: seq<Node>) {
    forall k :: 0 <= k < |ns| ==> ns[k].Folder?
  }

  /** The whole directory is within the limits. */
  predicate Within(root: Node) {
    Fits(root, 0) && CountIn(Directories, root) <= MAX_DIRECTORIES && CountIn(Files, root) <= MAX_FILES
  }

  lemma OneMore(what: Counter, ns: seq<Node>, n: Node)
    ensures CountOf(what, ns + [n]) == CountOf(what, ns) + CountIn(what, n)
  {
    var more := ns + [n];
    assert more[..|ns|] == ns && more[|ns|] == n;
  }

  lemma FitsOneMore(ns: seq<Node>, n: Node, depth: nat)
    ensures AllFit(ns + [n], depth) <==> AllFit(ns, depth) && Fits(n, depth)
  {
    var more := ns + [n];
    assert more[|ns|] == n;
    assert forall k :: 0 <= k < |ns| ==> more[k] == ns[k];
  }

  lemma {:induction false} PrefixIsLess(what: Counter, ns: seq<Node>, i: nat)
    requires i <= |ns|
    ensures CountOf(what, ns[..i]) <= CountOf(what, ns)
    decreases |ns|
  {
    if i == |ns| {
      assert ns[..i] == ns;
    } else {
      var init := ns[..|ns| - 1];
      PrefixIsLess(what, init, i);
      assert init[..i] == ns[..i];
    }
  }

  // ----- the walk with a stack -----

  datatype Limit = TimeBudget | DirectoryCount | EntryCount | Depth | FileCount

  datatype Place = Place(node: Node, depth: nat)

  /** What the stack still holds. */
  function Ahead(what: Counter, stack: seq<Place>): nat {
    if stack == [] then 0 else Ahead(what, stack[..|stack| - 1]) + CountIn(what, stack[|stack| - 1].node)
  }

  predicate PlacesFit(stack: seq<Place>) {
    forall k :: 0 <= k < |stack| ==> Fits(stack[k].node, stack[k].depth)
  }

  predicate FolderPlaces(stack: seq<Place>) {
    forall k :: 0 <= k < |stack| ==> stack[k].node.Folder?
  }

  lemma AheadOne(what: Counter, stack: seq<Place>, p: Place)
    ensures Ahead(what, stack + [p]) == Ahead(what, stack) + CountIn(what, p.node)
  {
    var more := stack + [p];
    assert more[..|stack|] == stack && more[|stack|] == p;
  }

  lemma PlacesOne(stack: seq<Place>, p: Place)
    ensures PlacesFit(stack + [p]) <==> PlacesFit(stack) && Fits(p.node, p.depth)
    ensures FolderPlaces(stack + [p]) <==> FolderPlaces(stack) && p.node.Folder?
  {
    var more := stack + [p];
    assert more[|stack|] == p;
    assert forall k :: 0 <= k < |stack| ==> more[k] == stack[k];
  }

  /** The folders go on the stack in reverse, so that the first is walked next. */
  function Pushed(stack: seq<Place>, folders: seq<Node>, depth: nat): seq<Place>
    decreases |folders|
  {
    if folders == [] then stack else
    Pushed(stack + [Place(folders[|folders| - 1], depth)], folders[..|folders| - 1], depth)
  }

  lemma {:induction false} PushedCounts(what: Counter, stack: seq<Place>, folders: seq<Node>, depth: nat)
    ensures Ahead(what, Pushed(stack, folders, depth)) == Ahead(what, stack) + CountOf(what, folders)
    decreases |folders|
  {
    if folders != [] {
      var p := Place(folders[|folders| - 1], depth);
      AheadOne(what, stack, p);
      PushedCounts(what, stack + [p], folders[..|folders| - 1], depth);
    }
  }

  lemma {:induction false} PushedFits(stack: seq<Place>, folders: seq<Node>, depth: nat)
    ensures PlacesFit(Pushed(stack, folders, depth)) <==> PlacesFit(stack) && AllFit(folders, depth)
    ensures FolderPlaces(Pushed(stack, folders, depth)) <==> FolderPlaces(stack) && OnlyFolders(folders)
    decreases |folders|
  {
    if folders != [] {
      var init, n := folders[..|folders| - 1], folders[|folders| - 1];
      var p := Place(n, depth);
      PlacesOne(stack, p);
      PushedFits(stack + [p], init, depth);
      assert folders == init + [n];
      FitsOneMore(init, n, depth);
      assert OnlyFolders(folders) <==> OnlyFolders(init) && n.Folder?;
    }
  }

  /** Each look at the clock, in turn: is the deadline past? */
  type Clock = nat -> bool

  ghost predicate EverLate(late: Clock) {
    exists t :: late(t)
  }

  // ----- one directory -----

  /** The entries are counted, or are folders still to be walked. */
  ghost predicate Scanned(before: Counts, entries: seq<Node>, depth: nat, counts: Counts, folders: seq<Node>) {
    && (forall what: Counter :: counts.Of(what) + CountOf(what, folders) == before.Of(what) + CountOf(what, entries))
    && counts.files <= MAX_FILES && counts.directories == before.directories
    && (AllFit(folders, depth + 1) <==> AllFit(entries, depth + 1))
    && (depth >= MAX_DEPTH ==> NoFolder(entries))
    && OnlyFolders(folders)
  }

  lemma FolderKept(before: Counts, entries: seq<Node>, depth: nat, counts: Counts, folders: seq<Node>, n: Node)
    requires Scanned(before, entries, depth, counts, folders) && n.Folder? && depth < MAX_DEPTH
    ensures Scanned(before, entries + [n], depth, counts, folders + [n])
  {
    forall what: Counter
      ensures counts.Of(what) + CountOf(what, folders + [n]) == before.Of(what) + CountOf(what, entries + [n])
    {
      OneMore(what, entries, n);
      OneMore(what, folders, n);
    }
    FitsOneMore(entries, n, depth + 1);
    FitsOneMore(folders, n, depth + 1);
  }

  /** Links are skipped, files counted, and undeclared skill files counted once more. */
  function CountedAs(counts: Counts, entry: Node): (r: Counts)
    requires !entry.Folder?
    ensures forall what: Counter :: r.Of(what) == counts.Of(what) + CountIn(what, entry)
  {
    match entry
    case Link => counts.(links := counts.links + 1)
    case SkillFile(declared) =>
      var files := counts.(files := counts.files + 1);
      if declared then files else files.(undeclared := files.undeclared + 1)
    case PlainFile => counts.(files := counts.files + 1)
    case _ => counts
  }

  lemma EntryCounted(before: Counts, entries: seq<Node>, depth: nat, counts: Counts, folders: seq<Node>, n: Node)
    requires Scanned(before, entries, depth, counts, folders) && !n.Folder?
    requires CountedAs(counts, n).files <= MAX_FILES
    ensures Scanned(before, entries + [n], depth, CountedAs(counts, n), folders)
  {
    var after := CountedAs(counts, n);
    forall what: Counter
      ensures after.Of(what) + CountOf(what, folders) == before.Of(what) + CountOf(what, entries + [n])
    {
      OneMore(what, entries, n);
      assert after.Of(what) == counts.Of(what) + CountIn(what, n);
    }
    FitsOneMore(entries, n, depth + 1);
  }

  /** Why the scan of a directory stopped. */
  ghost predicate Hit(late: Clock, before: Counts, entries: seq<Node>, depth: nat, limit: Limit) {
    match limit
    case TimeBudget => EverLate(late)
    case Depth => depth >= MAX_DEPTH && !NoFolder(entries)
    case FileCount => before.files + CountOf(Files, entries) > MAX_FILES
    case EntryCount => |entries| >= MAX_ENTRIES_PER_DIRECTORY
    case DirectoryCount => false
  }

  ghost predicate NotMore(counts: Counts, before: Counts, entries: seq<Node>) {
    forall what: Counter :: counts.Of(what) <= before.Of(what) + CountOf(what, entries)
  }

  lemma ScannedIsLess(before: Counts, entries: seq<Node>, i: nat, depth: nat, counts: Counts, folders: seq<Node>)
    requires i <= |entries| && Scanned(before, entries[..i], depth, counts, folders)
    ensures NotMore(counts, before, entries)
  {
    forall what: Counter ensures counts.Of(what) <= before.Of(what) + CountOf(what, entries) {
      PrefixIsLess(what, entries, i);
    }
  }

  /** One file too many. */
  lemma FilesExceeded(before: Counts, entries: seq<Node>, i: nat, depth: nat, counts: Counts, folders: seq<Node>)
    requires i < |entries| && Scanned(before, entries[..i], depth, counts, folders)
    requires (entries[i].SkillFile? || entries[i].PlainFile?) && counts.files >= MAX_FILES
    ensures before.files + CountOf(Files, entries) > MAX_FILES
  {
    assert entries[..i + 1] == entries[..i] + [entries[i]];
    OneMore(Files, entries[..i], entries[i]);
    PrefixIsLess(Files, entries, i + 1);
    assert counts.Of(Files) + CountOf(Files, folders) == before.Of(Files) + CountOf(Files, entries[..i]);
  }

  /** Counts the entries that are not folders and collects the folders, up to a limit. */
  method ScanEntries(late: Clock, start: nat, before: Counts, entries: seq<Node>, depth: nat)
    returns (clock: nat, counts: Counts, folders: seq<Node>, limit: Option<Limit>)
    requires before.files <= MAX_FILES
    ensures counts.files <= MAX_FILES && counts.directories == before.directories && NotMore(counts, before, entries)
    ensures limit.None? ==> Scanned(before, entries, depth, counts, folders)
    ensures limit.Some? ==> Hit(late, before, entries, depth, limit.value)
  {
    clock, counts, folders := start, before, [];
    for i := 0 to |entries|
      invariant Scanned(before, entries[..i], depth, counts, folders)
    {
      var entry := entries[i];
      assert entries[..i + 1] == entries[..i] + [entry];
      ScannedIsLess(before, entries, i, depth, counts, folders);
      var isLate := late(clock);
      clock := clock + 1;
      if isLate {
        return clock, counts, folders, Some(TimeBudget);
      }
      if entry.Folder? {
        if depth >= MAX_DEPTH {
          return clock, counts, folders, Some(Depth);
        }
        FolderKept(before, entries[..i], depth, counts, folders, entry);
        folders := folders + [entry];
      } else {
        if (entry.SkillFile? || entry.PlainFile?) && counts.files >= MAX_FILES {
          FilesExceeded(before, entries, i, depth, counts, folders);
          return clock, counts, folders, Some(FileCount);
        }
        EntryCounted(before, entries[..i], depth, counts, folders, entry);
        counts := CountedAs(counts, entry);
      }
    }
    assert entries[..|entries|] == entries;
    ScannedIsLess(before, entries, |entries|, depth, counts, folders);
    limit := None;
  }

  /** Lists a directory, up to the greatest number of entries. */
  method ReadEntries(late: Clock, start: nat, entries: seq<Node>) returns (clock: nat, read: seq<Node>, limit: Option<Limit>)
    ensures read <= entries
    ensures limit.None? ==> read == entries && |entries| < MAX_ENTRIES_PER_DIRECTORY
    ensures limit.Some? ==> (limit.value == TimeBudget && EverLate(late))
                            || (limit.value == EntryCount && |read| >= MAX_ENTRIES_PER_DIRECTORY)
  {
    clock, read := start, [];
    for i := 0 to |entries|
      invariant read == entries[..i] && i < MAX_ENTRIES_PER_DIRECTORY
    {
      var isLate := late(clock);
      clock := clock + 1;
      if isLate {
        return clock, read, Some(TimeBudget);
      }
      read := read + [entries[i]];
      if |read| >= MAX_ENTRIES_PER_DIRECTORY {
        return clock, read, Some(EntryCount);
      }
    }
    limit := None;
  }

  // ----- the whole walk -----

  /** The counters and the stack together account for the whole directory. */
  ghost predicate Accounted(root: Node, counts: Counts, stack: seq<Place>) {
    && (forall what: Counter :: counts.Of(what) + Ahead(what, stack) == CountIn(what, root))
    && counts.files <= MAX_FILES && counts.directories <= MAX_DIRECTORIES
    && (PlacesFit(stack) <==> Fits(root, 0))
    && (FolderPlaces(stack) || (|stack| == 1 && stack[0].node.Link? && counts.directories == 0))
  }

  /** No counter exceeds that of the recursive walk. */
  ghost predicate AtMost(counts: Counts, root: Node) {
    && (forall what: Counter :: counts.Of(what) <= CountIn(what, root))
    && counts.files <= MAX_FILES && counts.directories <= MAX_DIRECTORIES
  }

  lemma FolderCount(what: Counter, n: Node)
    requires n.Folder? && n.readable
    ensures CountIn(what, n) == One(what == Directories) + CountOf(what, n.entries)
  {
  }

  /** A limit inside a directory of the stack is a limit of the whole. */
  lemma HitCounts(late: Clock, root: Node, before: Counts, stack: seq<Place>, place: Place, visited: Counts,
                  read: seq<Node>, counts: Counts, limit: Limit)
    requires Accounted(root, before, stack + [place]) && place.node.Folder? && place.node.readable
    requires visited == before.(directories := before.directories + 1) && visited.directories <= MAX_DIRECTORIES
    requires read <= place.node.entries && Hit(late, visited, read, place.depth, limit)
    requires NotMore(counts, visited, read) && counts.files <= MAX_FILES && counts.directories == visited.directories
    ensures AtMost(counts, root)
    ensures EverLate(late) || !Within(root)
  {
    assert read == place.node.entries[..|read|];
    forall what: Counter ensures counts.Of(what) <= CountIn(what, root)
      ensures visited.Of(what) + CountOf(what, read) <= CountIn(what, root)
    {
      AheadOne(what, stack, place);
      FolderCount(what, place.node);
      PrefixIsLess(what, place.node.entries, |read|);
      assert before.Of(what) + Ahead(what, stack + [place]) == CountIn(what, root);
      assert visited.Of(what) == before.Of(what) + One(what == Directories);
    }
    PlacesOne(stack, place);
    assert visited.Of(Files) == before.files;
    if limit == Depth {
      var k :| 0 <= k < |read| && read[k].Folder?;
      assert place.node.entries[k].Folder?;
    }
  }

  lemma FolderAccounted(root: Node, before: Counts, stack: seq<Place>, place: Place, counts: Counts, folders: seq<Node>)
    requires Accounted(root, before, stack + [place]) && place.node.Folder? && place.node.readable
    requires before.directories < MAX_DIRECTORIES && |place.node.entries| < MAX_ENTRIES_PER_DIRECTORY
    requires Scanned(before.(directories := before.directories + 1), place.node.entries, place.depth, counts, folders)
    ensures Accounted(root, counts, Pushed(stack, folders, place.depth + 1))
    ensures counts.directories == before.directories + 1
  {
    var visited, next := before.(directories := before.directories + 1), Pushed(stack, folders, place.depth + 1);
    forall what: Counter ensures counts.Of(what) + Ahead(what, next) == CountIn(what, root) {
      AheadOne(what, stack, place);
      PushedCounts(what, stack, folders, place.depth + 1);
      FolderCount(what, place.node);
      assert visited.Of(what) == before.Of(what) + One(what == Directories);
    }
    PlacesOne(stack, place);
    PushedFits(stack, folders, place.depth + 1);
    FolderTops(root, before, stack, place);
  }

  lemma FolderTops(root: Node, counts: Counts, stack: seq<Place>, place: Place)
    requires Accounted(root, counts, stack + [place]) && place.node.Folder?
    ensures FolderPlaces(stack)
  {
    PlacesOne(stack, place);
  }

  lemma UnreadableAccounted(root: Node, before: Counts, stack: seq<Place>, place: Place, counts: Counts)
    requires Accounted(root, before, stack + [place]) && place.node.Folder? && !place.node.readable
    requires before.directories < MAX_DIRECTORIES
    requires counts == before.(directories := before.directories + 1, unreadable := before.unreadable + 1)
    ensures Accounted(root, counts, stack)
  {
    forall what: Counter ensures counts.Of(what) + Ahead(what, stack) == CountIn(what, root) {
      AheadOne(what, stack, place);
      assert CountIn(what, place.node) == One(what == Directories || what == Unreadable);
    }
    PlacesOne(stack, place);
    FolderTops(root, before, stack, place);
  }

  /** Only the root itself can be a link on the stack. */
  lemma LinkAccounted(root: Node, before: Counts, stack: seq<Place>, place: Place, counts: Counts)
    requires Accounted(root, before, stack + [place]) && place.node.Link?
    requires counts == before.(links := before.links + 1)
    ensures Accounted(root, counts, stack)
  {
    forall what: Counter ensures counts.Of(what) + Ahead(what, stack) == CountIn(what, root) {
      AheadOne(what, stack, place);
    }
    PlacesOne(stack, place);
  }

  lemma TooManyDirectories(root: Node, counts: Counts, stack: seq<Place>, place: Place)
    requires Accounted(root, counts, stack + [place]) && counts.directories >= MAX_DIRECTORIES
    ensures !Within(root)
  {
    AheadOne(Directories, stack, place);
    PlacesOne(stack, place);
    assert counts.Of(Directories) + Ahead(Directories, stack + [place]) == CountIn(Directories, root);
  }

  /** Scans one directory of the stack. */
  method VisitFolder(late: Clock, start: nat, ghost root: Node, before: Counts, stack: seq<Place>, place: Place)
    returns (clock: nat, counts: Counts, next: seq<Place>, limit: Option<Limit>)
    requires Accounted(root, before, stack + [place]) && place.node.Folder? && before.directories < MAX_DIRECTORIES
    ensures limit.None? ==> Accounted(root, counts, next) && counts.directories == before.directories + 1
    ensures limit.Some? ==> AtMost(counts, root) && (EverLate(late) || !Within(root))
  {
    counts := before.(directories := before.directories + 1);
    if !place.node.readable {
      counts := counts.(unreadable := counts.unreadable + 1);
      UnreadableAccounted(root, before, stack, place, counts);
      return start, counts, stack, None;
    }
    ghost var visited := counts;
    var read, folders, reading;
    clock, read, reading := ReadEntries(late, start, place.node.entries);
    clock, counts, folders, limit := ScanEntries(late, clock, counts, read, place.depth);
    next := stack;
    if limit.None? {
      limit := reading;
    }
    if limit.Some? {
      HitCounts(late, root, before, stack, place, visited, read, counts, limit.value);
      return;
    }
    FolderAccounted(root, before, stack, place, counts, folders);
    next := Pushed(stack, folders, place.depth + 1);
  }

  datatype Report = Report(counts: Counts, limit: Option<Limit>)

  lemma Started(root: Node, counts: Counts)
    requires counts == Counts(0, 0, 0, 0, 0) && (root.Folder? || root.Link?)
    ensures Accounted(root, counts, [Place(root, 0)])
  {
    forall what: Counter ensures counts.Of(what) + Ahead(what, [Place(root, 0)]) == CountIn(what, root) {
      AheadOne(what, [], Place(root, 0));
      assert [] + [Place(root, 0)] == [Place(root, 0)];
    }
    PlacesOne([], Place(root, 0));
  }

  lemma Finished(root: Node, counts: Counts, stack: seq<Place>)
    requires Accounted(root, counts, stack)
    ensures AtMost(counts, root)
    ensures stack == [] ==> Within(root) && forall what: Counter :: counts.Of(what) == CountIn(what, root)
  {
    assert forall what: Counter :: counts.Of(what) + Ahead(what, stack) == CountIn(what, root);
    assert counts.Of(Directories) == counts.directories && counts.Of(Files) == counts.files;
  }

  /**
   The walk stays within its limits and never counts too much.  Without a limit
   it has counted what the recursive walk counts, and unless the time runs out it
   meets a limit exactly when the directory exceeds one.
   */
  method ScanSkillRoot(late: Clock, root: Node) returns (report: Report)
    requires root.Folder? || root.Link?
    ensures AtMost(report.counts, root)
    ensures report.limit.None? ==> Within(root) && forall what: Counter :: report.counts.Of(what) == CountIn(what, root)
    ensures report.limit.Some? && !EverLate(late) ==> !Within(root)
  {
    var counts, clock, stack := Counts(0, 0, 0, 0, 0), 0, [Place(root, 0)];
    Started(root, counts);
    while stack != []
      invariant Accounted(root, counts, stack)
      decreases MAX_DIRECTORIES - counts.directories, |stack|
    {
      Finished(root, counts, stack);
      var isLate := late(clock);
      clock := clock + 1;
      if isLate {
        return Report(counts, Some(TimeBudget));
      }
      var rest, place := stack[..|stack| - 1], stack[|stack| - 1];
      assert stack == rest + [place];
      if counts.directories >= MAX_DIRECTORIES {
        TooManyDirectories(root, counts, rest, place);
        return Report(counts, Some(DirectoryCount));
      }
      PlacesOne(rest, place);
      if place.node.Link? {
        LinkAccounted(root, counts, rest, place, counts.(links := counts.links + 1));
        counts, stack := counts.(links := counts.links + 1), rest;
      } else {
        var limit;
        clock, counts, stack, limit := VisitFolder(late, clock, root, counts, rest, place);
        if limit.Some? {
          return Report(counts, limit);
        }
      }
    }
    Finished(root, counts, stack);
    return Report(counts, None);
  }
}
