/** The resumable directory walk of src/chat/boundedFileTree.ts: under any paging
    it lists a fixed tree as one recursive preorder walk would. */
module FileTree {
  import opened Basics

  const MAX_DEPTH := 64

  /** A path below the root, as names. */
  type Path = seq<string>

  datatype Node = File | Link | Other | Directory(entries: seq<Entry>)

  datatype Entry = Entry(name: string, node: Node)

  datatype Policy = Policy(includeFile: Path -> bool, includeDirectory: Path -> bool, descend: Path -> bool)

  /** The node an entry name leads to. */
  function Named(entries: seq<Entry>, name: string): Option<Node> {
    if entries == [] then None else if entries[0].name == name then Some(entries[0].node) else Named(entries[1..], name)
  }

  /** lstat and opendir: the node at a path. */
  function Lookup(node: Node, path: Path): Option<Node>
    decreases path
  {
    if path == [] then Some(node)
    else if !node.Directory? then None
    else
      match Named(node.entries, path[0])
      case None => None
      case Some(child) => Lookup(child, path[1..])
  }

  /** No directory lists a name twice. */
  predicate WellNamed(entries: seq<Entry>) {
    entries != [] ==>
    && Named(entries[1..], entries[0].name) == None
    && (entries[0].node.Directory? ==> WellNamed(entries[0].node.entries))
    && WellNamed(entries[1..])
  }

  // ----- The recursive walk -----

  /** What a walk yields, the work items it takes, and whether every directory
      it enters is within the depth limit. */
  datatype Walk = Walk(files: seq<Path>, directories: seq<Path>, work: nat, fits: bool)
  {
    function Then(next: Walk): Walk {
      Walk(files + next.files, directories + next.directories, work + next.work, fits && next.fits)
    }
  }

  const NOTHING := Walk([], [], 0, true)
  const ONE_ITEM := Walk([], [], 1, true)

  lemma ThenAssociative(a: Walk, b: Walk, c: Walk)
    ensures a.Then(b).Then(c) == a.Then(b.Then(c))
    ensures NOTHING.Then(a) == a == a.Then(NOTHING)
  {
  }

  /** The rest of an opened directory: its unread entries, each with everything
      below it, and the read that finds the end. */
  function Visit(p: Policy, path: Path, entries: seq<Entry>): Walk
    decreases entries, 0
  {
    if entries == [] then ONE_ITEM
    else
      var child := path + [entries[0].name];
      EntryYield(p, child, entries[0].node)
        .Then(if entries[0].node.Directory? && p.descend(child) then Open(p, child, entries[0].node.entries)
              else NOTHING)
        .Then(Visit(p, path, entries[1..]))
  }

  function EntryYield(p: Policy, child: Path, node: Node): Walk {
    match node
    case File => Walk(if p.includeFile(child) then [child] else [], [], 1, true)
    case Directory(_) => Walk([], if p.includeDirectory(child) then [child] else [], 1, true)
    case _ => ONE_ITEM
  }

  /** A directory and everything below it. */
  function Open(p: Policy, path: Path, entries: seq<Entry>): Walk
    decreases entries, 1
  {
    Walk([], [], 1, |path| < MAX_DEPTH).Then(Visit(p, path, entries))
  }

  /** The whole walk: the look at the root, the tree, and the final check. */
  function WholeWalk(p: Policy, root: Option<Node>): Walk {
    match root
    case None => ONE_ITEM
    case Some(Directory(entries)) => ONE_ITEM.Then(Open(p, [], entries)).Then(ONE_ITEM)
    case Some(_) => ONE_ITEM.(fits := false)
  }

  // ----- The resumable walk -----

  datatype Cursor = Cursor(path: Path, entries: seq<Entry>, position: nat)

  datatype State = State(directories: seq<Cursor>, pendingDirectory: Option<Path>, completePending: bool)

  function Retained(s: State): nat {
    |s.directories| + if s.pendingDirectory == None then 0 else 1
  }

  /** Every retained path leads to a directory of the tree, at its depth. */
  ghost predicate ValidState(root: Node, s: State) {
    && |s.directories| <= MAX_DEPTH
    && (forall i :: 0 <= i < |s.directories| ==> ValidCursor(root, s.directories[i]) && |s.directories[i].path| == i)
    && (s.pendingDirectory.Some? ==> ValidPending(root, s))
    && (s.completePending ==> s.directories == [] && s.pendingDirectory == None)
  }

  ghost predicate ValidCursor(root: Node, c: Cursor) {
    Lookup(root, c.path) == Some(Directory(c.entries)) && c.position <= |c.entries| && WellNamed(c.entries)
  }

  ghost predicate ValidPending(root: Node, s: State)
    requires s.pendingDirectory.Some?
  {
    var path := s.pendingDirectory.value;
    |path| == |s.directories| && Lookup(root, path).Some? && Lookup(root, path).value.Directory?
    && WellNamed(Lookup(root, path).value.entries)
  }

  function Stack(p: Policy, cursors: seq<Cursor>): Walk
    requires forall c :: c in cursors ==> c.position <= |c.entries|
  {
    if cursors == [] then NOTHING
    else
      var top := cursors[|cursors| - 1];
      Visit(p, top.path, top.entries[top.position..]).Then(Stack(p, cursors[..|cursors| - 1]))
  }

  /** What a state still has to do. */
  ghost function Remaining(p: Policy, root: Node, s: State): Walk
    requires ValidState(root, s)
  {
    var pending := if s.pendingDirectory == None then NOTHING
                   else Open(p, s.pendingDirectory.value, Lookup(root, s.pendingDirectory.value).value.entries);
    pending.Then(Stack(p, s.directories)).Then(ONE_ITEM)
  }

  datatype Limits = Limits(maxWorkItems: int, maxMatches: int, maxDirectoryMatches: Option<int>)
  {
    predicate Positive() {
      maxWorkItems > 0 && maxMatches > 0 && (maxDirectoryMatches.Some? ==> maxDirectoryMatches.value > 0)
    }

    predicate Reached(files: int, directories: int, work: int) {
      work >= maxWorkItems || files >= maxMatches
      || (maxDirectoryMatches.Some? && directories >= maxDirectoryMatches.value)
    }

    predicate Respected(files: int, directories: int, work: int) {
      work <= maxWorkItems && files <= maxMatches
      && (maxDirectoryMatches.Some? ==> directories <= maxDirectoryMatches.value)
    }
  }

  datatype Result =
    | Page(complete: bool, missing: bool, files: seq<Path>, directories: seq<Path>, workItems: nat, retained: nat)
    | Failed(workItems: nat)
    | BadLimits

  /** The whole is this much yielded and the rest still to do. */
  predicate Splits(whole: Walk, files: seq<Path>, directories: seq<Path>, work: nat, rest: Walk) {
    whole == Walk(files, directories, work, true).Then(rest)
  }

  lemma SplitsParts(whole: Walk, files: seq<Path>, directories: seq<Path>, work: nat, rest: Walk)
    requires Splits(whole, files, directories, work, rest)
    ensures files <= whole.files && directories <= whole.directories && whole.work == work + rest.work
    ensures whole.fits == rest.fits
    ensures rest == NOTHING ==> whole == Walk(files, directories, work, true)
  {
  }

  lemma SplitsAgain(whole: Walk, files: seq<Path>, directories: seq<Path>, work: nat, middle: Walk,
                    newFiles: seq<Path>, newDirectories: seq<Path>, newWork: nat, rest: Walk)
    requires Splits(whole, files, directories, work, middle) && Splits(middle, newFiles, newDirectories, newWork, rest)
    ensures Splits(whole, files + newFiles, directories + newDirectories, work + newWork, rest)
  {
    ThenAssociative(Walk(files, directories, work, true), Walk(newFiles, newDirectories, newWork, true), rest);
  }

  lemma NothingYet(whole: Walk)
    ensures Splits(whole, [], [], 0, whole)
  {
  }

  lemma FirstItem(whole: Walk, rest: Walk)
    requires whole == ONE_ITEM.Then(rest)
    ensures Splits(whole, [], [], 1, rest)
  {
  }

  /** A page takes its yield from the front of what was left to do. */
  ghost predicate PageOf(before: Walk, page: Result, after: Walk) {
    page.Page? && Splits(before, page.files, page.directories, page.workItems, after)
  }

  // ----- One work item -----

  lemma OpenStep(p: Policy, root: Node, s: State)
    requires ValidState(root, s) && s.pendingDirectory.Some? && |s.directories| < MAX_DEPTH
    ensures var path := s.pendingDirectory.value;
            var t := s.(directories := s.directories + [Cursor(path, Lookup(root, path).value.entries, 0)],
                        pendingDirectory := None);
            ValidState(root, t) && Remaining(p, root, s) == ONE_ITEM.Then(Remaining(p, root, t))
  {
    hide Visit, Lookup, WellNamed;
    var path := s.pendingDirectory.value;
    var entries := Lookup(root, path).value.entries;
    var cursors := s.directories + [Cursor(path, entries, 0)];
    assert cursors[..|s.directories|] == s.directories && entries[0..] == entries;
  }

  lemma EndStep(p: Policy, root: Node, s: State)
    requires ValidState(root, s) && s.pendingDirectory == None && s.directories != [] && !s.completePending
    requires var top := s.directories[|s.directories| - 1]; top.position == |top.entries|
    ensures var cursors := s.directories[..|s.directories| - 1];
            var t := s.(directories := cursors, completePending := cursors == []);
            ValidState(root, t) && Remaining(p, root, s) == ONE_ITEM.Then(Remaining(p, root, t))
  {
    hide Lookup, WellNamed;
  }

  /** Where reading an entry leaves the state. */
  function AfterEntry(p: Policy, s: State): State
    requires s.directories != []
    requires s.directories[|s.directories| - 1].position < |s.directories[|s.directories| - 1].entries|
  {
    var last := |s.directories| - 1;
    var top := s.directories[last];
    var entry := top.entries[top.position];
    var child := top.path + [entry.name];
    State(s.directories[last := top.(position := top.position + 1)],
          if entry.node.Directory? && p.descend(child) then Some(child) else None, false)
  }

  lemma EntryValid(p: Policy, root: Node, s: State)
    requires ValidState(root, s) && s.pendingDirectory == None && s.directories != [] && !s.completePending
    requires var top := s.directories[|s.directories| - 1]; top.position < |top.entries|
    ensures var top := s.directories[|s.directories| - 1];
            var entry := top.entries[top.position];
            ValidState(root, AfterEntry(p, s)) && Lookup(root, top.path + [entry.name]) == Some(entry.node)
  {
    hide Lookup, WellNamed;
    var top := s.directories[|s.directories| - 1];
    NamedAt(top.entries, top.position);
    LookupChild(root, top.path, top.entries[top.position].name);
  }

  lemma EntryStep(p: Policy, root: Node, s: State)
    requires ValidState(root, s) && s.pendingDirectory == None && s.directories != [] && !s.completePending
    requires var top := s.directories[|s.directories| - 1]; top.position < |top.entries|
    ensures var top := s.directories[|s.directories| - 1];
            var entry := top.entries[top.position];
            ValidState(root, AfterEntry(p, s)) &&
            Remaining(p, root, s) ==
              EntryYield(p, top.path + [entry.name], entry.node).Then(Remaining(p, root, AfterEntry(p, s)))
  {
    EntryValid(p, root, s);
    StateShape(root, s);
    StateShape(root, AfterEntry(p, s));
    hide ValidState, Lookup, WellNamed, EntryYield, Open;
    var last := |s.directories| - 1;
    var top := s.directories[last];
    var entry := top.entries[top.position];
    var child := top.path + [entry.name];
    assert top.entries[top.position..][0] == entry
           && top.entries[top.position..][1..] == top.entries[top.position + 1..];
    assert AfterEntry(p, s).directories[..last] == s.directories[..last];
    var below := if entry.node.Directory? && p.descend(child) then Open(p, child, entry.node.entries) else NOTHING;
    FourParts(EntryYield(p, child, entry.node), below, Visit(p, top.path, top.entries[top.position + 1..]),
              Stack(p, s.directories[..last]));
  }

  lemma FourParts(a: Walk, b: Walk, c: Walk, d: Walk)
    ensures NOTHING.Then(a.Then(b).Then(c).Then(d)).Then(ONE_ITEM) == a.Then(b.Then(c.Then(d)).Then(ONE_ITEM))
  {
  }

  lemma {:induction false} NamedAt(entries: seq<Entry>, i: nat)
    requires WellNamed(entries) && i < |entries|
    ensures Named(entries, entries[i].name) == Some(entries[i].node)
    ensures entries[i].node.Directory? ==> WellNamed(entries[i].node.entries)
  {
    if i > 0 {
      NamedAt(entries[1..], i - 1);
    }
  }

  lemma {:induction false} LookupChild(node: Node, path: Path, name: string)
    requires Lookup(node, path).Some? && Lookup(node, path).value.Directory?
    ensures Lookup(node, path + [name]) == Named(Lookup(node, path).value.entries, name)
    decreases path
  {
    if path != [] {
      assert (path + [name])[1..] == path[1..] + [name];
      LookupChild(Named(node.entries, path[0]).value, path[1..], name);
    }
  }

  class BoundedFileTreeWalker {
    const filesystem: map<string, Node>
    var states: map<string, State>
    var progressRevision: nat

    constructor (filesystem: map<string, Node>)
      requires forall r :: r in filesystem && filesystem[r].Directory? ==> WellNamed(filesystem[r].entries)
      ensures Valid() && states == map[] && this.filesystem == filesystem
    {
      this.filesystem, states, progressRevision := filesystem, map[], 0;
    }

    ghost predicate Valid()
      reads this
    {
      && (forall r :: r in filesystem && filesystem[r].Directory? ==> WellNamed(filesystem[r].entries))
      && forall r :: r in states ==> ValidAt(r)
    }

    ghost predicate ValidAt(r: string)
      requires r in states
      reads this
    {
      r in filesystem && filesystem[r].Directory? && ValidState(filesystem[r], states[r])
    }

    /** What is left to do for a root: all of it before the first page. */
    ghost function Left(p: Policy, root: string): (left: Walk)
      requires Valid()
      reads this
      ensures left.work > 0
    {
      if root in states then Remaining(p, filesystem[root], states[root])
      else WholeWalk(p, if root in filesystem then Some(filesystem[root]) else None)
    }

    function RetainedPathCount(root: string): (n: nat)
      requires Valid()
      reads this
      ensures n <= MAX_DEPTH + 1
    {
      if root in states then Retained(states[root]) else 0
    }

    method Discard(root: string)
      requires Valid()
      modifies this`states
      ensures Valid() && states == old(states) - {root}
    {
      states := states - {root};
    }

    /** One work item of the loop: the final check, an opendir, or a read. */
    method Step(root: string, p: Policy) returns (ok: bool, files: seq<Path>, directories: seq<Path>)
      requires Valid() && root in states
      modifies this
      ensures Valid() && states - {root} == old(states) - {root}
      ensures !ok ==> !old(Left(p, root)).fits
      ensures ok ==> progressRevision == old(progressRevision) + 1 && |files| + |directories| <= 1
      ensures ok ==>
                Splits(old(Left(p, root)), files, directories, 1, if root in states then Left(p, root) else NOTHING)
    {
      hide ValidState, Remaining, Open, WellNamed, Lookup;
      files, directories := [], [];
      ghost var tree := filesystem[root];
      var s := states[root];
      StateShape(tree, s);
      if !s.completePending && s.pendingDirectory == None && s.directories == [] {
        s := s.(completePending := true);
      }
      if s.completePending {
        CompleteStep(p, tree, states[root]);
        states := states - {root};
      } else if s.pendingDirectory.Some? {
        if |s.directories| >= MAX_DEPTH {
          TooDeep(p, tree, s);
          return false, [], [];
        }
        OpenStep(p, tree, s);
        var path := s.pendingDirectory.value;
        var entries := Lookup(filesystem[root], path).value.entries;
        states := states[root := s.(directories := s.directories + [Cursor(path, entries, 0)],
                                    pendingDirectory := None)];
      } else {
        var last := |s.directories| - 1;
        var active := s.directories[last];
        if active.position == |active.entries| {
          EndStep(p, tree, s);
          states := states[root := s.(directories := s.directories[..last], completePending := last == 0)];
        } else {
          EntryStep(p, tree, s);
          var entry := active.entries[active.position];
          var child := active.path + [entry.name];
          if entry.node.Directory? {
            if p.includeDirectory(child) {
              directories := [child];
            }
          } else if entry.node.File? && p.includeFile(child) {
            files := [child];
          }
          states := states[root := AfterEntry(p, s)];
        }
      }
      progressRevision := progressRevision + 1;
      return true, files, directories;
    }

    method Advance(root: string, limits: Limits, p: Policy) returns (r: Result)
      requires Valid()
      modifies this
      ensures Valid() && states - {root} == old(states) - {root}
      ensures r.BadLimits? <==> !limits.Positive()
      ensures r.BadLimits? ==> states == old(states) && progressRevision == old(progressRevision)
      ensures r.Failed? ==> !old(Left(p, root)).fits && root !in states && progressRevision == old(progressRevision)
      ensures r.Page? ==> PageOf(old(Left(p, root)), r, if r.complete then NOTHING else Left(p, root))
      ensures r.Page? ==> progressRevision > old(progressRevision)
      ensures r.Page? ==> r.complete == (root !in states) && r.retained == RetainedPathCount(root)
      ensures r.Page? ==> r.missing == (root !in old(states) && root !in filesystem)
      ensures r.Page? ==> r.workItems > 0 && limits.Respected(|r.files|, |r.directories|, r.workItems)
      ensures r.Page? && !r.complete ==> limits.Reached(|r.files|, |r.directories|, r.workItems)
      ensures r.Page? && !r.complete ==>
                || r.workItems == limits.maxWorkItems || |r.files| == limits.maxMatches
                || limits.maxDirectoryMatches == Some(|r.directories|)
      ensures r.BadLimits? <==>
                || limits.maxWorkItems <= 0 || limits.maxMatches <= 0
                || (limits.maxDirectoryMatches.Some? && limits.maxDirectoryMatches.value <= 0)
    {
      hide ValidState, Remaining, Open, WellNamed, Splits;
      if !limits.Positive() {
        return BadLimits;
      }
      var files: seq<Path>, directories: seq<Path>, workItems := [], [], 0;
      ghost var whole := Left(p, root);
      ghost var others := states - {root};
      var startingProgressRevision := progressRevision;
      NothingYet(whole);
      if root !in states {
        workItems := 1;
        if root !in filesystem {
          FirstItem(whole, NOTHING);
          progressRevision := progressRevision + 1;
          return Page(true, true, [], [], workItems, 0);
        }
        if !filesystem[root].Directory? {
          return Failed(workItems);
        }
        StartState(p, filesystem[root]);
        FirstItem(whole, Remaining(p, filesystem[root], State([], Some([]), false)));
        states := states[root := State([], Some([]), false)];
        progressRevision := progressRevision + 1;
      }
      while !limits.Reached(|files|, |directories|, workItems)
        invariant Valid() && root in states && states - {root} == others
        invariant Splits(whole, files, directories, workItems, Left(p, root))
        invariant limits.Respected(|files|, |directories|, workItems) && |files| + |directories| <= workItems
        invariant progressRevision >= startingProgressRevision
        invariant (workItems > 0 ==> progressRevision > startingProgressRevision)
        decreases limits.maxWorkItems - workItems
      {
        ghost var rest := Left(p, root);
        SplitsParts(whole, files, directories, workItems, rest);
        var ok, newFiles, newDirectories := Step(root, p);
        workItems := workItems + 1;
        if !ok {
          states := states - {root};
          progressRevision := startingProgressRevision;
          return Failed(workItems);
        }
        SplitsAgain(whole, files, directories, workItems - 1, rest, newFiles, newDirectories, 1,
                    if root in states then Left(p, root) else NOTHING);
        files, directories := files + newFiles, directories + newDirectories;
        if root !in states {
          return Page(true, false, files, directories, workItems, 0);
        }
      }
      return Page(false, false, files, directories, workItems, RetainedPathCount(root));
    }
  }

  lemma StateShape(root: Node, s: State)
    requires ValidState(root, s)
    ensures |s.directories| <= MAX_DEPTH && forall c :: c in s.directories ==> c.position <= |c.entries|
    ensures s.completePending ==> s.directories == [] && s.pendingDirectory == None
    ensures s.pendingDirectory.Some? ==>
              Lookup(root, s.pendingDirectory.value).Some? && Lookup(root, s.pendingDirectory.value).value.Directory?
  {
    hide Lookup, WellNamed;
  }

  lemma StartState(p: Policy, root: Node)
    requires root.Directory? && WellNamed(root.entries)
    ensures var s := State([], Some([]), false);
            ValidState(root, s) && WholeWalk(p, Some(root)) == ONE_ITEM.Then(Remaining(p, root, s))
  {
    hide Open, WellNamed;
  }

  lemma CompleteStep(p: Policy, root: Node, s: State)
    requires ValidState(root, s) && s.pendingDirectory == None && s.directories == []
    ensures Remaining(p, root, s) == ONE_ITEM
  {
    StateShape(root, s);
    hide ValidState, Visit, Open, Lookup, WellNamed, Walk.Then;
    ThenAssociative(NOTHING, NOTHING, ONE_ITEM);
    ThenAssociative(ONE_ITEM, NOTHING, NOTHING);
  }

  lemma TooDeep(p: Policy, root: Node, s: State)
    requires ValidState(root, s) && s.pendingDirectory.Some? && |s.directories| >= MAX_DEPTH
    ensures !Remaining(p, root, s).fits
  {
    hide Visit, Lookup, WellNamed;
  }

  // ----- Whole runs -----

  datatype Outcome = Complete | Broken | Unfinished

  /** A caller asking for pages until the walk ends, fails or the caller stops:
      the pages together are one whole walk, and as many pages as the walk has
      work items always settle it. */
  method WalkInPages(walker: BoundedFileTreeWalker, root: string, limits: seq<Limits>, p: Policy)
    returns (outcome: Outcome, files: seq<Path>, directories: seq<Path>, work: nat)
    requires walker.Valid() && root !in walker.states
    requires forall l :: l in limits ==> l.Positive()
    modifies walker
    ensures walker.Valid()
    ensures var whole := WholeWalk(p, if root in walker.filesystem then Some(walker.filesystem[root]) else None);
            match outcome
            case Complete => whole == Walk(files, directories, work, true)
            case Broken => !whole.fits
            case Unfinished => files <= whole.files && directories <= whole.directories && |limits| <= work < whole.work
  {
    hide WholeWalk, Remaining, ValidState, WellNamed, Splits;
    ghost var whole := walker.Left(p, root);
    files, directories, work := [], [], 0;
    NothingYet(whole);
    for i := 0 to |limits|
      invariant walker.Valid() && i <= work
      invariant Splits(whole, files, directories, work, walker.Left(p, root))
    {
      ghost var rest := walker.Left(p, root);
      SplitsParts(whole, files, directories, work, rest);
      var page := walker.Advance(root, limits[i], p);
      if page.Failed? {
        return Broken, files, directories, work;
      }
      SplitsAgain(whole, files, directories, work, rest, page.files, page.directories, page.workItems,
                  if page.complete then NOTHING else walker.Left(p, root));
      files, directories, work := files + page.files, directories + page.directories, work + page.workItems;
      if page.complete {
        SplitsParts(whole, files, directories, work, NOTHING);
        return Complete, files, directories, work;
      }
    }
    SplitsParts(whole, files, directories, work, walker.Left(p, root));
    return Unfinished, files, directories, work;
  }

  // ----- What a whole walk lists -----

  predicate Wanted(p: Policy, node: Node, path: Path, directory: bool) {
    if directory then node.Directory? && p.includeDirectory(path) else node.File? && p.includeFile(path)
  }

  function Listed(w: Walk, directory: bool): seq<Path> {
    if directory then w.directories else w.files
  }

  /** Something wanted lies at rel below a directory the walk is in. */
  predicate FoundAt(p: Policy, base: Path, entries: seq<Entry>, rel: Path, directory: bool)
    decreases rel
  {
    && rel != []
    && Named(entries, rel[0]).Some?
    && var node, child := Named(entries, rel[0]).value, base + [rel[0]];
    if |rel| == 1 then Wanted(p, node, child, directory)
    else node.Directory? && p.descend(child) && FoundAt(p, child, node.entries, rel[1..], directory)
  }

  lemma FoundStep(p: Policy, base: Path, entries: seq<Entry>, q: Path, directory: bool)
    requires entries != [] && WellNamed(entries) && base <= q
    ensures var rel := q[|base|..];
            var e := entries[0];
            var child := base + [e.name];
            FoundAt(p, base, entries, rel, directory) <==>
            (q == child && Wanted(p, e.node, child, directory))
            || (child < q && e.node.Directory? && p.descend(child)
                && FoundAt(p, child, e.node.entries, q[|child|..], directory))
            || FoundAt(p, base, entries[1..], rel, directory)
  {
    var rel := q[|base|..];
    var child := base + [entries[0].name];
    if rel != [] {
      assert q == base + rel && rel[1..] == q[|child|..];
      assert rel[0] == entries[0].name <==> child <= q;
      assert |rel| == 1 && child <= q ==> q == child;
    }
  }

  lemma {:induction false} VisitLists(p: Policy, base: Path, entries: seq<Entry>, q: Path, directory: bool)
    requires WellNamed(entries)
    ensures q in Listed(Visit(p, base, entries), directory) <==>
              base <= q && FoundAt(p, base, entries, q[|base|..], directory)
    decreases entries
  {
    hide WellNamed, FoundAt, Open, EntryYield;
    if entries == [] {
      NothingFound(p, base, directory);
    } else {
      hide Visit, Wanted;
      var e := entries[0];
      var child := base + [e.name];
      WellNamedParts(entries);
      VisitParts(p, base, entries, q, directory);
      VisitLists(p, base, entries[1..], q, directory);
      if e.node.Directory? {
        VisitLists(p, child, e.node.entries, q, directory);
        NotItself(p, child, e.node.entries, directory);
        assert q == child ==> q[|child|..] == [];
      }
      if base <= q {
        FoundStep(p, base, entries, q, directory);
      } else {
        assert !(child <= q);
      }
    }
  }

  lemma ThenLists(a: Walk, b: Walk, q: Path, directory: bool)
    ensures q in Listed(a.Then(b), directory) <==> q in Listed(a, directory) || q in Listed(b, directory)
  {
  }

  lemma VisitParts(p: Policy, base: Path, entries: seq<Entry>, q: Path, directory: bool)
    requires entries != []
    ensures var e := entries[0];
            var child := base + [e.name];
            q in Listed(Visit(p, base, entries), directory) <==>
            (q == child && Wanted(p, e.node, child, directory))
            || (e.node.Directory? && p.descend(child) && q in Listed(Visit(p, child, e.node.entries), directory))
            || q in Listed(Visit(p, base, entries[1..]), directory)
  {
    hide Walk.Then, Listed;
    var e := entries[0];
    var child := base + [e.name];
    var own, rest := EntryYield(p, child, e.node), Visit(p, base, entries[1..]);
    var below := if e.node.Directory? && p.descend(child) then Open(p, child, e.node.entries) else NOTHING;
    ThenLists(own.Then(below), rest, q, directory);
    ThenLists(own, below, q, directory);
    YieldLists(p, child, e.node, q, directory);
    if e.node.Directory? {
      OpenLists(p, child, e.node.entries, q, directory);
    }
    assert q !in Listed(NOTHING, directory) by {
      ListsNothing(q, directory);
    }
  }

  lemma ListsNothing(q: Path, directory: bool)
    ensures q !in Listed(NOTHING, directory)
  {
  }

  lemma YieldLists(p: Policy, child: Path, node: Node, q: Path, directory: bool)
    ensures q in Listed(EntryYield(p, child, node), directory) <==> q == child && Wanted(p, node, child, directory)
  {
  }

  lemma OpenLists(p: Policy, path: Path, entries: seq<Entry>, q: Path, directory: bool)
    ensures q in Listed(Open(p, path, entries), directory) <==> q in Listed(Visit(p, path, entries), directory)
  {
    hide Visit;
  }

  lemma NothingFound(p: Policy, base: Path, directory: bool)
    ensures forall rel :: !FoundAt(p, base, [], rel, directory)
  {
  }

  lemma NotItself(p: Policy, base: Path, entries: seq<Entry>, directory: bool)
    ensures !FoundAt(p, base, entries, [], directory)
  {
  }

  lemma WellNamedParts(entries: seq<Entry>)
    requires entries != [] && WellNamed(entries)
    ensures WellNamed(entries[1..]) && (entries[0].node.Directory? ==> WellNamed(entries[0].node.entries))
  {
  }

  /** Every directory strictly between the root and q is descended into. */
  predicate Descended(p: Policy, q: Path) {
    forall i :: 0 < i < |q| ==> p.descend(q[..i])
  }

  lemma {:induction false} FoundMeans(p: Policy, base: Path, entries: seq<Entry>, rel: Path, directory: bool)
    ensures FoundAt(p, base, entries, rel, directory) <==>
      rel != [] && Lookup(Directory(entries), rel).Some?
      && Wanted(p, Lookup(Directory(entries), rel).value, base + rel, directory)
      && PassesThrough(p, base, rel)
    decreases rel
  {
    hide Wanted, Named;
    if rel != [] && Named(entries, rel[0]).Some? {
      var node, child := Named(entries, rel[0]).value, base + [rel[0]];
      assert base + rel[..1] == child;
      assert child + rel[1..] == base + rel;
      if |rel| > 1 {
        PassStep(p, base, rel);
        if node.Directory? {
          FoundMeans(p, child, node.entries, rel[1..], directory);
        }
      } else {
        assert rel == [rel[0]];
      }
    }
  }

  predicate PassesThrough(p: Policy, base: Path, rel: Path) {
    forall i :: 0 < i < |rel| ==> p.descend(base + rel[..i])
  }

  lemma PassStep(p: Policy, base: Path, rel: Path)
    requires |rel| > 1
    ensures PassesThrough(p, base, rel) <==> p.descend(base + [rel[0]]) && PassesThrough(p, base + [rel[0]], rel[1..])
  {
    var child := base + [rel[0]];
    assert base + rel[..1] == child;
    assert forall i :: 0 < i < |rel[1..]| ==> child + rel[1..][..i] == base + rel[..i + 1];
    assert forall i :: 1 < i < |rel| ==> base + rel[..i] == child + rel[1..][..i - 1];
  }

  /** The walk lists exactly the wanted files and directories of the tree that
      lie below descended directories only. */
  lemma ListsExactly(p: Policy, entries: seq<Entry>, q: Path, directory: bool)
    requires WellNamed(entries)
    ensures q in Listed(WholeWalk(p, Some(Directory(entries))), directory) <==>
      q != [] && Descended(p, q) && Lookup(Directory(entries), q).Some?
      && Wanted(p, Lookup(Directory(entries), q).value, q, directory)
  {
    hide WellNamed, FoundAt, Visit, Lookup;
    VisitLists(p, [], entries, q, directory);
    FoundMeans(p, [], entries, q, directory);
    assert q[0..] == q && [] + q == q;
    assert forall i :: 0 < i < |q| ==> [] + q[..i] == q[..i];
  }

  predicate NoDuplicates<T(==)>(s: seq<T>) {
    forall i, j :: 0 <= i < j < |s| ==> s[i] != s[j]
  }

  lemma JoinDistinct<T>(a: seq<T>, b: seq<T>)
    requires NoDuplicates(a) && NoDuplicates(b) && forall x :: x in a ==> x !in b
    ensures NoDuplicates(a + b)
  {
    forall i, j | 0 <= i < j < |a + b| ensures (a + b)[i] != (a + b)[j] {
      if i < |a| <= j {
        assert a[i] in a && b[j - |a|] in b;
      }
    }
  }

  /** And lists each of them once. */
  lemma {:induction false} ListsOnce(p: Policy, base: Path, entries: seq<Entry>, directory: bool)
    requires WellNamed(entries)
    ensures NoDuplicates(Listed(Visit(p, base, entries), directory))
    decreases entries
  {
    hide WellNamed, FoundAt, NoDuplicates;
    SingleDistinct([], base);
    if entries != [] {
      var e := entries[0];
      var child := base + [e.name];
      WellNamedParts(entries);
      ListsOnce(p, base, entries[1..], directory);
      var own := Listed(EntryYield(p, child, e.node), directory);
      var below := Listed(if e.node.Directory? && p.descend(child) then Open(p, child, e.node.entries) else NOTHING,
                          directory);
      var rest := Listed(Visit(p, base, entries[1..]), directory);
      assert NoDuplicates(below) && forall q :: q in below ==> child < q by {
        if e.node.Directory? {
          ListsOnce(p, child, e.node.entries, directory);
          NotItself(p, child, e.node.entries, directory);
          forall q ensures q in Listed(Visit(p, child, e.node.entries), directory) ==> child < q {
            VisitLists(p, child, e.node.entries, q, directory);
            assert q == child ==> q[|child|..] == [];
          }
          OpenListing(p, child, e.node.entries, directory);
        }
      }
      SingleDistinct(own, child);
      JoinDistinct(own, below);
      forall q | q in own + below ensures q !in rest {
        VisitLists(p, base, entries[1..], q, directory);
        NotAmongRest(p, base, entries, q, directory);
      }
      JoinDistinct(own + below, rest);
    }
  }

  lemma OpenListing(p: Policy, path: Path, entries: seq<Entry>, directory: bool)
    ensures Listed(Open(p, path, entries), directory) == Listed(Visit(p, path, entries), directory)
  {
    hide Visit;
  }

  lemma SingleDistinct<T>(s: seq<T>, x: T)
    requires s == [] || s == [x]
    ensures NoDuplicates(s)
  {
  }

  lemma NotAmongRest(p: Policy, base: Path, entries: seq<Entry>, q: Path, directory: bool)
    requires entries != [] && WellNamed(entries) && base + [entries[0].name] <= q
    ensures !FoundAt(p, base, entries[1..], q[|base|..], directory)
  {
    assert q[|base|..][0] == q[|base|] == (base + [entries[0].name])[|base|];
  }

  // ----- Its work and its depth -----

  /** Two items for entering and leaving a directory and one for every entry. */
  function EnteredWork(p: Policy, path: Path, entries: seq<Entry>): nat
    decreases entries, 1
  {
    2 + |entries| + WorkBelow(p, path, entries)
  }

  function WorkBelow(p: Policy, path: Path, entries: seq<Entry>): nat
    decreases entries, 0
  {
    if entries == [] then 0
    else
      var child := path + [entries[0].name];
      (if entries[0].node.Directory? && p.descend(child) then EnteredWork(p, child, entries[0].node.entries) else 0)
      + WorkBelow(p, path, entries[1..])
  }

  lemma {:induction false} VisitWork(p: Policy, path: Path, entries: seq<Entry>)
    ensures Visit(p, path, entries).work == 1 + |entries| + WorkBelow(p, path, entries)
    decreases entries
  {
    if entries != [] {
      var e := entries[0];
      VisitWork(p, path, entries[1..]);
      if e.node.Directory? {
        VisitWork(p, path + [e.name], e.node.entries);
      }
    }
  }

  /** The work of a whole walk is two items plus two and the entries for every
      directory entered. */
  lemma WholeWork(p: Policy, entries: seq<Entry>)
    ensures WholeWalk(p, Some(Directory(entries))).work == 2 + EnteredWork(p, [], entries)
  {
    VisitWork(p, [], entries);
  }

  /** The walk opens the directory at q. */
  predicate Entered(p: Policy, root: Node, q: Path) {
    && Lookup(root, q).Some? && Lookup(root, q).value.Directory?
    && forall i :: 0 < i <= |q| ==> p.descend(q[..i])
  }

  /** Everything below base of this depth limit is within it. */
  ghost predicate Shallow(p: Policy, base: Path, entries: seq<Entry>) {
    forall rel :: EnteredBelow(p, base, entries, rel) ==> |base + rel| < MAX_DEPTH
  }

  predicate EnteredBelow(p: Policy, base: Path, entries: seq<Entry>, rel: Path)
    decreases rel
  {
    rel != [] && Named(entries, rel[0]).Some? &&
    var node, child := Named(entries, rel[0]).value, base + [rel[0]];
    node.Directory? && p.descend(child) && (|rel| == 1 || EnteredBelow(p, child, node.entries, rel[1..]))
  }

  lemma {:induction false} VisitFits(p: Policy, base: Path, entries: seq<Entry>)
    requires WellNamed(entries)
    ensures Visit(p, base, entries).fits <==> Shallow(p, base, entries)
    decreases entries
  {
    hide WellNamed, EntryYield;
    if entries == [] {
      assert forall rel :: !EnteredBelow(p, base, entries, rel);
    } else {
      hide EnteredBelow, Shallow;
      var e := entries[0];
      var child := base + [e.name];
      WellNamedParts(entries);
      VisitFits(p, base, entries[1..]);
      if e.node.Directory? {
        VisitFits(p, child, e.node.entries);
      }
      ShallowStep(p, base, entries);
      assert EntryYield(p, child, e.node).fits by {
        YieldFits(p, child, e.node);
      }
    }
  }

  lemma YieldFits(p: Policy, child: Path, node: Node)
    ensures EntryYield(p, child, node).fits
  {
  }

  lemma BelowStep(p: Policy, base: Path, entries: seq<Entry>, rel: Path)
    requires entries != [] && WellNamed(entries)
    ensures var e := entries[0];
            var child := base + [e.name];
            EnteredBelow(p, base, entries, rel) <==>
            EnteredBelow(p, base, entries[1..], rel) ||
            (rel != [] && rel[0] == e.name && e.node.Directory? && p.descend(child)
             && (|rel| == 1 || EnteredBelow(p, child, e.node.entries, rel[1..])))
  {
    hide Lookup;
  }

  lemma ShallowStep(p: Policy, base: Path, entries: seq<Entry>)
    requires entries != [] && WellNamed(entries)
    ensures var e := entries[0];
            var child := base + [e.name];
            Shallow(p, base, entries) <==>
            Shallow(p, base, entries[1..])
            && (e.node.Directory? && p.descend(child) ==> |child| < MAX_DEPTH && Shallow(p, child, e.node.entries))
  {
    hide WellNamed, EnteredBelow, Shallow;
    var e := entries[0];
    var child := base + [e.name];
    if Shallow(p, base, entries) {
      ShallowRest(p, base, entries);
      if e.node.Directory? && p.descend(child) {
        ShallowChild(p, base, entries);
      }
    } else {
      NotShallow(p, base, entries);
    }
  }

  lemma ShallowRest(p: Policy, base: Path, entries: seq<Entry>)
    requires entries != [] && WellNamed(entries) && Shallow(p, base, entries)
    ensures Shallow(p, base, entries[1..])
  {
    hide WellNamed, EnteredBelow;
    forall rel | EnteredBelow(p, base, entries[1..], rel) ensures |base + rel| < MAX_DEPTH {
      BelowStep(p, base, entries, rel);
    }
  }

  lemma ShallowChild(p: Policy, base: Path, entries: seq<Entry>)
    requires entries != [] && WellNamed(entries) && Shallow(p, base, entries)
    requires entries[0].node.Directory? && p.descend(base + [entries[0].name])
    ensures var child := base + [entries[0].name]; |child| < MAX_DEPTH && Shallow(p, child, entries[0].node.entries)
  {
    hide WellNamed, EnteredBelow;
    var name := entries[0].name;
    var child := base + [name];
    BelowStep(p, base, entries, [name]);
    assert EnteredBelow(p, base, entries, [name]);
    forall rel | EnteredBelow(p, child, entries[0].node.entries, rel) ensures |child + rel| < MAX_DEPTH {
      assert ([name] + rel)[1..] == rel;
      BelowStep(p, base, entries, [name] + rel);
      assert EnteredBelow(p, base, entries, [name] + rel);
    }
  }

  lemma NotShallow(p: Policy, base: Path, entries: seq<Entry>)
    requires entries != [] && WellNamed(entries) && !Shallow(p, base, entries)
    ensures var e := entries[0];
            var child := base + [e.name];
            !Shallow(p, base, entries[1..])
            || (e.node.Directory? && p.descend(child) && (|child| >= MAX_DEPTH || !Shallow(p, child, e.node.entries)))
  {
    hide WellNamed, EnteredBelow;
    var rel :| EnteredBelow(p, base, entries, rel) && |base + rel| >= MAX_DEPTH;
    BelowStep(p, base, entries, rel);
    var child := base + [entries[0].name];
    assert rel != [] ==> |child + rel[1..]| == |base + rel|;
  }

  lemma {:induction false} EnteredMeans(p: Policy, base: Path, entries: seq<Entry>, rel: Path)
    requires rel != []
    ensures EnteredBelow(p, base, entries, rel) <==>
      Lookup(Directory(entries), rel).Some? && Lookup(Directory(entries), rel).value.Directory?
      && forall i :: 0 < i <= |rel| ==> p.descend(base + rel[..i])
    decreases rel
  {
    hide Named;
    if Named(entries, rel[0]).Some? {
      var node, child := Named(entries, rel[0]).value, base + [rel[0]];
      assert base + rel[..1] == child;
      if |rel| > 1 && node.Directory? {
        EnteredMeans(p, child, node.entries, rel[1..]);
        assert forall i :: 0 < i <= |rel[1..]| ==> child + rel[1..][..i] == base + rel[..i + 1];
        assert forall i :: 1 < i <= |rel| ==> base + rel[..i] == child + rel[1..][..i - 1];
      }
    }
  }

  /** A walk stays within the limit exactly when every directory it enters is
      less than 64 levels below the root. */
  lemma FitsExactly(p: Policy, entries: seq<Entry>)
    requires WellNamed(entries)
    ensures WholeWalk(p, Some(Directory(entries))).fits <==>
              forall q :: Entered(p, Directory(entries), q) ==> |q| < MAX_DEPTH
  {
    hide WellNamed, Visit, Lookup, EnteredBelow;
    VisitFits(p, [], entries);
    forall q: Path | q != [] ensures EnteredBelow(p, [], entries, q) <==> Entered(p, Directory(entries), q) {
      EnteredMeans(p, [], entries, q);
      assert forall i :: 0 < i <= |q| ==> [] + q[..i] == q[..i];
    }
    assert forall q: Path :: [] + q == q;
    assert !EnteredBelow(p, [], entries, []) by {
      NotBelowItself(p, [], entries);
    }
  }

  lemma NotBelowItself(p: Policy, base: Path, entries: seq<Entry>)
    ensures !EnteredBelow(p, base, entries, [])
  {
  }
}
