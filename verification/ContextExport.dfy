/**
 * The build context exporter: a recursive walk that prunes excluded directories, and the plain per-path
 * filter it must agree with.
 */
module ContextExport {
  import Anchors
  import opened Common
  import opened DockerIgnore
  import opened Glob
  import opened Paths

  datatype Node =
    | File(content: seq<int>, ownerExecutable: bool)
    | Link(target: string)
    | Special
    | Directory(entries: seq<Entry>)

  datatype Entry = Entry(name: string, node: Node)

  /** What ends up in the copy for one file or link. */
  datatype Copy = FileCopy(content: seq<int>, mode: nat) | LinkCopy(target: string)

  const FILE_MODE := 420            // 0o644
  const EXECUTABLE_FILE_MODE := 493 // 0o755

  /** Names in one directory are distinct file names. */
  predicate WellFormed(entries: seq<Entry>) {
    && (forall i :: 0 <= i < |entries| ==> IsName(entries[i].name))
    && (forall i, j :: 0 <= i < j < |entries| ==> entries[i].name != entries[j].name)
    && (forall i :: 0 <= i < |entries| && entries[i].node.Directory? ==> WellFormed(entries[i].node.entries))
  }

  function CopyOf(node: Node): Copy
    requires node.File? || node.Link?
  {
    match node
    case File(content, ownerExecutable) =>
      FileCopy(content, if ownerExecutable then EXECUTABLE_FILE_MODE else FILE_MODE)
    case Link(target) => LinkCopy(target)
  }

  /** A path and every directory above it, as path texts. */
  function SelfAndAbove(parts: seq<string>): set<string> {
    set k | 0 < k <= |parts| :: Join(parts[..k])
  }

  function Above(parts: seq<string>): set<string> {
    set k | 0 < k < |parts| :: Join(parts[..k])
  }

  /** The contents of a copied tree: files and links by path text, and the directories made. */
  datatype Copies = Copies(entries: map<string, Copy>, directories: set<string>) {

    function Plus(more: Copies): Copies {
      Copies(entries + more.entries, directories + more.directories)
    }

    lemma PlusAssociates(b: Copies, c: Copies)
      ensures Plus(b).Plus(c) == Plus(b.Plus(c))
    {}

    lemma PlusEntries(b: Copies)
      requires entries == map[]
      ensures Plus(b).entries == b.entries
    {}

    lemma PlusNothing()
      ensures Plus(NOTHING) == this && NOTHING.Plus(this) == this
    {}
  }

  const NOTHING := Copies(map[], {})

  /** The directory tree being filled. */
  class Destination {
    var entries: map<string, Copy>
    var directories: set<string>

    function Contents(): Copies
      reads this
    {
      Copies(entries, directories)
    }

    constructor ()
      ensures Contents() == NOTHING
    {
      entries := map[];
      directories := {};
    }

    /** `mkdir(parents=True, exist_ok=True)` */
    method MakeDirectory(target: string)
      modifies this`directories
      ensures directories == old(directories) + SelfAndAbove(Split(target))
    {
      directories := directories + SelfAndAbove(Split(target));
    }

    /** `target.parent.mkdir(parents=True, exist_ok=True)`, then the copy. */
    method Put(target: string, copy: Copy)
      modifies this
      ensures entries == old(entries)[target := copy]
      ensures directories == old(directories) + Above(Split(target))
    {
      directories := directories + Above(Split(target));
      entries := entries[target := copy];
    }
  }

  /** Every directory on the way to a kept path. */
  function KeepDirectories(keep: set<string>): set<string> {
    set path, end | path in keep && 0 < end < |Split(path)| :: Join(Split(path)[..end])
  }

  datatype Filter = Filter(rules: Rules, keep: set<string>) {

    /** The plain filter, path by path: kept by name, or not excluded by the ignore rules. */
    predicate Keeps(relative: string) {
      relative in keep || !rules.Excluded(relative)
    }

    /** The walk's reason not to open a directory. */
    predicate Pruned(relative: string) {
      && !Keeps(relative)
      && relative !in KeepDirectories(keep)
      && !rules.ReachesBelow(relative)
    }

    /**
     * What is copied out of the listing `entries` of the directory `base`. Without pruning this is the plain
     * filter, which visits every entry of the tree; with pruning it is the walk that leaves directories unopened.
     */
    function Listing(entries: seq<Entry>, base: seq<string>, pruning: bool): Copies
      decreases entries, 1
    {
      if entries == [] then NOTHING
      else
        var last := entries[|entries| - 1];
        Listing(entries[..|entries| - 1], base, pruning).Plus(At(last.node, base + [last.name], pruning))
    }

    function At(node: Node, parts: seq<string>, pruning: bool): Copies
      decreases node, 0
    {
      var relative := Join(parts);
      match node
      case Directory(entries) =>
        if pruning && Pruned(relative) then NOTHING
        else Itself(parts).Plus(Listing(entries, parts, pruning))
      case Special => NOTHING
      case _ => if Keeps(relative) then Copies(map[relative := CopyOf(node)], Above(parts)) else NOTHING
    }

    /** A kept directory is made, with everything above it. */
    function Itself(parts: seq<string>): Copies {
      Copies(map[], if Keeps(Join(parts)) then SelfAndAbove(parts) else {})
    }

    lemma {:induction false} ListingStep(entries: seq<Entry>, base: seq<string>, pruning: bool, i: nat)
      requires i < |entries|
      ensures Listing(entries[..i + 1], base, pruning)
           == Listing(entries[..i], base, pruning).Plus(At(entries[i].node, base + [entries[i].name], pruning))
    {
      assert entries[..i + 1][..i] == entries[..i];
    }

    lemma JoinStep(base: seq<string>, name: string)
      requires AreNames(base) && IsName(name)
      ensures Join(base + [name]) == if Join(base) != "" then Join(base) + "/" + name else name
      ensures Join(base) == "" <==> base == []
      ensures Split(Join(base + [name])) == base + [name]
      ensures rules.Carried(base + [name]) ==
                rules.After(Join(base + [name]), rules.Carried(base).info, |rules.patterns|)
    {
      assert (base + [name])[..|base|] == base;
      SplitJoin(base + [name]);
    }

    /** The recursive walk: one ignore verdict per entry, carried down, and pruned directories left unopened. */
    method ExportDirectory(entries: seq<Entry>, relativeDirectory: string, parentInfo: MatchInfo,
                           destination: Destination, ghost base: seq<string>)
      requires WellFormed(entries) && AreNames(base)
      requires relativeDirectory == Join(base)
      requires parentInfo == rules.Carried(base).info
      modifies destination
      ensures destination.Contents() == old(destination.Contents()).Plus(Listing(entries, base, true))
      decreases entries, 1
    {
      ghost var before := destination.Contents();
      for i := 0 to |entries|
        invariant destination.Contents() == before.Plus(Listing(entries[..i], base, true))
      {
        ListingStep(entries, base, true, i);
        before.PlusAssociates(Listing(entries[..i], base, true), At(entries[i].node, base + [entries[i].name], true));
        ExportEntry(entries[i].name, entries[i].node, relativeDirectory, parentInfo, destination, base);
      }
      assert entries[..|entries|] == entries;
    }

    /** The body of the walk's loop, for one name of the listing. */
    method ExportEntry(name: string, node: Node, relativeDirectory: string, parentInfo: MatchInfo,
                       destination: Destination, ghost base: seq<string>)
      requires IsName(name) && (node.Directory? ==> WellFormed(node.entries))
      requires AreNames(base)
      requires relativeDirectory == Join(base)
      requires parentInfo == rules.Carried(base).info
      modifies destination
      ensures destination.Contents() == old(destination.Contents()).Plus(At(node, base + [name], true))
      decreases node, 0
    {
      var relative := if relativeDirectory != "" then relativeDirectory + "/" + name else name;
      ghost var parts, before := base + [name], destination.Contents();
      JoinStep(base, name);
      before.PlusNothing();
      var excluded, info := rules.Match(relative, parentInfo);
      excluded := excluded && relative !in keep;
      assert excluded == !Keeps(relative);
      if node.Directory? {
        if excluded && relative !in KeepDirectories(keep) {
          var mayReinclude := rules.MayReincludeBelow(relative);
          if !mayReinclude {
            return;
          }
        }
        if !excluded {
          destination.MakeDirectory(relative);
        }
        assert destination.Contents() == before.Plus(Itself(parts));
        before.PlusAssociates(Itself(parts), Listing(node.entries, parts, true));
        ExportDirectory(node.entries, relative, info, destination, parts);
        return;
      }
      if excluded {
        return;
      }
      CopyNode(node, relative, destination, parts);
    }

    /** Copies a file or a link that is kept; anything else, such as a socket, is skipped. */
    method CopyNode(node: Node, relative: string, destination: Destination, ghost parts: seq<string>)
      requires !node.Directory? && relative == Join(parts) && Split(relative) == parts && Keeps(relative)
      modifies destination
      ensures destination.Contents() == old(destination.Contents()).Plus(At(node, parts, true))
    {
      destination.Contents().PlusNothing();
      if node.File? || node.Link? {
        destination.Put(relative, CopyOf(node));
      }
    }

    lemma CarriedIsExcluded(parts: seq<string>)
      requires parts != [] && AreNames(parts)
      ensures rules.Carried(parts).excluded == rules.Excluded(Join(parts))
    {
      SplitJoin(parts);
    }

    /** Nothing below a pruned directory is kept. */
    lemma NothingKeptBelow(parts: seq<string>, k: nat)
      requires 0 < k < |parts| && AreNames(parts) && rules.IsPruningSafe()
      requires Pruned(Join(parts[..k]))
      ensures !Keeps(Join(parts))
    {
      CarriedIsExcluded(parts[..k]);
      rules.PrunedSubtreeIsExcluded(parts, k);
      CarriedIsExcluded(parts);
      SplitJoin(parts);
    }

    lemma {:induction false} PrunedListsNothing(entries: seq<Entry>, base: seq<string>, k: nat)
      requires 0 < k <= |base| && AreNames(base) && WellFormed(entries) && rules.IsPruningSafe()
      requires Pruned(Join(base[..k]))
      ensures Listing(entries, base, false) == NOTHING
      decreases entries
    {
      if entries != [] {
        var last := entries[|entries| - 1];
        var parts := base + [last.name];
        PrunedListsNothing(entries[..|entries| - 1], base, k);
        assert parts[..k] == base[..k];
        NothingKeptBelow(parts, k);
        if last.node.Directory? {
          PrunedListsNothing(last.node.entries, parts, k);
        }
      }
    }

    /** Pruning is invisible: the walk copies and creates exactly what the plain filter does. */
    lemma {:induction false} WalkIsFilter(entries: seq<Entry>, base: seq<string>)
      requires WellFormed(entries) && AreNames(base) && rules.IsPruningSafe()
      ensures Listing(entries, base, true) == Listing(entries, base, false)
      decreases entries, 1
    {
      if entries != [] {
        var last := entries[|entries| - 1];
        WalkIsFilter(entries[..|entries| - 1], base);
        WalkIsFilterAt(last.node, base + [last.name]);
      }
    }

    lemma {:induction false} WalkIsFilterAt(node: Node, parts: seq<string>)
      requires node.Directory? ==> WellFormed(node.entries)
      requires AreNames(parts) && parts != [] && rules.IsPruningSafe()
      ensures At(node, parts, true) == At(node, parts, false)
      decreases node, 0
    {
      if node.Directory? {
        if Pruned(Join(parts)) {
          assert parts[..|parts|] == parts;
          PrunedListsNothing(node.entries, parts, |parts|);
          assert Itself(parts) == NOTHING;
          NOTHING.PlusNothing();
        } else {
          WalkIsFilter(node.entries, parts);
        }
      }
    }

    /** Reliable exceptions or not, the walk never copies anything the plain filter rejects. */
    lemma {:induction false} WalkWithinFilter(entries: seq<Entry>, base: seq<string>)
      requires WellFormed(entries) && AreNames(base)
      ensures Listing(entries, base, true).directories <= Listing(entries, base, false).directories
      ensures Listing(entries, base, true).entries.Keys <= Listing(entries, base, false).entries.Keys
      decreases entries
    {
      if entries != [] {
        var last := entries[|entries| - 1];
        WalkWithinFilter(entries[..|entries| - 1], base);
        if last.node.Directory? {
          WalkWithinFilter(last.node.entries, base + [last.name]);
        }
      }
    }

    /** What the plain filter says about one path text. */
    function Selected(context: seq<Entry>, relative: string): Option<Copy> {
      match FileAt(context, relative)
      case Some(copy) => if Keeps(relative) then Some(copy) else None
      case None => None
    }

    /** No directory above this path, among those below `base` names, is left unopened. */
    predicate IsOpened(parts: seq<string>, base: nat) {
      forall k :: base < k < |parts| ==> !Pruned(Join(parts[..k]))
    }

    /** What the walk that prunes says about one path text: the filter's answer, if it gets there. */
    function Walked(context: seq<Entry>, relative: string): Option<Copy> {
      if IsOpened(Split(relative), 0) then Selected(context, relative) else None
    }

    lemma {:induction false} ListedBelow(entries: seq<Entry>, base: seq<string>, relative: string, pruning: bool)
      requires WellFormed(entries) && AreNames(base)
      requires relative in Listing(entries, base, pruning).entries
      ensures var parts := Split(relative);
              && |parts| > |base| && parts[..|base|] == base && AreNames(parts)
              && exists i :: 0 <= i < |entries| && entries[i].name == parts[|base|]
      decreases entries
    {
      var last := entries[|entries| - 1];
      if relative in At(last.node, base + [last.name], pruning).entries {
        ListedAt(last, base, relative, pruning);
        assert entries[|entries| - 1].name == Split(relative)[|base|];
      } else {
        ListedBelow(entries[..|entries| - 1], base, relative, pruning);
      }
    }

    lemma {:induction false} ListedAt(entry: Entry, base: seq<string>, relative: string, pruning: bool)
      requires IsName(entry.name) && (entry.node.Directory? ==> WellFormed(entry.node.entries)) && AreNames(base)
      requires relative in At(entry.node, base + [entry.name], pruning).entries
      ensures var parts := Split(relative);
              |parts| > |base| && parts[..|base|] == base && AreNames(parts) && parts[|base|] == entry.name
      decreases entry.node, 0
    {
      var parts := base + [entry.name];
      SplitJoin(parts);
      if entry.node.Directory? {
        ListedBelow(entry.node.entries, parts, relative, pruning);
        assert Split(relative)[..|base|] == parts[..|base|] == base;
        assert Split(relative)[|base|] == parts[|base|];
      }
    }

    /** Whether the look-up of one path selects it, and what the copy then holds. */
    predicate Agrees(wanted: map<string, Copy>, parts: seq<string>, base: nat, node: Option<Node>, pruning: bool) {
      var relative := Join(parts);
      && (relative in wanted <==>
            node.Some? && (node.value.File? || node.value.Link?) && Keeps(relative)
              && (pruning ==> IsOpened(parts, base)))
      && (relative in wanted ==> wanted[relative] == CopyOf(node.value))
    }

    /** The recursive listing and the look-up of a single path agree, with and without pruning. */
    lemma {:induction false} ListingIsSelected(entries: seq<Entry>, base: seq<string>, below: seq<string>,
                                               pruning: bool)
      requires WellFormed(entries) && AreNames(base) && AreNames(below) && below != []
      ensures Agrees(Listing(entries, base, pruning).entries, base + below, |base|, Find(entries, below), pruning)
      decreases entries, 1
    {
      if entries != [] {
        var rest, last := entries[..|entries| - 1], entries[|entries| - 1];
        var parts, relative := base + [last.name], Join(base + below);
        ListingIsSelected(rest, base, below, pruning);
        if below[0] == last.name {
          FindMisses(rest, below);
          AtIsSelected(last.node, base, below, pruning);
        } else if relative in At(last.node, parts, pruning).entries {
          ElsewhereIsNotListed(last, base, below, pruning);
        }
      }
    }

    lemma {:induction false} AtIsSelected(node: Node, base: seq<string>, below: seq<string>, pruning: bool)
      requires node.Directory? ==> WellFormed(node.entries)
      requires AreNames(base) && AreNames(below) && below != []
      ensures Agrees(At(node, base + [below[0]], pruning).entries, base + below, |base|,
                     if |below| == 1 then Some(node)
                     else if node.Directory? then Find(node.entries, below[1..]) else None, pruning)
      decreases node, 0
    {
      var parts := base + [below[0]];
      if |below| == 1 {
        assert base + below == parts;
        ItselfIsNotBelow(node, parts, pruning);
      } else if !node.Directory? {
        LongerPathsDiffer(parts, below[1..]);
        assert base + below == parts + below[1..];
      } else {
        assert base + below == parts + below[1..];
        ListingIsSelected(node.entries, parts, below[1..], pruning);
        DirectoryIsSelected(node.entries, parts, below[1..], pruning);
      }
    }

    lemma DirectoryIsSelected(entries: seq<Entry>, parts: seq<string>, below: seq<string>, pruning: bool)
      requires parts != [] && below != []
      requires Agrees(Listing(entries, parts, pruning).entries, parts + below, |parts|, Find(entries, below), pruning)
      ensures Agrees(At(Directory(entries), parts, pruning).entries, parts + below, |parts| - 1, Find(entries, below),
                     pruning)
    {
      assert (parts + below)[..|parts|] == parts;
      OpenedStep(parts + below, |parts| - 1);
      Itself(parts).PlusEntries(Listing(entries, parts, pruning));
    }

    lemma OpenedStep(parts: seq<string>, base: nat)
      requires base + 1 < |parts|
      ensures IsOpened(parts, base) <==> !Pruned(Join(parts[..base + 1])) && IsOpened(parts, base + 1)
    {
      if !Pruned(Join(parts[..base + 1])) && IsOpened(parts, base + 1) {
        forall k | base < k < |parts|
          ensures !Pruned(Join(parts[..k]))
        {
          assert k == base + 1 || base + 1 < k;
        }
      }
    }

    lemma LongerPathsDiffer(parts: seq<string>, below: seq<string>)
      requires AreNames(parts) && AreNames(below) && parts != [] && below != []
      ensures Join(parts + below) != Join(parts)
    {
      SplitJoin(parts + below);
      SplitJoin(parts);
    }

    lemma ItselfIsNotBelow(node: Node, parts: seq<string>, pruning: bool)
      requires node.Directory? ==> WellFormed(node.entries)
      requires AreNames(parts) && parts != []
      ensures node.Directory? ==> Join(parts) !in At(node, parts, pruning).entries
    {
      SplitJoin(parts);
      if node.Directory? && Join(parts) in Listing(node.entries, parts, pruning).entries {
        ListedBelow(node.entries, parts, Join(parts), pruning);
        assert false;
      }
    }

    lemma ElsewhereIsNotListed(entry: Entry, base: seq<string>, below: seq<string>, pruning: bool)
      requires IsName(entry.name) && (entry.node.Directory? ==> WellFormed(entry.node.entries))
      requires AreNames(base) && AreNames(below) && below != [] && entry.name != below[0]
      ensures Join(base + below) !in At(entry.node, base + [entry.name], pruning).entries
    {
      SplitJoin(base + below);
      if Join(base + below) in At(entry.node, base + [entry.name], pruning).entries {
        ListedAt(entry, base, Join(base + below), pruning);
        assert false;
      }
    }

    lemma {:induction false} FindMisses(entries: seq<Entry>, parts: seq<string>)
      requires parts != []
      requires forall i :: 0 <= i < |entries| ==> entries[i].name != parts[0]
      ensures Find(entries, parts).None?
    {
      if entries != [] {
        FindMisses(entries[..|entries| - 1], parts);
      }
    }

    /**
     * `export_build_context`: for every path text, the copy holds it exactly when the per-path filter selects it and
     * the walk gets there, unchanged but for the mode. With safe exceptions the walk gets everywhere, and to the paths
     * in `keep` it always does.
     */
    method ExportBuildContext(context: seq<Entry>) returns (destination: Destination)
      requires WellFormed(context)
      ensures fresh(destination)
      ensures destination.Contents() == Listing(context, [], true)
      ensures forall relative :: Get(destination.entries, relative) == Walked(context, relative)
      ensures rules.IsPruningSafe() || rules.IsReliable() ==>
                forall relative :: Get(destination.entries, relative) == Selected(context, relative)
      ensures forall relative :: relative in keep ==> Get(destination.entries, relative) == FileAt(context, relative)
    {
      destination := new Destination();
      ExportDirectory(context, "", [], destination, []);
      assert NOTHING.Plus(Listing(context, [], true)) == Listing(context, [], true);
      WalkIsWalked(context);
      if rules.IsReliable() {
        rules.ReliableIsPruningSafe();
      }
      if rules.IsPruningSafe() {
        WalkIsFilter(context, []);
        FilterIsSelected(context);
      }
      forall relative | relative in keep
        ensures Get(destination.entries, relative) == FileAt(context, relative)
      {
        KeptIsWalked(context, relative);
      }
    }

    /** Asking about single paths and listing the whole tree agree on one path text. */
    lemma OnePathAgrees(context: seq<Entry>, relative: string, pruning: bool)
      requires WellFormed(context)
      ensures Get(Listing(context, [], pruning).entries, relative) ==
              if pruning then Walked(context, relative) else Selected(context, relative)
    {
      var parts := Split(relative);
      JoinSplit(relative);
      if relative in Listing(context, [], pruning).entries {
        ListedBelow(context, [], relative, pruning);
      } else if Find(context, parts).Some? {
        FindReadsNames(context, parts);
      }
      if AreNames(parts) {
        assert [] + parts == parts;
        ListingIsSelected(context, [], parts, pruning);
      }
    }

    /** Listing the whole tree and asking the per-path filter about single paths agree on every path text. */
    lemma FilterIsSelected(context: seq<Entry>)
      requires WellFormed(context)
      ensures forall relative :: Get(Listing(context, [], false).entries, relative) == Selected(context, relative)
    {
      forall relative
        ensures Get(Listing(context, [], false).entries, relative) == Selected(context, relative)
      {
        OnePathAgrees(context, relative, false);
      }
    }

    /** What the walk that prunes copies, path by path, whatever the rules. */
    lemma WalkIsWalked(context: seq<Entry>)
      requires WellFormed(context)
      ensures forall relative :: Get(Listing(context, [], true).entries, relative) == Walked(context, relative)
    {
      forall relative
        ensures Get(Listing(context, [], true).entries, relative) == Walked(context, relative)
      {
        OnePathAgrees(context, relative, true);
      }
    }

    /** The walk always gets to a kept file or link: it opens every directory on the way. */
    lemma KeptIsWalked(context: seq<Entry>, relative: string)
      requires WellFormed(context) && relative in keep
      ensures Walked(context, relative) == FileAt(context, relative)
    {
      var parts := Split(relative);
      if FileAt(context, relative).Some? {
        FindReadsNames(context, parts);
        forall k | 0 < k < |parts|
          ensures !Pruned(Join(parts[..k]))
        {
          assert Join(parts[..k]) in KeepDirectories(keep);
        }
      }
    }

    /**
     * Applying the same rules again to the exported tree, with or without pruning, selects exactly what was exported.
     */
    lemma ExportIsStable(context: seq<Entry>, exported: seq<Entry>)
      requires WellFormed(context) && WellFormed(exported)
      requires forall relative :: FileAt(exported, relative) == Get(Listing(context, [], true).entries, relative)
      ensures forall relative ::
                Get(Listing(exported, [], true).entries, relative) == Get(Listing(context, [], true).entries, relative)
      ensures forall relative ::
                Get(Listing(exported, [], false).entries, relative) == Get(Listing(context, [], true).entries, relative)
    {
      WalkIsWalked(context);
      WalkIsWalked(exported);
      FilterIsSelected(exported);
      forall relative
        ensures Walked(exported, relative) == Selected(exported, relative) == Walked(context, relative)
      {
        assert FileAt(exported, relative) == Get(Listing(context, [], true).entries, relative);
        assert FileAt(exported, relative) == Walked(context, relative);
      }
    }

    lemma {:induction false} FindReadsNames(entries: seq<Entry>, parts: seq<string>)
      requires WellFormed(entries) && parts != [] && Find(entries, parts).Some?
      ensures AreNames(parts)
      decreases entries
    {
      var last := entries[|entries| - 1];
      if last.name != parts[0] {
        FindReadsNames(entries[..|entries| - 1], parts);
      } else if |parts| > 1 {
        FindReadsNames(last.node.entries, parts[1..]);
        assert forall i :: 1 <= i < |parts| ==> parts[i] == parts[1..][i - 1];
      }
    }
  }

  /**
   * An exception that the test misses does lose files: after the exclusion of a directory, what it re-includes below is
   * selected by the filter, but the walk over any tree that holds it never gets there.
   */
  lemma MissedExceptionIsLost(filter: Filter, exclusion: string, text: string, parts: seq<string>, k: nat,
                              tree: seq<Entry>)
    requires Rescues(filter.rules, exclusion, text, parts, k) && filter.keep == {}
    requires !MayReachBelow(text, Join(parts[..k]))
    requires WellFormed(tree) && FileAt(tree, Join(parts)).Some?
    ensures filter.Selected(tree, Join(parts)).Some?
    ensures Join(parts) in filter.Listing(tree, [], false).entries
    ensures Join(parts) !in filter.Listing(tree, [], true).entries
  {
    MissedExceptionIsPruned(filter, exclusion, text, parts, k);
    BehindAPrunedDirectory(filter, parts, k);
    filter.OnePathAgrees(tree, Join(parts), false);
    filter.OnePathAgrees(tree, Join(parts), true);
  }

  lemma MissedExceptionIsPruned(filter: Filter, exclusion: string, text: string, parts: seq<string>, k: nat)
    requires Rescues(filter.rules, exclusion, text, parts, k) && filter.keep == {}
    requires !MayReachBelow(text, Join(parts[..k]))
    ensures filter.Keeps(Join(parts)) && filter.Pruned(Join(parts[..k]))
  {
    RescueVerdicts(filter.rules, exclusion, text, parts, k);
    filter.CarriedIsExcluded(parts);
    filter.CarriedIsExcluded(parts[..k]);
  }

  lemma BehindAPrunedDirectory(filter: Filter, parts: seq<string>, k: nat)
    requires AreNames(parts) && 0 < k < |parts| && filter.Pruned(Join(parts[..k]))
    ensures !filter.IsOpened(Split(Join(parts)), 0)
  {
    SplitJoin(parts);
  }

  /** The rules have no other exception than this text. */
  predicate HasOnlyException(rules: Rules, text: string) {
    forall i :: 0 <= i < |rules.patterns| && rules.patterns[i].exception ==> rules.patterns[i].text == text
  }

  /** Whatever is excluded besides, whatever is kept, and whatever tree is exported: pruning makes no difference. */
  ghost predicate NeverLosesAnything(text: string, engine: Engine) {
    forall filter: Filter, tree: seq<Entry> ::
      HasOnlyException(filter.rules, text) && filter.rules.engine == engine && WellFormed(tree) ==>
        filter.Listing(tree, [], true) == filter.Listing(tree, [], false)
  }

  /** So what makes an exception safe is exact. */
  lemma PruningSafeExactly(text: string, engine: Engine)
    ensures Anchors.IsPruningSafe(text, engine) <==> NeverLosesAnything(text, engine)
  {
    if Anchors.IsPruningSafe(text, engine) {
      forall filter: Filter, tree: seq<Entry> |
        HasOnlyException(filter.rules, text) && filter.rules.engine == engine && WellFormed(tree)
        ensures filter.Listing(tree, [], true) == filter.Listing(tree, [], false)
      {
        assert filter.rules.IsPruningSafe();
        filter.WalkIsFilter(tree, []);
      }
    } else {
      var directory, path :| && IsPath(path) && HasPrefix(path, directory + "/") && Matches(text, path, engine)
                             && !Matches(text, directory, engine) && !MayReachBelow(text, directory);
      var filter, tree := LostFile(text, directory, path, engine);
      assert HasOnlyException(filter.rules, text) && WellFormed(tree);
    }
  }

  lemma LostFile(text: string, directory: string, path: string, engine: Engine)
    returns (filter: Filter, tree: seq<Entry>)
    requires IsPath(path) && HasPrefix(path, directory + "/") && Matches(text, path, engine)
    requires !Matches(text, directory, engine) && !MayReachBelow(text, directory)
    ensures HasOnlyException(filter.rules, text) && filter.rules.engine == engine && WellFormed(tree)
    ensures filter.Listing(tree, [], true) != filter.Listing(tree, [], false)
  {
    var parts := Split(path);
    NamesMakeAPath(path);
    JoinSplit(path);
    var k := FirstNames(path, directory);
    forall j | 0 < j <= k
      ensures Matches(Stars(k), Join(parts[..j]), engine) <==> j == k
    {
      StarsMatch(parts[..j], k, engine);
    }
    filter := Filter(Rules([IgnorePattern(Stars(k), false), IgnorePattern(text, true)], engine), {});
    tree := OneFile(parts);
    OneFileIsThere(parts);
    MissedExceptionIsLost(filter, Stars(k), text, parts, k, tree);
  }

  /** A tree with one file. */
  function OneFile(parts: seq<string>): seq<Entry>
    requires parts != []
  {
    [Entry(parts[0], if |parts| == 1 then File([], false) else Directory(OneFile(parts[1..])))]
  }

  lemma {:induction false} OneFileIsThere(parts: seq<string>)
    requires parts != [] && AreNames(parts)
    ensures WellFormed(OneFile(parts)) && Find(OneFile(parts), parts) == Some(File([], false))
    decreases |parts|
  {
    if |parts| > 1 {
      OneFileIsThere(parts[1..]);
    }
  }

  /** For a plain text: an anchored exception loses a file of some tree exactly if it names something in a directory. */
  lemma AnchoredPlainExactly(text: string, engine: Engine)
    requires IsPlain(text)
    ensures NeverLosesAnything("^" + text, engine) <==> !('/' in text && IsPath(text))
  {
    AnchoredPlainIsPruningSafe(text, engine);
    PruningSafeExactly("^" + text, engine);
  }

  /** The file or link at a path text, as it is copied. */
  function FileAt(entries: seq<Entry>, relative: string): Option<Copy> {
    match Find(entries, Split(relative))
    case Some(node) => if node.File? || node.Link? then Some(CopyOf(node)) else None
    case None => None
  }

  /** The node found by walking down `parts` from a directory. */
  function Find(entries: seq<Entry>, parts: seq<string>): Option<Node>
    requires parts != []
    decreases entries
  {
    if entries == [] then None
    else
      var last := entries[|entries| - 1];
      if last.name != parts[0] then Find(entries[..|entries| - 1], parts)
      else if |parts| == 1 then Some(last.node)
      else if last.node.Directory? then Find(last.node.entries, parts[1..])
      else None
  }
}
