/**
 * Two checks that a dependency graph ends in exactly one node: the members of a Compose profile, and the revisions of
 * a migration graph. Without cycles, that one node rests on everything else.
 */
module TerminalGraph {
  import opened Common

  /** Nodes, and what each of them depends on. */
  datatype Graph = Graph(nodes: set<string>, dependencies: string -> set<string>) {

    function Depended(): set<string> {
      set node, dependency | node in nodes && dependency in dependencies(node) :: dependency
    }

    /** The nodes no node depends on. */
    function Terminals(): set<string> {
      nodes - Depended()
    }

    /** Each node of the chain is a dependency of the next. */
    predicate IsChain(chain: seq<string>) {
      && chain != []
      && (forall i :: 0 <= i < |chain| ==> chain[i] in nodes)
      && forall i, j :: 0 <= i && j == i + 1 < |chain| ==> chain[i] in dependencies(chain[j])
    }

    /** `below` is reached from `above` by following dependencies, zero or more. */
    ghost predicate RestsOn(above: string, below: string) {
      exists chain :: IsChain(chain) && chain[0] == below && chain[|chain| - 1] == above
    }

    ghost predicate IsAcyclic() {
      forall chain :: IsChain(chain) && |chain| > 1 ==> chain[0] != chain[|chain| - 1]
    }

    lemma ChainTail(chain: seq<string>, from: nat)
      requires IsChain(chain) && from < |chain|
      ensures IsChain(chain[from..])
    {}

    lemma ChainUp(chain: seq<string>, next: string)
      requires IsChain(chain) && next in nodes && chain[|chain| - 1] in dependencies(next)
      ensures IsChain(chain + [next])
    {}

    lemma ChainDown(below: string, chain: seq<string>)
      requires IsChain(chain) && below in nodes && below in dependencies(chain[0])
      ensures IsChain([below] + chain)
    {}

    /** Climbing from any node without going round in circles ends at a terminal. */
    lemma {:induction false} Climb(chain: seq<string>, visited: set<string>) returns (top: seq<string>)
      requires IsAcyclic() && IsChain(chain) && visited == (set node | node in chain)
      ensures IsChain(top) && top[0] == chain[0] && top[|top| - 1] in Terminals()
      decreases nodes - visited
    {
      var last := chain[|chain| - 1];
      assert last in nodes;
      if last in Terminals() {
        top := chain;
      } else {
        var next :| next in nodes && last in dependencies(next);
        ChainUp(chain, next);
        if next in visited {
          var i :| 0 <= i < |chain| && chain[i] == next;
          ChainTail(chain + [next], i);
          assert false;
        }
        assert forall node :: node in chain + [next] <==> node in chain || node == next;
        top := Climb(chain + [next], visited + {next});
      }
    }

    /** If there is one terminal and no cycle, every node is a transitive dependency of the terminal. */
    lemma EverythingIsBelowTheTerminal(terminal: string, node: string)
      requires IsAcyclic() && Terminals() == {terminal} && node in nodes
      ensures RestsOn(terminal, node)
    {
      var top := Climb([node], {node});
      assert top[|top| - 1] in Terminals();
    }

    /** Conversely, a node everything is below is the one terminal. */
    lemma WhatEverythingIsBelowIsTheTerminal(terminal: string)
      requires IsAcyclic() && terminal in nodes && forall node :: node in nodes ==> RestsOn(terminal, node)
      ensures Terminals() == {terminal}
    {
      if terminal in Depended() {
        var node :| node in nodes && terminal in dependencies(node);
        assert RestsOn(terminal, node);
        var chain :| IsChain(chain) && chain[0] == node && chain[|chain| - 1] == terminal;
        ChainDown(terminal, chain);
        assert false;
      }
      forall node | node in nodes && node != terminal
        ensures node in Depended()
      {
        assert RestsOn(terminal, node);
        var chain :| IsChain(chain) && chain[0] == node && chain[|chain| - 1] == terminal;
        assert chain[1] in nodes && chain[0] in dependencies(chain[1]);
      }
    }
  }

  /** Without the assumption it fails: a cycle beside the terminal is not below it. */
  lemma ACycleBesideTheTerminal()
    ensures var graph := Graph({"a", "b", "end"},
                               node => if node == "a" then {"b"} else if node == "b" then {"a"} else {});
            graph.Terminals() == {"end"} && !graph.RestsOn("end", "a")
  {
    var graph := Graph({"a", "b", "end"}, node => if node == "a" then {"b"} else if node == "b" then {"a"} else {});
    assert "b" in graph.dependencies("a") && "a" in graph.dependencies("b");
    assert graph.Depended() == {"a", "b"};
    forall chain | graph.IsChain(chain) && chain[0] == "a"
      ensures chain[|chain| - 1] != "end"
    {
      StaysInTheCycle(graph, chain);
    }
  }

  lemma {:induction false} StaysInTheCycle(graph: Graph, chain: seq<string>)
    requires graph.IsChain(chain) && chain[0] in {"a", "b"} && graph.dependencies("end") == {}
    requires graph.nodes == {"a", "b", "end"}
    ensures chain[|chain| - 1] in {"a", "b"}
    decreases |chain|
  {
    if |chain| > 1 {
      assert chain[0] in graph.dependencies(chain[1]);
      graph.ChainTail(chain, 1);
      StaysInTheCycle(graph, chain[1..]);
    }
  }

  /** The only element, if there is exactly one. */
  function TheOne(names: set<string>): (one: Option<string>)
    ensures one.Some? <==> |names| == 1
    ensures one.Some? ==> names == {one.value}
  {
    if |names| == 1 then
      OneElement(names);
      var name :| name in names && names == {name};
      Some(name)
    else
      None
  }

  lemma OneElement(names: set<string>)
    requires |names| == 1
    ensures exists name :: name in names && names == {name}
    ensures forall one, other :: one in names && other in names ==> one == other
  {
    var name :| name in names;
    assert |names - {name}| == 0;
    assert names == {name};
  }

  // The members of a Compose profile.

  datatype Service = Service(profiles: seq<string>, dependsOn: seq<string>) | NotAMapping

  function Members(services: map<string, Service>, profile: string): set<string> {
    set name | name in services && services[name].Service? && profile in services[name].profiles
  }

  function ProfileGraph(services: map<string, Service>, profile: string): Graph {
    Graph(Members(services, profile),
          name =>
            if name in services && services[name].Service? then (set other | other in services[name].dependsOn) else {})
  }

  /** `_profile_terminal_service`; `isName` is the pattern for Compose names. */
  function ProfileTerminal(services: map<string, Service>, profile: string, isName: string -> bool)
    : (terminal: Option<string>)
    ensures terminal.Some? ==> isName(terminal.value)
  {
    var one := TheOne(ProfileGraph(services, profile).Terminals());
    if one.Some? && isName(one.value) then one else None
  }

  /**
   * Without cycles among the members of the profile, the check returns a service exactly if every member is that
   * service or one of its transitive dependencies among the members, and it is well named.
   */
  lemma ProfileTerminalRestsOnEveryMember(services: map<string, Service>, profile: string, isName: string -> bool,
                                          terminal: string)
    requires ProfileGraph(services, profile).IsAcyclic()
    ensures ProfileTerminal(services, profile, isName) == Some(terminal) <==>
              && terminal in Members(services, profile) && isName(terminal)
              && forall member :: member in Members(services, profile) ==>
                ProfileGraph(services, profile).RestsOn(terminal, member)
  {
    var graph := ProfileGraph(services, profile);
    if graph.Terminals() == {terminal} {
      assert terminal in graph.Terminals();
      forall member | member in Members(services, profile)
        ensures graph.RestsOn(terminal, member)
      {
        graph.EverythingIsBelowTheTerminal(terminal, member);
      }
    } else if terminal in Members(services, profile)
              && forall member :: member in Members(services, profile) ==> graph.RestsOn(terminal, member) {
      graph.WhatEverythingIsBelowIsTheTerminal(terminal);
    }
  }

  // The revisions of a migration graph.

  datatype Revision = Revision(revision: string, parents: seq<string>)

  function Declared(revisions: seq<Revision>): set<string> {
    set entry | entry in revisions :: entry.revision
  }

  function MigrationGraph(revisions: seq<Revision>): Graph {
    Graph(Declared(revisions),
          revision =>
            set entry, parent | entry in revisions && entry.revision == revision && parent in entry.parents :: parent)
  }

  function Referenced(revisions: seq<Revision>): set<string> {
    set entry, parent | entry in revisions && parent in entry.parents :: parent
  }

  /** `_map_application_head` */
  function MigrationHead(revisions: seq<Revision>): Option<string> {
    var head := TheOne(Declared(revisions) - Referenced(revisions));
    if head.Some? && Referenced(revisions) <= Declared(revisions) then head else None
  }

  lemma ReferencedAreDependedOn(revisions: seq<Revision>)
    ensures MigrationGraph(revisions).Depended() == Referenced(revisions)
  {
    var graph := MigrationGraph(revisions);
    forall parent | parent in Referenced(revisions)
      ensures parent in graph.Depended()
    {
      var entry :| entry in revisions && parent in entry.parents;
      assert entry.revision in graph.nodes && parent in graph.dependencies(entry.revision);
    }
  }

  /**
   * Without cycles, the check returns a revision exactly if every parent is declared and every declared revision is
   * that revision or one of its ancestors.
   */
  lemma EveryRevisionIsAnAncestorOfTheHead(revisions: seq<Revision>, head: string)
    requires MigrationGraph(revisions).IsAcyclic()
    ensures MigrationHead(revisions) == Some(head) <==>
              && head in Declared(revisions) && Referenced(revisions) <= Declared(revisions)
              && forall revision :: revision in Declared(revisions) ==>
                MigrationGraph(revisions).RestsOn(head, revision)
  {
    var graph := MigrationGraph(revisions);
    ReferencedAreDependedOn(revisions);
    if graph.Terminals() == {head} {
      assert head in graph.Terminals();
      forall revision | revision in Declared(revisions)
        ensures graph.RestsOn(head, revision)
      {
        graph.EverythingIsBelowTheTerminal(head, revision);
      }
    } else if
      && head in Declared(revisions)
      && forall revision :: revision in Declared(revisions) ==> graph.RestsOn(head, revision)
    {
      graph.WhatEverythingIsBelowIsTheTerminal(head);
    }
  }
}
