/**
 * The Compose projection for the Concierge runtimes: its four services, whatever they depend on, and the top-level
 * definitions those refer to. A refusal of the source is `None`.
 */
module ConciergeProjection {
  import opened Common

  /** A mapping key that is a string, or one that is not. */
  datatype Key = Name(text: string) | Other(text: string)

  datatype Entry = Entry(key: Key, value: Value) {
    predicate IsNamed(names: set<string>) {
      key.Name? && key.text in names
    }
  }

  /** A YAML value with its mappings in source order. */
  datatype Value =
    | Null
    | Plain(text: string)
    | Text(text: string)
    | List(items: seq<Value>)
    | Map(entries: seq<Entry>)

  /** `mapping.get(name)` */
  function Lookup(entries: seq<Entry>, name: string): Value {
    if entries == [] then
      Null
    else if entries[0].key == Name(name) then
      entries[0].value
    else
      Lookup(entries[1..], name)
  }

  /** The entries with these names, in order. */
  function Filter(entries: seq<Entry>, names: set<string>): seq<Entry> {
    if entries == [] then
      []
    else if entries[0].IsNamed(names) then
      [entries[0]] + Filter(entries[1..], names)
    else
      Filter(entries[1..], names)
  }

  const RECREATED := [
    "kor-travel-concierge-api", "kor-travel-concierge-mcp", "kor-travel-concierge-dagster-code-server",
    "kor-travel-concierge-ui"
  ]

  function KeyNames(entries: seq<Entry>): Option<seq<string>> {
    if entries == [] then
      Some([])
    else if entries[0].key.Other? then
      None
    else
      match KeyNames(entries[1..])
      case None => None
      case Some(rest) => Some([entries[0].key.text] + rest)
  }

  function TextItems(items: seq<Value>): Option<seq<string>> {
    if items == [] then
      Some([])
    else if !items[0].Text? then
      None
    else
      match TextItems(items[1..])
      case None => None
      case Some(rest) => Some([items[0].text] + rest)
  }

  /** What a service depends on; none if it is not a service with proper dependencies. */
  function Dependencies(services: seq<Entry>, name: string): Option<seq<string>> {
    match Lookup(services, name)
    case Map(entries) => (
      match Lookup(entries, "depends_on")
      case Map(dependencies) => KeyNames(dependencies)
      case List(items) => TextItems(items)
      case Null => Some([])
      case _ => None
    )
    case _ => None
  }

  /** Contains the services to recreate and everything its members depend on. */
  predicate IsClosed(services: seq<Entry>, names: set<string>) {
    && (forall name :: name in RECREATED ==> name in names)
    && forall name :: name in names ==> IsClosedAt(services, name, names)
  }

  predicate IsClosedAt(services: seq<Entry>, name: string, names: set<string>) {
    Dependencies(services, name).Some? ==>
      forall dependency :: dependency in Dependencies(services, name).value ==> dependency in names
  }

  /** Needed by the Concierge, directly or through dependencies: a member of every closed set. */
  ghost predicate IsNeeded(services: seq<Entry>, name: string) {
    forall names :: IsClosed(services, names) ==> name in names
  }

  ghost predicate IsLeastClosed(services: seq<Entry>, names: set<string>) {
    IsClosed(services, names) && forall name :: name in names ==> IsNeeded(services, name)
  }

  lemma LeastClosedIsUnique(services: seq<Entry>, one: set<string>, other: set<string>)
    requires IsLeastClosed(services, one) && IsLeastClosed(services, other)
    ensures one == other
  {}

  function NamesOf(entries: seq<Entry>): set<string> {
    set entry | entry in entries && entry.key.Name? :: entry.key.text
  }

  lemma {:induction false} LookupNeedsAName(entries: seq<Entry>, name: string)
    requires Lookup(entries, name) != Null
    ensures name in NamesOf(entries)
  {
    if entries[0].key == Name(name) {
      assert entries[0] in entries;
    } else {
      LookupNeedsAName(entries[1..], name);
    }
  }

  predicate IsProper(services: seq<Entry>, name: string) {
    Dependencies(services, name).Some?
  }

  predicate AreProperServices(services: seq<Entry>, names: set<string>) {
    forall name :: name in names ==> IsProper(services, name)
  }

  /** Where the worklist stands. */
  ghost predicate Searching(services: seq<Entry>, selected: set<string>, pending: seq<string>) {
    && (forall name :: name in selected ==> IsNeeded(services, name) && IsProper(services, name))
    && (forall name :: name in pending ==> IsNeeded(services, name))
    && (forall name :: name in RECREATED ==> name in selected || name in pending)
    && forall name :: name in selected ==> IsClosedAt(services, name, selected + set other | other in pending)
  }

  lemma SearchStarts(services: seq<Entry>)
    ensures Searching(services, {}, RECREATED)
  {}

  lemma SearchSkips(services: seq<Entry>, selected: set<string>, rest: seq<string>, name: string)
    requires Searching(services, selected, rest + [name]) && name in selected
    ensures Searching(services, selected, rest)
  {}

  lemma SearchTakes(services: seq<Entry>, selected: set<string>, rest: seq<string>, name: string,
                    dependencies: seq<string>)
    requires Searching(services, selected, rest + [name])
    requires Dependencies(services, name) == Some(dependencies)
    ensures Searching(services, selected + {name}, rest + dependencies)
  {}

  lemma SearchEnds(services: seq<Entry>, selected: set<string>)
    requires Searching(services, selected, [])
    ensures IsLeastClosed(services, selected)
  {}

  /** The worklist: pops the latest name, and pushes what that service depends on. */
  method Select(services: seq<Entry>) returns (selected: Option<set<string>>)
    ensures selected.Some? ==> IsLeastClosed(services, selected.value)
    ensures selected.Some? ==> AreProperServices(services, selected.value)
    ensures selected.None? <==> exists name :: IsNeeded(services, name) && !IsProper(services, name)
  {
    var names: set<string> := {};
    var pending := RECREATED;
    ghost var all := NamesOf(services);
    SearchStarts(services);
    while pending != []
      invariant names <= all && Searching(services, names, pending)
      decreases all - names, |pending|
    {
      var name, rest := pending[|pending| - 1], pending[..|pending| - 1];
      assert pending == rest + [name];
      if name in names {
        SearchSkips(services, names, rest, name);
        pending := rest;
      } else {
        var dependencies := Dependencies(services, name);
        if dependencies.None? {
          assert IsNeeded(services, name) && !IsProper(services, name);
          return None;
        }
        LookupNeedsAName(services, name);
        SearchTakes(services, names, rest, name, dependencies.value);
        names, pending := names + {name}, rest + dependencies.value;
      }
    }
    SearchEnds(services, names);
    selected := Some(names);
  }

  // The top-level definitions.

  const SECTIONS := ["configs", "networks", "secrets", "volumes"]

  /** `text.split(":", 1)[0]` */
  function BeforeColon(text: string): string {
    if text == "" || text[0] == ':' then "" else [text[0]] + BeforeColon(text[1..])
  }

  /** The definition a declaration refers to, if any. */
  function ReferenceName(declaration: Value, section: string): Result<Option<string>, ()> {
    match declaration
    case Map(entries) => (
      match Lookup(entries, "source")
      case Null => Ok(None)
      case Text(source) => Ok(Some(source))
      case _ => Err(())
    )
    case Text(text) =>
      if section != "volumes" then
        Ok(Some(text))
      else
        var source := BeforeColon(text);
        Ok(if source == "" || source[0] in {'/', '.'} then None else Some(source))
    case _ => Err(())
  }

  predicate AreProper(declarations: seq<Value>, section: string) {
    forall declaration :: declaration in declarations ==> ReferenceName(declaration, section).Ok?
  }

  function NamesReferred(declarations: seq<Value>, section: string): set<string>
    requires AreProper(declarations, section)
  {
    set declaration | declaration in declarations && ReferenceName(declaration, section).value.Some? ::
      ReferenceName(declaration, section).value.value
  }

  function Values(entries: seq<Entry>): seq<Value> {
    if entries == [] then [] else [entries[0].value] + Values(entries[1..])
  }

  /** What one service refers to in a section; none if a declaration is improper. */
  function ServiceReferences(service: Value, section: string): Option<set<string>> {
    if !service.Map? then
      None
    else
      match Lookup(service.entries, section)
      case Null => Some({})
      case Map(declarations) =>
        if section == "networks" then
          Some(NamesOf(declarations))
        else if AreProper(Values(declarations), section) then
          Some(NamesReferred(Values(declarations), section))
        else
          None
      case List(items) => if AreProper(items, section) then Some(NamesReferred(items, section)) else None
      case _ => None
  }

  /** `_compose_entity_references` */
  function References(services: seq<Entry>, section: string): Option<set<string>> {
    if services == [] then
      Some({})
    else
      match (ServiceReferences(services[0].value, section), References(services[1..], section))
      case (Some(names), Some(rest)) => Some(names + rest)
      case _ => None
  }

  /** A document, as far as the projection looks at it; a missing item is `Null`. */
  datatype Document = Document(services: Value, name: Value, definitions: map<string, Value>) {
    function Definitions(section: string): Value {
      Get(definitions, section).GetOr(Null)
    }
  }

  /** Whether the definitions of a section can be projected for these services. */
  predicate CanProject(document: Document, services: seq<Entry>, section: string) {
    match document.Definitions(section)
    case Null => true
    case Map(_) => References(services, section).Some?
    case _ => false
  }

  /** The definitions of a section these services refer to, if there are any. */
  function Referenced(document: Document, services: seq<Entry>, section: string): Option<Value>
    requires CanProject(document, services, section)
  {
    match document.Definitions(section)
    case Null => None
    case Map(definitions) =>
      var kept := Filter(definitions, References(services, section).value);
      if kept == [] then None else Some(Map(kept))
  }

  /** The projection onto the services of these names. */
  ghost predicate IsProjectionOnto(document: Document, names: set<string>, projection: Document) {
    && document.services.Map?
    && projection.services == Map(Filter(document.services.entries, names))
    && projection.name == (if document.name.Text? then document.name else Null)
    && (forall section :: section in projection.definitions ==> section in SECTIONS)
    && forall section :: section in SECTIONS ==>
         && CanProject(document, projection.services.entries, section)
         && Get(projection.definitions, section) == Referenced(document, projection.services.entries, section)
  }

  /** The projection keeps exactly the services needed, and each of them is a proper service. */
  ghost predicate IsProjection(document: Document, projection: Document) {
    exists names ::
      && document.services.Map?
      && IsLeastClosed(document.services.entries, names)
      && AreProperServices(document.services.entries, names)
      && IsProjectionOnto(document, names, projection)
  }

  method Project(document: Document) returns (projection: Option<Document>)
    ensures projection.Some? ==> IsProjection(document, projection.value)
    ensures projection.None? ==> forall other :: !IsProjection(document, other)
  {
    if !document.services.Map? {
      return None;
    }
    var services := document.services.entries;
    var selected := Select(services);
    if selected.None? {
      forall other
        ensures !IsProjection(document, other)
      {
        NoProjectionWithoutServices(document, other);
      }
      return None;
    }
    var kept := Filter(services, selected.value);
    var definitions: map<string, Value> := map[];
    for i := 0 to |SECTIONS|
      invariant forall section :: section in definitions ==> section in SECTIONS[..i]
      invariant forall section :: section in SECTIONS[..i] ==>
                  && CanProject(document, kept, section)
                  && Get(definitions, section) == Referenced(document, kept, section)
    {
      var section := SECTIONS[i];
      assert section in SECTIONS && section !in SECTIONS[..i];
      if !CanProject(document, kept, section) {
        forall other
          ensures !IsProjection(document, other)
        {
          ProjectionIsDetermined(document, selected.value, other);
        }
        return None;
      }
      var referenced := Referenced(document, kept, section);
      if referenced.Some? {
        definitions := definitions[section := referenced.value];
      }
      assert SECTIONS[..i + 1] == SECTIONS[..i] + [section];
    }
    assert SECTIONS[..|SECTIONS|] == SECTIONS;
    var result := Document(Map(kept), if document.name.Text? then document.name else Null, definitions);
    assert IsProjectionOnto(document, selected.value, result);
    projection := Some(result);
  }

  lemma NoProjectionWithoutServices(document: Document, other: Document)
    requires document.services.Map?
    requires exists name :: IsNeeded(document.services.entries, name) && !IsProper(document.services.entries, name)
    ensures !IsProjection(document, other)
  {}

  lemma ProjectionIsDetermined(document: Document, names: set<string>, other: Document)
    requires document.services.Map? && IsLeastClosed(document.services.entries, names)
    ensures IsProjection(document, other) ==> IsProjectionOnto(document, names, other)
  {
    if IsProjection(document, other) {
      var others :| IsLeastClosed(document.services.entries, others) && IsProjectionOnto(document, others, other);
      LeastClosedIsUnique(document.services.entries, names, others);
    }
  }

  lemma {:induction false} FilterTwice(entries: seq<Entry>, names: set<string>)
    ensures Filter(Filter(entries, names), names) == Filter(entries, names)
  {
    if entries != [] {
      FilterTwice(entries[1..], names);
      if entries[0].IsNamed(names) {
        assert Filter(entries, names)[1..] == Filter(entries[1..], names);
      }
    }
  }

  /** Kept entries stay in order: what comes before stays before. */
  lemma {:induction false} FilterKeepsOrder(before: seq<Entry>, after: seq<Entry>, names: set<string>)
    ensures Filter(before + after, names) == Filter(before, names) + Filter(after, names)
  {
    if before == [] {
      assert before + after == after;
    } else {
      FilterKeepsOrder(before[1..], after, names);
      assert (before + after)[1..] == before[1..] + after;
    }
  }

  lemma FilteredDependencies(services: seq<Entry>, names: set<string>, name: string)
    requires name in names
    ensures Dependencies(Filter(services, names), name) == Dependencies(services, name)
  {}

  /** The needed services are needed in their own projection too, and nothing else is. */
  lemma ProjectedServicesAreLeastClosed(services: seq<Entry>, names: set<string>)
    requires IsLeastClosed(services, names) && AreProperServices(services, names)
    ensures IsLeastClosed(Filter(services, names), names)
    ensures AreProperServices(Filter(services, names), names)
  {
    var kept := Filter(services, names);
    forall name | name in names
      ensures IsClosedAt(kept, name, names) && IsProper(kept, name)
    {
      FilteredDependencies(services, names, name);
      assert IsClosedAt(services, name, names) && IsProper(services, name);
    }
    forall others, name | IsClosed(kept, others) && name in names
      ensures name in others
    {
      var common := others * names;
      forall member | member in common
        ensures IsClosedAt(services, member, common)
      {
        FilteredDependencies(services, names, member);
        assert IsClosedAt(kept, member, others) && IsClosedAt(services, member, names);
      }
      assert IsClosed(services, common);
      assert IsNeeded(services, name);
    }
  }

  /** Projecting a projection changes nothing. */
  lemma ProjectionIsIdempotent(document: Document, projection: Document)
    requires IsProjection(document, projection)
    ensures IsProjection(projection, projection)
    ensures forall other :: IsProjection(projection, other) ==> other == projection
  {
    var services := document.services.entries;
    var names :| IsLeastClosed(services, names) && AreProperServices(services, names)
                 && IsProjectionOnto(document, names, projection);
    ProjectedServicesAreLeastClosed(services, names);
    ProjectedOntoItself(document, names, projection);
    forall other | IsProjection(projection, other)
      ensures other == projection
    {
      ProjectionIsDetermined(projection, names, other);
      SameProjection(projection, names, projection, other);
    }
  }

  lemma ProjectedOntoItself(document: Document, names: set<string>, projection: Document)
    requires IsProjectionOnto(document, names, projection)
    ensures IsProjectionOnto(projection, names, projection)
  {
    FilterTwice(document.services.entries, names);
    var kept := projection.services.entries;
    forall section | section in SECTIONS
      ensures CanProject(projection, kept, section)
      ensures Get(projection.definitions, section) == Referenced(projection, kept, section)
    {
      assert CanProject(document, kept, section);
      assert Get(projection.definitions, section) == Referenced(document, kept, section);
      if projection.Definitions(section).Map? {
        FilterTwice(document.Definitions(section).entries, References(kept, section).value);
      }
    }
  }

  lemma SameProjection(document: Document, names: set<string>, one: Document, other: Document)
    requires IsProjectionOnto(document, names, one) && IsProjectionOnto(document, names, other)
    ensures one == other
  {}

  /** A name is referred to exactly if one of the services refers to it, and refused exactly if one is improper. */
  lemma {:induction false} ReferencesCollect(services: seq<Entry>, section: string)
    ensures References(services, section).Some? <==>
            forall service :: service in services ==> ServiceReferences(service.value, section).Some?
    ensures References(services, section).Some? ==>
              forall name :: name in References(services, section).value <==>
                exists service :: service in services && name in ServiceReferences(service.value, section).value
  {
    if services != [] {
      ReferencesCollect(services[1..], section);
      assert forall service :: service in services <==> service == services[0] || service in services[1..];
    }
  }

  /** A definition is kept exactly if a kept service refers to it. */
  lemma ExactlyReferencedDefinitionsAreKept(document: Document, names: set<string>, projection: Document,
                                            section: string)
    requires IsProjectionOnto(document, names, projection) && section in SECTIONS && document.Definitions(section).Map?
    ensures var kept := projection.Definitions(section);
            forall name, value ::
              (kept.Map? && Entry(Name(name), value) in kept.entries) <==>
                && Entry(Name(name), value) in document.Definitions(section).entries
                && exists service :: service in projection.services.entries && Refers(service, section, name)
  {
    var definitions, services := document.Definitions(section).entries, projection.services.entries;
    assert CanProject(document, services, section);
    assert Get(projection.definitions, section) == Referenced(document, services, section);
    ReferencesCollect(services, section);
    var references := References(services, section).value;
    var kept := Filter(definitions, references);
    forall name, value
      ensures Entry(Name(name), value) in kept <==> Entry(Name(name), value) in definitions && name in references
    {
      FilterMembers(definitions, references, Entry(Name(name), value));
    }
    assert forall name ::
        name in references <==> exists service :: service in services && Refers(service, section, name);
  }

  predicate Refers(service: Entry, section: string, name: string) {
    ServiceReferences(service.value, section).Some? && name in ServiceReferences(service.value, section).value
  }

  lemma {:induction false} FilterMembers(entries: seq<Entry>, names: set<string>, entry: Entry)
    ensures entry in Filter(entries, names) <==> entry in entries && entry.IsNamed(names)
  {
    if entries != [] {
      FilterMembers(entries[1..], names, entry);
      assert entries == [entries[0]] + entries[1..];
    }
  }
}
