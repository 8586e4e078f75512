/**
 * Which variables a Compose document refers to, and where. Sites do not depend on list order, so neither do the
 * references; deleting an entry only takes references away.
 */
module ComposeReferences {
  import opened Common
  import opened Yaml
  import V = VariableNames

  type Site = seq<string>

  /** An `environment` entry; without a value, Compose takes the variable of that name. */
  datatype Pair = Pair(key: string, item: Option<string>) {
    function Names(): set<string> {
      V.Names(key) + match item case None => {key} case Some(text) => V.Names(text)
    }
  }

  predicate IsFlat(value: Yaml) {
    !value.List? && !value.Map?
  }

  /** `str(value)`; `repr` gives the text of a container. */
  function Show(value: Yaml, repr: Yaml -> string): string {
    match value
    case Null => "None"
    case Plain(text) => text
    case Text(text) => text
    case _ => repr(value)
  }

  /** `text.partition("=")`, as a key and what follows the separator */
  function Partition(text: string): Pair {
    if text == "" then
      Pair("", None)
    else if text[0] == '=' then
      Pair("", Some(text[1..]))
    else
      var rest := Partition(text[1..]);
      Pair([text[0]] + rest.key, rest.item)
  }

  lemma {:induction false} PartitionSplits(text: string)
    ensures var pair := Partition(text);
            '=' !in pair.key && text == pair.key + match pair.item case None => "" case Some(item) => "=" + item
  {
    if text != "" && text[0] != '=' {
      PartitionSplits(text[1..]);
      assert text == [text[0]] + text[1..];
    }
  }

  function EnvironmentPairs(value: Yaml, repr: Yaml -> string): set<Pair> {
    match value
    case Map(entries) =>
      set key | key in entries :: Pair(key, if entries[key].Null? then None else Some(Show(entries[key], repr)))
    case List(items) => set item | item in items :: Partition(Show(item, repr))
    case _ => {}
  }

  function PairNames(pairs: set<Pair>, key: string): set<string> {
    set pair, name | pair in pairs && pair.key == key && name in pair.Names() :: name
  }

  function NamesIn(value: Yaml): set<string> {
    set scalar, name | scalar in Scalars(value) && name in V.Names(scalar) :: name
  }

  /** `value` itself or, for a list, its entries */
  function Entries(value: Yaml): seq<Yaml> {
    if value.List? then value.items else [value]
  }

  /** The text of an entry, or of its given field. */
  function EntryText(entry: Yaml, field: string): Option<string> {
    match entry
    case Text(text) => Some(text)
    case Map(entries) =>
      if field in entries && entries[field].Text? then Some(entries[field].text) else None
    case _ => None
  }

  function EntryTexts(value: Yaml, field: string): set<string> {
    set entry | entry in Entries(value) && EntryText(entry, field).Some? :: EntryText(entry, field).value
  }

  const MOUNTED := {"secrets", "configs"}

  /** The variable a top-level secret or config is read from. */
  function DeclaredVariable(document: map<string, Yaml>, section: string, alias: string): Option<string> {
    if section in MOUNTED && section in document && document[section].Map? && alias in document[section].entries then
      match document[section].entries[alias]
      case Map(entries) =>
        if "environment" in entries && entries["environment"].Text? then Some(entries["environment"].text) else None
      case _ => None
    else
      None
  }

  function MountNames(document: map<string, Yaml>, field: string, value: Yaml): set<string> {
    set alias | alias in EntryTexts(value, "source") && DeclaredVariable(document, field, alias).Some? ::
      DeclaredVariable(document, field, alias).value
  }

  const ENV_FILE_PREFIX := "env_file:"

  function FieldNames(document: map<string, Yaml>, field: string, value: Yaml): set<string> {
    MountNames(document, field, value) +
    if field == "env_file" then
      set path | path in EntryTexts(value, "path") :: ENV_FILE_PREFIX + path
    else
      NamesIn(value)
  }

  function EnvironmentReferences(service: string, pairs: set<Pair>, site: Site): set<string> {
    if |site| == 4 && site[..3] == ["services", service, "environment"] then PairNames(pairs, site[3]) else {}
  }

  /** What one field of a service refers to, by site. */
  function FieldReferences(document: map<string, Yaml>, service: string, field: string, value: Yaml, site: Site,
                           repr: Yaml -> string): set<string>
  {
    if field == "environment" then
      EnvironmentReferences(service, EnvironmentPairs(value, repr), site)
    else if site == ["services", service, field] then
      FieldNames(document, field, value)
    else
      {}
  }

  function ServiceReferences(document: map<string, Yaml>, service: string, fields: map<string, Yaml>, site: Site,
                             repr: Yaml -> string): set<string>
  {
    set field, name | field in fields && name in FieldReferences(document, service, field, fields[field], site, repr)
      :: name
  }

  function OneServiceReferences(document: map<string, Yaml>, service: string, value: Yaml, site: Site,
                                repr: Yaml -> string): set<string>
  {
    if value.Map? then ServiceReferences(document, service, value.entries, site, repr) else {}
  }

  function AllServiceReferences(document: map<string, Yaml>, services: map<string, Yaml>, site: Site,
                                repr: Yaml -> string): set<string>
  {
    set service, name |
      service in services && name in OneServiceReferences(document, service, services[service], site, repr)
      :: name
  }

  function SectionReferences(section: string, block: Yaml, site: Site): set<string> {
    if block.Map? then
      if |site| == 2 && site[0] == section && site[1] in block.entries then NamesIn(block.entries[site[1]]) else {}
    else if site == [section] then
      NamesIn(block)
    else
      {}
  }

  function AllSectionReferences(sections: map<string, Yaml>, site: Site): set<string> {
    set section, name | section in sections && name in SectionReferences(section, sections[section], site) :: name
  }

  function ServicesOf(document: map<string, Yaml>): map<string, Yaml> {
    if "services" in document && document["services"].Map? then document["services"].entries else map[]
  }

  /** The variables a document refers to at a site. */
  function ReferencesAt(document: map<string, Yaml>, site: Site, repr: Yaml -> string): set<string> {
    AllServiceReferences(document, ServicesOf(document), site, repr)
      + AllSectionReferences(document - {"services"}, site)
  }

  type References = map<Site, set<string>>

  function At(references: References, site: Site): set<string> {
    Get(references, site).GetOr({})
  }

  predicate NoEmptySites(references: References) {
    forall site :: site in references ==> references[site] != {}
  }

  /** `add`: a site without names gets no entry. */
  function Add(references: References, site: Site, names: set<string>): References {
    if names == {} then references else references[site := At(references, site) + names]
  }

  /** `next` is `references` with these names added, site by site. */
  ghost predicate Grown(references: References, next: References, added: Site -> set<string>) {
    NoEmptySites(next) && forall site :: At(next, site) == At(references, site) + added(site)
  }

  lemma GrownByNothing(references: References, added: Site -> set<string>)
    requires NoEmptySites(references) && forall site :: added(site) == {}
    ensures Grown(references, references, added)
  {}

  lemma GrownTwice(references: References, between: References, next: References, first: Site -> set<string>,
                   second: Site -> set<string>, both: Site -> set<string>)
    requires Grown(references, between, first) && Grown(between, next, second)
    requires forall site :: both(site) == first(site) + second(site)
    ensures Grown(references, next, both)
  {}

  function Once(at: Site, names: set<string>): Site -> set<string> {
    site => if site == at then names else {}
  }

  lemma AddGrows(references: References, site: Site, names: set<string>)
    requires NoEmptySites(references)
    ensures Grown(references, Add(references, site, names), Once(site, names))
  {}

  lemma OnePair(service: string, pairs: set<Pair>, remaining: set<Pair>, pair: Pair)
    requires pair in remaining && remaining <= pairs
    ensures forall site :: EnvironmentReferences(service, pairs - (remaining - {pair}), site) ==
                             EnvironmentReferences(service, pairs - remaining, site)
                             + Once(["services", service, "environment", pair.key], pair.Names())(site)
  {}

  method AddEnvironment(references: References, service: string, pairs: set<Pair>) returns (next: References)
    requires NoEmptySites(references)
    ensures Grown(references, next, site => EnvironmentReferences(service, pairs, site))
  {
    next := references;
    var remaining := pairs;
    GrownByNothing(references, site => EnvironmentReferences(service, pairs - pairs, site));
    while remaining != {}
      invariant remaining <= pairs
      invariant Grown(references, next, site => EnvironmentReferences(service, pairs - remaining, site))
      decreases remaining
    {
      var pair :| pair in remaining;
      var site := ["services", service, "environment", pair.key];
      AddGrows(next, site, pair.Names());
      OnePair(service, pairs, remaining, pair);
      ghost var between := next;
      next := Add(next, site, pair.Names());
      GrownTwice(references, between, next, site => EnvironmentReferences(service, pairs - remaining, site),
                 Once(site, pair.Names()), site => EnvironmentReferences(service, pairs - (remaining - {pair}), site));
      remaining := remaining - {pair};
    }
    assert pairs - {} == pairs;
  }

  lemma OneField(document: map<string, Yaml>, service: string, fields: map<string, Yaml>, remaining: set<string>,
                 field: string, repr: Yaml -> string)
    requires field in remaining && remaining <= fields.Keys
    ensures forall site :: ServiceReferences(document, service, fields - (remaining - {field}), site, repr) ==
                             ServiceReferences(document, service, fields - remaining, site, repr)
                             + FieldReferences(document, service, field, fields[field], site, repr)
  {
    var before, after := fields - remaining, fields - (remaining - {field});
    assert after == before[field := fields[field]];
    forall site
      ensures ServiceReferences(document, service, after, site, repr) ==
              ServiceReferences(document, service, before, site, repr)
                + FieldReferences(document, service, field, fields[field], site, repr)
    {
      forall name |
        || name in ServiceReferences(document, service, before, site, repr)
        || name in FieldReferences(document, service, field, fields[field], site, repr)
        ensures name in ServiceReferences(document, service, after, site, repr)
      {
        if name in FieldReferences(document, service, field, fields[field], site, repr) {
          assert field in after && name in FieldReferences(document, service, field, after[field], site, repr);
        } else {
          var other :| other in before && name in FieldReferences(document, service, other, before[other], site, repr);
          assert other in after && name in FieldReferences(document, service, other, after[other], site, repr);
        }
      }
    }
  }

  method AddField(references: References, document: map<string, Yaml>, service: string, field: string, value: Yaml,
                  repr: Yaml -> string)
    returns (next: References)
    requires NoEmptySites(references)
    ensures Grown(references, next, site => FieldReferences(document, service, field, value, site, repr))
  {
    if field == "environment" {
      next := AddEnvironment(references, service, EnvironmentPairs(value, repr));
    } else {
      var site := ["services", service, field];
      next := Add(references, site, FieldNames(document, field, value));
      AddGrows(references, site, FieldNames(document, field, value));
      assert forall other :: FieldReferences(document, service, field, value, other, repr) ==
                               Once(site, FieldNames(document, field, value))(other);
    }
  }

  method AddService(references: References, document: map<string, Yaml>, service: string, fields: map<string, Yaml>,
                    repr: Yaml -> string)
    returns (next: References)
    requires NoEmptySites(references)
    ensures Grown(references, next, site => ServiceReferences(document, service, fields, site, repr))
  {
    next := references;
    var remaining := fields.Keys;
    GrownByNothing(references, site => ServiceReferences(document, service, fields - fields.Keys, site, repr));
    while remaining != {}
      invariant remaining <= fields.Keys
      invariant Grown(references, next, site => ServiceReferences(document, service, fields - remaining, site, repr))
      decreases remaining
    {
      var field :| field in remaining;
      OneField(document, service, fields, remaining, field, repr);
      ghost var between := next;
      next := AddField(next, document, service, field, fields[field], repr);
      GrownTwice(references, between, next,
                 site => ServiceReferences(document, service, fields - remaining, site, repr),
                 site => FieldReferences(document, service, field, fields[field], site, repr),
                 site => ServiceReferences(document, service, fields - (remaining - {field}), site, repr));
      remaining := remaining - {field};
    }
    assert fields - {} == fields;
  }

  lemma OneService(document: map<string, Yaml>, services: map<string, Yaml>, remaining: set<string>, service: string,
                   repr: Yaml -> string)
    requires service in remaining && remaining <= services.Keys
    ensures forall site :: AllServiceReferences(document, services - (remaining - {service}), site, repr) ==
                             AllServiceReferences(document, services - remaining, site, repr)
                             + OneServiceReferences(document, service, services[service], site, repr)
  {
    var before, after := services - remaining, services - (remaining - {service});
    assert after == before[service := services[service]];
    forall site
      ensures AllServiceReferences(document, after, site, repr) ==
              AllServiceReferences(document, before, site, repr)
                + OneServiceReferences(document, service, services[service], site, repr)
    {
      forall name |
        || name in AllServiceReferences(document, before, site, repr)
        || name in OneServiceReferences(document, service, services[service], site, repr)
        ensures name in AllServiceReferences(document, after, site, repr)
      {
        if name in OneServiceReferences(document, service, services[service], site, repr) {
          assert service in after && name in OneServiceReferences(document, service, after[service], site, repr);
        } else {
          var other :| other in before && name in OneServiceReferences(document, other, before[other], site, repr);
          assert other in after && name in OneServiceReferences(document, other, after[other], site, repr);
        }
      }
    }
  }

  method AddServices(references: References, document: map<string, Yaml>, services: map<string, Yaml>,
                     repr: Yaml -> string)
    returns (next: References)
    requires NoEmptySites(references)
    ensures Grown(references, next, site => AllServiceReferences(document, services, site, repr))
  {
    next := references;
    var remaining := services.Keys;
    GrownByNothing(references, site => AllServiceReferences(document, services - services.Keys, site, repr));
    while remaining != {}
      invariant remaining <= services.Keys
      invariant Grown(references, next, site => AllServiceReferences(document, services - remaining, site, repr))
      decreases remaining
    {
      var service :| service in remaining;
      OneService(document, services, remaining, service, repr);
      if services[service].Map? {
        ghost var between := next;
        next := AddService(next, document, service, services[service].entries, repr);
        GrownTwice(references, between, next, site => AllServiceReferences(document, services - remaining, site, repr),
                   site => ServiceReferences(document, service, services[service].entries, site, repr),
                   site => AllServiceReferences(document, services - (remaining - {service}), site, repr));
      }
      remaining := remaining - {service};
    }
    assert services - {} == services;
  }

  function BlockReferences(section: string, entries: map<string, Yaml>, site: Site): set<string> {
    if |site| == 2 && site[0] == section && site[1] in entries then NamesIn(entries[site[1]]) else {}
  }

  lemma OneEntry(section: string, entries: map<string, Yaml>, remaining: set<string>, name: string)
    requires name in remaining && remaining <= entries.Keys
    ensures forall site :: BlockReferences(section, entries - (remaining - {name}), site) ==
                             BlockReferences(section, entries - remaining, site)
                               + Once([section, name], NamesIn(entries[name]))(site)
  {}

  method AddSection(references: References, section: string, block: Yaml) returns (next: References)
    requires NoEmptySites(references)
    ensures Grown(references, next, site => SectionReferences(section, block, site))
  {
    next := references;
    if !block.Map? {
      next := Add(references, [section], NamesIn(block));
      AddGrows(references, [section], NamesIn(block));
      return;
    }
    var entries := block.entries;
    var remaining := entries.Keys;
    GrownByNothing(references, site => BlockReferences(section, entries - entries.Keys, site));
    while remaining != {}
      invariant remaining <= entries.Keys
      invariant Grown(references, next, site => BlockReferences(section, entries - remaining, site))
      decreases remaining
    {
      var name :| name in remaining;
      OneEntry(section, entries, remaining, name);
      ghost var between := next;
      AddGrows(next, [section, name], NamesIn(entries[name]));
      next := Add(next, [section, name], NamesIn(entries[name]));
      GrownTwice(references, between, next, site => BlockReferences(section, entries - remaining, site),
                 Once([section, name], NamesIn(entries[name])),
                 site => BlockReferences(section, entries - (remaining - {name}), site));
      remaining := remaining - {name};
    }
    assert entries - {} == entries;
  }

  lemma OneSection(sections: map<string, Yaml>, remaining: set<string>, section: string)
    requires section in remaining && remaining <= sections.Keys
    ensures forall site :: AllSectionReferences(sections - (remaining - {section}), site) ==
                             AllSectionReferences(sections - remaining, site)
                               + SectionReferences(section, sections[section], site)
  {
    var before, after := sections - remaining, sections - (remaining - {section});
    assert after == before[section := sections[section]];
    forall site
      ensures AllSectionReferences(after, site) ==
                AllSectionReferences(before, site) + SectionReferences(section, sections[section], site)
    {
      forall name | name in AllSectionReferences(before, site) + SectionReferences(section, sections[section], site)
        ensures name in AllSectionReferences(after, site)
      {
        if name in SectionReferences(section, sections[section], site) {
          assert section in after && name in SectionReferences(section, after[section], site);
        } else {
          var other :| other in before && name in SectionReferences(other, before[other], site);
          assert other in after && name in SectionReferences(other, after[other], site);
        }
      }
    }
  }

  method AddSections(references: References, sections: map<string, Yaml>) returns (next: References)
    requires NoEmptySites(references)
    ensures Grown(references, next, site => AllSectionReferences(sections, site))
  {
    next := references;
    var remaining := sections.Keys;
    GrownByNothing(references, site => AllSectionReferences(sections - sections.Keys, site));
    while remaining != {}
      invariant remaining <= sections.Keys
      invariant Grown(references, next, site => AllSectionReferences(sections - remaining, site))
      decreases remaining
    {
      var section :| section in remaining;
      OneSection(sections, remaining, section);
      ghost var between := next;
      next := AddSection(next, section, sections[section]);
      GrownTwice(references, between, next, site => AllSectionReferences(sections - remaining, site),
                 site => SectionReferences(section, sections[section], site),
                 site => AllSectionReferences(sections - (remaining - {section}), site));
      remaining := remaining - {section};
    }
    assert sections - {} == sections;
  }

  /** `compose_references`: walks the document once, adding each site's names as it meets them. */
  method Collect(document: map<string, Yaml>, repr: Yaml -> string) returns (references: References)
    ensures NoEmptySites(references)
    ensures forall site :: At(references, site) == ReferencesAt(document, site, repr)
  {
    var services := AddServices(map[], document, ServicesOf(document), repr);
    references := AddSections(services, document - {"services"});
    GrownTwice(map[], services, references, site => AllServiceReferences(document, ServicesOf(document), site, repr),
               site => AllSectionReferences(document - {"services"}, site), site => ReferencesAt(document, site, repr));
  }
}
