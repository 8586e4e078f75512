/**
 * What the order of lists and the deletion of entries mean for the references of a document and for the gate on them.
 */
module ReferenceGate {
  import opened Common
  import opened Yaml
  import opened ComposeReferences
  import V = VariableNames

  /** The same key, and no name more. */
  predicate IsCovered(one: Pair, other: Pair) {
    one.key == other.key && one.Names() <= other.Names()
  }

  /** What an `environment` list entry says. */
  function PairOf(item: Yaml, repr: Yaml -> string): Pair {
    Partition(Show(item, repr))
  }

  /** Every `environment` entry of `one` has an entry of `other` with its key, and refers to nothing else. */
  predicate EntriesAddNoNames(one: Yaml, other: Yaml, repr: Yaml -> string) {
    match (one, other)
    case (Map(entries), Map(others)) =>
      forall key :: key in entries && key in others ==>
                      V.Names(Show(entries[key], repr)) <= V.Names(Show(others[key], repr))
    case (List(items), List(others)) =>
      forall item :: item in items ==>
                       exists entry :: entry in others && IsCovered(PairOf(item, repr), PairOf(entry, repr))
    case _ => true
  }

  predicate ServiceAddsNoNames(one: Yaml, other: Yaml, repr: Yaml -> string) {
    one.Map? && other.Map? && "environment" in one.entries && "environment" in other.entries ==>
      EntriesAddNoNames(one.entries["environment"], other.entries["environment"], repr)
  }

  /**
   * No edit makes the text of an `environment` entry or value say more. Only edits inside containers can: a scalar
   * within another one is the same scalar.
   */
  predicate EnvironmentsAddNoNames(one: map<string, Yaml>, other: map<string, Yaml>, repr: Yaml -> string) {
    forall service :: service in ServicesOf(one) && service in ServicesOf(other) ==>
                        ServiceAddsNoNames(ServicesOf(one)[service], ServicesOf(other)[service], repr)
  }

  predicate EnvironmentsNameTheSame(one: map<string, Yaml>, other: map<string, Yaml>, repr: Yaml -> string) {
    EnvironmentsAddNoNames(one, other, repr) && EnvironmentsAddNoNames(other, one, repr)
  }

  /** Environment values and entries are scalars, as Compose requires. */
  predicate IsFlatEnvironment(value: Yaml) {
    match value
    case Map(entries) => forall key :: key in entries ==> IsFlat(entries[key])
    case List(items) => forall item :: item in items ==> IsFlat(item)
    case _ => true
  }

  predicate HasFlatEnvironments(document: map<string, Yaml>) {
    forall service :: service in ServicesOf(document) ==> ServiceIsFlat(ServicesOf(document)[service])
  }

  predicate ServiceIsFlat(service: Yaml) {
    service.Map? && "environment" in service.entries ==> IsFlatEnvironment(service.entries["environment"])
  }

  /** Where Compose's own requirement is met, no edit does. */
  lemma FlatEnvironmentsAddNoNames(one: map<string, Yaml>, other: map<string, Yaml>, repr: Yaml -> string)
    requires Within(Map(one), Map(other)) && HasFlatEnvironments(other)
    ensures EnvironmentsAddNoNames(one, other, repr)
  {
    forall service | service in ServicesOf(one) && service in ServicesOf(other)
      ensures ServiceAddsNoNames(ServicesOf(one)[service], ServicesOf(other)[service], repr)
    {
      assert Within(one["services"], other["services"]);
      FlatServiceAddsNoNames(ServicesOf(one)[service], ServicesOf(other)[service], repr);
    }
  }

  lemma FlatServiceAddsNoNames(one: Yaml, other: Yaml, repr: Yaml -> string)
    requires Within(one, other) && ServiceIsFlat(other)
    ensures ServiceAddsNoNames(one, other, repr)
  {
    if one.Map? && other.Map? && "environment" in one.entries && "environment" in other.entries {
      FlatEntriesAddNoNames(one.entries["environment"], other.entries["environment"], repr);
    }
  }

  lemma FlatEntriesAddNoNames(one: Yaml, other: Yaml, repr: Yaml -> string)
    requires Within(one, other) && IsFlatEnvironment(other)
    ensures EntriesAddNoNames(one, other, repr)
  {}

  lemma NamesShrink(one: Yaml, other: Yaml)
    requires Within(one, other)
    ensures NamesIn(one) <= NamesIn(other)
  {
    ScalarsShrink(one, other);
  }

  lemma PairsShrink(one: Yaml, other: Yaml, key: string, repr: Yaml -> string)
    requires Within(one, other) && EntriesAddNoNames(one, other, repr)
    ensures PairNames(EnvironmentPairs(one, repr), key) <= PairNames(EnvironmentPairs(other, repr), key)
  {
    forall pair | pair in EnvironmentPairs(one, repr)
      ensures exists counterpart :: counterpart in EnvironmentPairs(other, repr) && IsCovered(pair, counterpart)
    {
      if one.Map? {
        assert Pair(pair.key, if other.entries[pair.key].Null? then None else Some(Show(other.entries[pair.key], repr)))
               in EnvironmentPairs(other, repr);
      } else {
        var item :| item in one.items && PairOf(item, repr) == pair;
        var entry :| entry in other.items && IsCovered(PairOf(item, repr), PairOf(entry, repr));
        assert PairOf(entry, repr) in EnvironmentPairs(other, repr);
      }
    }
  }

  lemma EntryTextKept(one: Yaml, other: Yaml, field: string)
    requires Within(one, other) && EntryText(one, field).Some?
    ensures EntryText(other, field) == EntryText(one, field)
  {}

  lemma EntryTextsShrink(one: Yaml, other: Yaml, field: string)
    requires Within(one, other)
    ensures EntryTexts(one, field) <= EntryTexts(other, field)
  {
    forall entry | entry in Entries(one) && EntryText(entry, field).Some?
      ensures EntryText(entry, field).value in EntryTexts(other, field)
    {
      if one.List? {
        var counterpart :| counterpart in other.items && Within(entry, counterpart);
        EntryTextKept(entry, counterpart, field);
        assert counterpart in Entries(other);
      } else {
        EntryTextKept(one, other, field);
        assert other in Entries(other);
      }
    }
  }

  lemma DeclarationKept(one: map<string, Yaml>, other: map<string, Yaml>, section: string, alias: string)
    requires Within(Map(one), Map(other)) && DeclaredVariable(one, section, alias).Some?
    ensures DeclaredVariable(other, section, alias) == DeclaredVariable(one, section, alias)
  {
    assert Within(one[section], other[section]);
    assert Within(one[section].entries[alias], other[section].entries[alias]);
  }

  lemma MountNamesShrink(one: map<string, Yaml>, other: map<string, Yaml>, field: string, value: Yaml, larger: Yaml)
    requires Within(Map(one), Map(other)) && Within(value, larger)
    ensures MountNames(one, field, value) <= MountNames(other, field, larger)
  {
    EntryTextsShrink(value, larger, "source");
    forall alias | alias in EntryTexts(value, "source") && DeclaredVariable(one, field, alias).Some?
      ensures DeclaredVariable(one, field, alias).value in MountNames(other, field, larger)
    {
      DeclarationKept(one, other, field, alias);
    }
  }

  lemma FieldShrinks(one: map<string, Yaml>, other: map<string, Yaml>, service: string, field: string, value: Yaml,
                     larger: Yaml, site: Site, repr: Yaml -> string)
    requires Within(Map(one), Map(other)) && Within(value, larger)
    requires field == "environment" ==> EntriesAddNoNames(value, larger, repr)
    ensures FieldReferences(one, service, field, value, site, repr)
              <= FieldReferences(other, service, field, larger, site, repr)
  {
    if field == "environment" {
      if |site| == 4 {
        PairsShrink(value, larger, site[3], repr);
      }
    } else {
      MountNamesShrink(one, other, field, value, larger);
      EntryTextsShrink(value, larger, "path");
      NamesShrink(value, larger);
    }
  }

  lemma ServiceShrinks(one: map<string, Yaml>, other: map<string, Yaml>, service: string, value: Yaml, larger: Yaml,
                       site: Site, repr: Yaml -> string)
    requires Within(Map(one), Map(other)) && Within(value, larger) && ServiceAddsNoNames(value, larger, repr)
    ensures OneServiceReferences(one, service, value, site, repr)
              <= OneServiceReferences(other, service, larger, site, repr)
  {
    if value.Map? {
      forall field | field in value.entries
        ensures field in larger.entries
        ensures FieldReferences(one, service, field, value.entries[field], site, repr)
                <= FieldReferences(other, service, field, larger.entries[field], site, repr)
      {
        FieldShrinks(one, other, service, field, value.entries[field], larger.entries[field], site, repr);
      }
    }
  }

  lemma SectionShrinks(section: string, block: Yaml, larger: Yaml, site: Site)
    requires Within(block, larger)
    ensures SectionReferences(section, block, site) <= SectionReferences(section, larger, site)
  {
    if block.Map? {
      if |site| == 2 && site[1] in block.entries {
        NamesShrink(block.entries[site[1]], larger.entries[site[1]]);
      }
    } else {
      NamesShrink(block, larger);
    }
  }

  /**
   * Deleting entries and reordering lists, anywhere in the document, adds no reference at any site, as long as no
   * `environment` entry comes to refer to more.
   */
  lemma ReferencesShrink(one: map<string, Yaml>, other: map<string, Yaml>, site: Site, repr: Yaml -> string)
    requires Within(Map(one), Map(other)) && EnvironmentsAddNoNames(one, other, repr)
    ensures ReferencesAt(one, site, repr) <= ReferencesAt(other, site, repr)
  {
    forall service | service in ServicesOf(one)
      ensures service in ServicesOf(other)
      ensures OneServiceReferences(one, service, ServicesOf(one)[service], site, repr)
              <= OneServiceReferences(other, service, ServicesOf(other)[service], site, repr)
    {
      assert Within(one["services"], other["services"]);
      ServiceShrinks(one, other, service, ServicesOf(one)[service], ServicesOf(other)[service], site, repr);
    }
    forall section | section in one - {"services"}
      ensures section in other - {"services"}
      ensures SectionReferences(section, one[section], site) <= SectionReferences(section, other[section], site)
    {
      assert Within(one[section], other[section]);
      SectionShrinks(section, one[section], other[section], site);
    }
    assert AllServiceReferences(one, ServicesOf(one), site, repr)
      <= AllServiceReferences(other, ServicesOf(other), site, repr);
    SectionsShrink(one - {"services"}, other - {"services"}, site);
  }

  lemma SectionsShrink(one: map<string, Yaml>, other: map<string, Yaml>, site: Site)
    requires forall section :: section in one ==>
               && section in other
               && SectionReferences(section, one[section], site) <= SectionReferences(section, other[section], site)
    ensures AllSectionReferences(one, site) <= AllSectionReferences(other, site)
  {}

  /** The order of lists does not matter to any site. */
  lemma ReferencesIgnoreOrder(one: map<string, Yaml>, other: map<string, Yaml>, site: Site, repr: Yaml -> string)
    requires SameUpToOrder(Map(one), Map(other)) && EnvironmentsNameTheSame(one, other, repr)
    ensures ReferencesAt(one, site, repr) == ReferencesAt(other, site, repr)
  {
    ReferencesShrink(one, other, site, repr);
    ReferencesShrink(other, one, site, repr);
  }

  function OneService(environment: Yaml): map<string, Yaml> {
    map["services" := Map(map["app" := Map(map["environment" := environment])])]
  }

  /** One `environment` block: its pairs, and nothing else, are what the document refers to. */
  lemma OneBlockDocument(environment: Yaml, key: string, repr: Yaml -> string)
    ensures ReferencesAt(OneService(environment), ["services", "app", "environment", key], repr) ==
            PairNames(EnvironmentPairs(environment, repr), key)
  {
    var document, site := OneService(environment), ["services", "app", "environment", key];
    assert site[..3] == ["services", "app", "environment"];
    OnlyField(document, "app", "environment", environment, site, repr);
    OnlyService(document, "app", Map(map["environment" := environment]), site, repr);
    assert ServicesOf(document) == map["app" := Map(map["environment" := environment])];
    assert document - {"services"} == map[];
  }

  lemma OnlyField(document: map<string, Yaml>, service: string, field: string, value: Yaml, site: Site,
                  repr: Yaml -> string)
    ensures ServiceReferences(document, service, map[field := value], site, repr) ==
            FieldReferences(document, service, field, value, site, repr)
  {
    var fields := map[field := value];
    forall name | name in FieldReferences(document, service, field, value, site, repr)
      ensures name in ServiceReferences(document, service, fields, site, repr)
    {
      assert field in fields && name in FieldReferences(document, service, field, fields[field], site, repr);
    }
  }

  lemma OnlyService(document: map<string, Yaml>, service: string, value: Yaml, site: Site, repr: Yaml -> string)
    ensures AllServiceReferences(document, map[service := value], site, repr) ==
            OneServiceReferences(document, service, value, site, repr)
  {
    var services := map[service := value];
    forall name | name in OneServiceReferences(document, service, value, site, repr)
      ensures name in AllServiceReferences(document, services, site, repr)
    {
      assert service in services && name in OneServiceReferences(document, service, services[service], site, repr);
    }
  }

  lemma PairNamesOfOne(pair: Pair, key: string)
    ensures PairNames({pair}, key) == if key == pair.key then pair.Names() else {}
  {}

  /** As the only `environment` block, the two refer to the same variables under this key. */
  predicate SitesAgree(one: Yaml, other: Yaml, key: string, repr: Yaml -> string) {
    var site := ["services", "app", "environment", key];
    ReferencesAt(OneService(one), site, repr) == ReferencesAt(OneService(other), site, repr)
  }

  ghost predicate AgreeOnAllKeys(one: Yaml, other: Yaml, repr: Yaml -> string) {
    forall key: string :: SitesAgree(one, other, key, repr)
  }

  /** Two blocks of one pair each agree exactly if the pairs name the same variables, under the same key if any. */
  lemma OnePairAgreesExactly(one: Yaml, other: Yaml, first: Pair, second: Pair, repr: Yaml -> string)
    requires EnvironmentPairs(one, repr) == {first} && EnvironmentPairs(other, repr) == {second}
    ensures AgreeOnAllKeys(one, other, repr) <==>
            first.Names() == second.Names() && (first.key == second.key || first.Names() == {})
  {
    forall key: string
      ensures SitesAgree(one, other, key, repr) <==>
              (if key == first.key then first.Names() else {}) == (if key == second.key then second.Names() else {})
    {
      OneBlockDocument(one, key, repr);
      OneBlockDocument(other, key, repr);
      PairNamesOfOne(first, key);
      PairNamesOfOne(second, key);
    }
    assert AgreeOnAllKeys(one, other, repr) ==>
             SitesAgree(one, other, first.key, repr) && SitesAgree(one, other, second.key, repr);
  }

  /**
   * The condition cannot be dropped: list entries are read by their texts, containers included, and agree exactly if
   * what is read does.
   */
  lemma EntriesAgreeExactly(one: Yaml, other: Yaml, repr: Yaml -> string)
    ensures var first, second := PairOf(one, repr), PairOf(other, repr);
            AgreeOnAllKeys(List([one]), List([other]), repr) <==>
            first.Names() == second.Names() && (first.key == second.key || first.Names() == {})
  {
    OneItem(one, repr);
    OneItem(other, repr);
    OnePairAgreesExactly(List([one]), List([other]), PairOf(one, repr), PairOf(other, repr), repr);
  }

  lemma OneItem(item: Yaml, repr: Yaml -> string)
    ensures EnvironmentPairs(List([item]), repr) == {PairOf(item, repr)}
  {
    assert item in [item];
  }

  /** So two containers without `=` agree exactly if their texts are the same, however alike they are otherwise. */
  lemma ContainersAgreeExactly(one: Yaml, other: Yaml, repr: Yaml -> string)
    requires !IsFlat(one) && !IsFlat(other) && '=' !in repr(one) && '=' !in repr(other)
    ensures AgreeOnAllKeys(List([one]), List([other]), repr) <==> repr(one) == repr(other)
  {
    WithoutSeparator(repr(one));
    WithoutSeparator(repr(other));
    EntriesAgreeExactly(one, other, repr);
    assert repr(one) in PairOf(one, repr).Names();
  }

  /** As the values of a key they agree exactly if they name the same variables, the key's own aside. */
  lemma ValuesAgreeExactly(key: string, one: Yaml, other: Yaml, repr: Yaml -> string)
    requires !IsFlat(one) && !IsFlat(other)
    ensures AgreeOnAllKeys(Map(map[key := one]), Map(map[key := other]), repr) <==>
            V.Names(key) + V.Names(repr(one)) == V.Names(key) + V.Names(repr(other))
  {
    OneValue(key, one, repr);
    OneValue(key, other, repr);
    OnePairAgreesExactly(Map(map[key := one]), Map(map[key := other]), Pair(key, Some(repr(one))),
                         Pair(key, Some(repr(other))), repr);
  }

  lemma OneValue(key: string, value: Yaml, repr: Yaml -> string)
    requires !IsFlat(value)
    ensures EnvironmentPairs(Map(map[key := value]), repr) == {Pair(key, Some(repr(value)))}
  {
    assert key in map[key := value];
  }

  lemma {:induction false} WithoutSeparator(text: string)
    requires '=' !in text
    ensures Partition(text) == Pair(text, None)
  {
    if text != "" {
      WithoutSeparator(text[1..]);
      assert text == [text[0]] + text[1..];
    }
  }

  /** What the gate knows besides the documents; digits, case folding and percent-decoding are Python's. */
  datatype Environment = Environment(
    values: map<string, string>,
    sensitive: string -> bool,
    isDigits: string -> bool,
    lower: string -> string,
    unquote: string -> string
  )

  const MINIMUM_SECRET_LENGTH := 4

  /** `part in text` */
  predicate Contains(text: string, part: string) {
    exists i :: 0 <= i <= |text| - |part| && StandsAt(text, part, i)
  }

  predicate StandsAt(text: string, part: string, i: nat) {
    i + |part| <= |text| && text[i..i + |part|] == part
  }

  lemma ContainsIsTransitive(text: string, middle: string, part: string)
    requires Contains(text, middle) && Contains(middle, part)
    ensures Contains(text, part)
  {
    var i :| 0 <= i <= |text| - |middle| && StandsAt(text, middle, i);
    var j :| 0 <= j <= |middle| - |part| && StandsAt(middle, part, j);
    forall k | 0 <= k < |part|
      ensures text[i + j..i + j + |part|][k] == part[k]
    {
      assert part[k] == middle[j..j + |part|][k] == middle[j + k] == text[i..i + |middle|][j + k];
    }
    assert StandsAt(text, part, i + j);
  }

  function SecretValues(environment: Environment, referenceText: string): set<string> {
    set key | key in environment.values
              && |environment.values[key]| >= MINIMUM_SECRET_LENGTH
              && environment.sensitive(key)
              && environment.lower(environment.values[key]) !in {"true", "false"}
              && !environment.isDigits(environment.values[key])
              && !Contains(referenceText, environment.values[key])
      :: environment.values[key]
  }

  predicate IsProtected(name: string, environment: Environment, secrets: set<string>) {
    || ENV_FILE_PREFIX <= name
    || environment.sensitive(name)
    || (var value := Get(environment.values, name).GetOr("");
        exists secret :: secret in secrets && (Contains(value, secret) || Contains(environment.unquote(value), secret)))
  }

  predicate CarriesSecret(scalar: string, secrets: set<string>) {
    exists secret :: secret in secrets && Contains(scalar, secret)
  }

  /** What a site may refer to beyond the reference document: nothing protected. */
  predicate AddsNothingProtected(names: set<string>, allowed: set<string>, environment: Environment,
                                 secrets: set<string>)
  {
    forall name :: name in names - allowed ==> !IsProtected(name, environment, secrets)
  }

  /** One field of one service, found in the document. */
  predicate HasField(document: map<string, Yaml>, service: string, field: string, value: Yaml) {
    && service in ServicesOf(document) && ServicesOf(document)[service].Map?
    && Get(ServicesOf(document)[service].entries, field) == Some(value)
  }

  lemma FieldIsCollected(document: map<string, Yaml>, service: string, field: string, value: Yaml, site: Site,
                         repr: Yaml -> string, name: string)
    requires HasField(document, service, field, value)
    requires name in FieldReferences(document, service, field, value, site, repr)
    ensures name in ReferencesAt(document, site, repr)
  {
    var services := ServicesOf(document);
    var fields := services[service].entries;
    assert field in fields && name in FieldReferences(document, service, field, fields[field], site, repr);
    assert name in OneServiceReferences(document, service, services[service], site, repr);
  }

  /** Every `env_file` entry is a reference, and a protected one whatever it is called. */
  lemma EnvFilesAreProtected(document: map<string, Yaml>, service: string, value: Yaml, entry: Yaml, path: string,
                             repr: Yaml -> string, environment: Environment, secrets: set<string>)
    requires HasField(document, service, "env_file", value)
    requires entry in Entries(value) && EntryText(entry, "path") == Some(path)
    ensures ENV_FILE_PREFIX + path in ReferencesAt(document, ["services", service, "env_file"], repr)
    ensures IsProtected(ENV_FILE_PREFIX + path, environment, secrets)
  {
    var name, site := ENV_FILE_PREFIX + path, ["services", service, "env_file"];
    assert path in EntryTexts(value, "path");
    assert name in FieldNames(document, "env_file", value);
    FieldIsCollected(document, service, "env_file", value, site, repr, name);
    assert name[..|ENV_FILE_PREFIX|] == ENV_FILE_PREFIX;
  }

  /** An `environment` key without a value refers to the variable of that name. */
  lemma KeysWithoutValueAreReferences(document: map<string, Yaml>, service: string, value: Yaml, key: string,
                                      repr: Yaml -> string)
    requires HasField(document, service, "environment", value)
    requires Pair(key, None) in EnvironmentPairs(value, repr)
    ensures key in ReferencesAt(document, ["services", service, "environment", key], repr)
  {
    var site := ["services", service, "environment", key];
    assert key in Pair(key, None).Names();
    assert key in PairNames(EnvironmentPairs(value, repr), key);
    assert site[..3] == ["services", service, "environment"];
    FieldIsCollected(document, service, "environment", value, site, repr, key);
  }

  /** A mounted secret or config refers to the variable its top-level declaration is read from. */
  lemma MountsReferToTheirDeclaration(document: map<string, Yaml>, service: string, section: string, value: Yaml,
                                      entry: Yaml, alias: string, repr: Yaml -> string)
    requires HasField(document, service, section, value) && section in MOUNTED
    requires entry in Entries(value) && EntryText(entry, "source") == Some(alias)
    requires DeclaredVariable(document, section, alias).Some?
    ensures DeclaredVariable(document, section, alias).value in
            ReferencesAt(document, ["services", service, section], repr)
  {
    var name := DeclaredVariable(document, section, alias).value;
    assert alias in EntryTexts(value, "source");
    assert name in MountNames(document, section, value);
    FieldIsCollected(document, service, section, value, ["services", service, section], repr, name);
  }

  /** The gate: no site gains a protected reference, and no secret stands literally in the document. */
  ghost predicate IsDerived(candidate: map<string, Yaml>, reference: map<string, Yaml>, environment: Environment,
                            secrets: set<string>, repr: Yaml -> string)
  {
    && (forall site :: AddsNothingProtected(ReferencesAt(candidate, site, repr), ReferencesAt(reference, site, repr),
                                            environment, secrets))
    && (forall scalar :: scalar in Scalars(Map(candidate)) ==> !CarriesSecret(scalar, secrets))
  }

  /** `assert_protected_references_are_derived`, with the refusal as a result. */
  method AssertDerived(candidate: map<string, Yaml>, reference: map<string, Yaml>, environment: Environment,
                       referenceText: string, repr: Yaml -> string) returns (accepted: bool)
    ensures accepted <==> IsDerived(candidate, reference, environment, SecretValues(environment, referenceText), repr)
  {
    var secrets := SecretValues(environment, referenceText);
    var allowed := Collect(reference, repr);
    var references := Collect(candidate, repr);
    var sites := references.Keys;
    while sites != {}
      invariant sites <= references.Keys
      invariant forall site :: site !in sites ==>
                  AddsNothingProtected(At(references, site), At(allowed, site), environment, secrets)
      decreases sites
    {
      var site :| site in sites;
      if !AddsNothingProtected(references[site], At(allowed, site), environment, secrets) {
        assert !AddsNothingProtected(ReferencesAt(candidate, site, repr), ReferencesAt(reference, site, repr),
                                     environment, secrets);
        return false;
      }
      sites := sites - {site};
    }
    forall site
      ensures AddsNothingProtected(ReferencesAt(candidate, site, repr), ReferencesAt(reference, site, repr),
                                   environment, secrets)
    {
      assert AddsNothingProtected(At(references, site), At(allowed, site), environment, secrets);
    }
    var scalars := Scalars(Map(candidate));
    accepted := forall scalar :: scalar in scalars ==> !CarriesSecret(scalar, secrets);
  }

  /** Acceptance survives the deletion of entries and the reordering of lists in the candidate. */
  lemma AcceptanceSurvivesDeletion(candidate: map<string, Yaml>, edited: map<string, Yaml>,
                                   reference: map<string, Yaml>,
                                   environment: Environment, secrets: set<string>, repr: Yaml -> string)
    requires Within(Map(edited), Map(candidate)) && EnvironmentsAddNoNames(edited, candidate, repr)
    requires IsDerived(candidate, reference, environment, secrets, repr)
    ensures IsDerived(edited, reference, environment, secrets, repr)
  {
    forall site
      ensures AddsNothingProtected(ReferencesAt(edited, site, repr), ReferencesAt(reference, site, repr), environment,
                                   secrets)
    {
      ReferencesShrink(edited, candidate, site, repr);
      assert AddsNothingProtected(ReferencesAt(candidate, site, repr), ReferencesAt(reference, site, repr),
                                  environment, secrets);
    }
    ScalarsShrink(Map(edited), Map(candidate));
  }

  /** The verdict does not depend on the order of any list, in the candidate or in the reference document. */
  lemma VerdictIgnoresOrder(candidate: map<string, Yaml>, reordered: map<string, Yaml>, reference: map<string, Yaml>,
                            reorderedReference: map<string, Yaml>, environment: Environment, secrets: set<string>,
                              repr: Yaml -> string)
    requires SameUpToOrder(Map(candidate), Map(reordered)) && EnvironmentsNameTheSame(candidate, reordered, repr)
    requires SameUpToOrder(Map(reference), Map(reorderedReference))
    requires EnvironmentsNameTheSame(reference, reorderedReference, repr)
    ensures IsDerived(candidate, reference, environment, secrets, repr) <==>
            IsDerived(reordered, reorderedReference, environment, secrets, repr)
  {
    forall site
      ensures ReferencesAt(reordered, site, repr) == ReferencesAt(candidate, site, repr)
      ensures ReferencesAt(reorderedReference, site, repr) == ReferencesAt(reference, site, repr)
    {
      ReferencesIgnoreOrder(reordered, candidate, site, repr);
      ReferencesIgnoreOrder(reorderedReference, reference, site, repr);
    }
    ScalarsShrink(Map(reordered), Map(candidate));
    ScalarsShrink(Map(candidate), Map(reordered));
    assert Scalars(Map(reordered)) == Scalars(Map(candidate));
    if IsDerived(candidate, reference, environment, secrets, repr) {
      VerdictByReferences(candidate, reordered, reference, reorderedReference, environment, secrets, repr);
    }
    if IsDerived(reordered, reorderedReference, environment, secrets, repr) {
      VerdictByReferences(reordered, candidate, reorderedReference, reference, environment, secrets, repr);
    }
  }

  lemma VerdictByReferences(candidate: map<string, Yaml>, other: map<string, Yaml>, reference: map<string, Yaml>,
                            otherReference: map<string, Yaml>, environment: Environment, secrets: set<string>,
                              repr: Yaml -> string)
    requires IsDerived(candidate, reference, environment, secrets, repr)
    requires forall site :: ReferencesAt(other, site, repr) == ReferencesAt(candidate, site, repr)
    requires forall site :: ReferencesAt(otherReference, site, repr) == ReferencesAt(reference, site, repr)
    requires Scalars(Map(other)) == Scalars(Map(candidate))
    ensures IsDerived(other, otherReference, environment, secrets, repr)
  {}

  /** The reference document is accepted against itself exactly if no scalar of it carries a secret. */
  lemma ReferenceAgainstItself(reference: map<string, Yaml>, environment: Environment, secrets: set<string>,
                               repr: Yaml -> string)
    ensures IsDerived(reference, reference, environment, secrets, repr) <==>
            forall scalar :: scalar in Scalars(Map(reference)) ==> !CarriesSecret(scalar, secrets)
  {}

  /** In particular it is accepted when its scalars stand in its text, for what stands there is no secret. */
  lemma ReferenceIsAccepted(reference: map<string, Yaml>, environment: Environment, referenceText: string,
                            repr: Yaml -> string)
    requires forall scalar :: scalar in Scalars(Map(reference)) ==> Contains(referenceText, scalar)
    ensures IsDerived(reference, reference, environment, SecretValues(environment, referenceText), repr)
  {
    var secrets := SecretValues(environment, referenceText);
    forall scalar | scalar in Scalars(Map(reference))
      ensures !CarriesSecret(scalar, secrets)
    {
      if CarriesSecret(scalar, secrets) {
        var secret :| secret in secrets && Contains(scalar, secret);
        ContainsIsTransitive(referenceText, scalar, secret);
      }
    }
    ReferenceAgainstItself(reference, environment, secrets, repr);
  }
}
