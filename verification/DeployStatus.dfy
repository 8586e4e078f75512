/**
 * The deploy status: its invariants, how a deploy begins and commits, and its strict JSON codec. A refusal stands
 * for the source's `DeploymentContractError`.
 */
module DeployStatus {
  import opened Common

  datatype Refusal = Refusal

  datatype Json =
    | Null
    | Bool(flag: bool)
    | Num(number: int)
    | Fraction(text: string)
    | Str(str: string)
    | Arr(items: seq<Json>)
    | Obj(fields: map<string, Json>)

  const ROLES: set<string> := {"map_application", "pinvi"}
  const RETIRED_ROLE := "map_dagster"
  const RESET_DONE_STEP := "reset"
  const IN_PROGRESS := "in_progress"
  const COMMITTED := "committed"
  const MAX_TEXT := 200

  predicate IsLower(c: char) { 'a' <= c <= 'z' }

  /** `[a-z][a-z0-9<extra>]{0,62}` */
  predicate IsName(s: string, extra: char) {
    0 < |s| <= 63 && IsLower(s[0]) && forall i :: 0 < i < |s| ==> IsLower(s[i]) || IsDigit(s[i]) || s[i] == extra
  }

  predicate IsSchemaHead(s: string) {
    && 0 < |s| <= 128
    && (IsLower(s[0]) || IsDigit(s[0]))
    && forall i :: 0 < i < |s| ==> IsLower(s[i]) || IsDigit(s[i]) || s[i] in "_.-"
  }

  predicate IsSystemIdentifier(s: string) {
    0 < |s| <= 20 && forall i :: 0 <= i < |s| ==> IsDigit(s[i])
  }

  /** The canonical text of a UUID: 8-4-4-4-12 lower-case hexadecimal digits. */
  predicate IsCanonicalUuid(s: string) {
    |s| == 36 && forall i :: 0 <= i < |s| ==> if i in {8, 13, 18, 23} then s[i] == '-' else IsHexDigit(s[i])
  }

  predicate IsText(s: string) {
    0 < |s| <= MAX_TEXT && '\n' !in s && '\r' !in s
  }

  predicate IsOptionalText(s: Option<string>) {
    s.Some? ==> IsText(s.value)
  }

  /** What `str.strip` removes. */
  predicate IsSpace(c: char) {
    || '\t' <= c <= '\r' || '\U{1C}' <= c <= ' ' || c == '\U{85}' || c == '\U{A0}' || c == '\U{1680}'
    || '\U{2000}' <= c <= '\U{200A}' || c == '\U{2028}' || c == '\U{2029}' || c == '\U{202F}'
    || c == '\U{205F}' || c == '\U{3000}'
  }

  function Zeros(n: nat): (s: string)
    ensures IsHex(s, n)
  {
    seq(n, i => '0')
  }

  datatype DatabaseFields = Database(name: string, oid: int, systemIdentifier: string) {
    predicate Valid() {
      IsName(name, '_') && oid > 0 && IsSystemIdentifier(systemIdentifier)
    }
  }

  type Database = fields: DatabaseFields | fields.Valid() witness Database("a", 1, "0")

  datatype DecisionFields = Decision(reason: string, at: string) {
    predicate Valid() {
      IsText(reason) && (exists i :: 0 <= i < |reason| && !IsSpace(reason[i])) && IsText(at)
    }
  }

  lemma AWordIsNotBlank()
    ensures Decision("a", "a").Valid()
  {
    assert !IsSpace("a"[0]);
  }

  /** An explicit decision, `--restart` or `--adopt-live-databases`. */
  type Decision = fields: DecisionFields | fields.Valid() witness (AWordIsNotBlank(); Decision("a", "a"))

  type Databases = databases: map<string, Database> | databases.Keys == ROLES
    witness map["map_application" := Database("a", 1, "0"), "pinvi" := Database("a", 1, "0")]

  predicate AreImages(images: map<string, string>) {
    forall service :: service in images ==> IsName(service, '-') && IsImageId(images[service])
  }

  predicate AreSchemaHeads(heads: map<string, string>) {
    heads == map[] || (heads.Keys == ROLES && forall role :: role in heads ==> IsSchemaHead(heads[role]))
  }

  /** What identifies a deploy. */
  datatype Identity = Identity(runId: string, startedAt: string, manager: string, mapRevision: string, pinvi: string,
                               pinset: string) {
    predicate Valid() {
      && IsCanonicalUuid(runId) && IsText(startedAt)
      && IsHex(manager, 40) && IsHex(mapRevision, 40) && IsHex(pinvi, 40) && IsHex(pinset, 64)
    }
  }

  datatype StatusFields = Status(
    state: string,
    identity: Identity,
    databases: Option<Databases>,
    step: Option<string>,
    committedAt: Option<string>,
    images: map<string, string>,
    schemaHeads: map<string, string>,
    restart: Option<Decision>,
    adopted: Option<Decision>,
    carriedOverFrom: Option<string>
  ) {
    predicate Valid() {
      && (state == IN_PROGRESS || state == COMMITTED)
      && identity.Valid()
      && IsOptionalText(committedAt) && IsOptionalText(step) && IsOptionalText(carriedOverFrom)
      && AreImages(images) && AreSchemaHeads(schemaHeads)
      && !(restart.Some? && adopted.Some?)
      && (state == COMMITTED ==> committedAt.Some? && images != map[] && schemaHeads != map[] && databases.Some?)
      && (state == IN_PROGRESS ==> committedAt.None?)
    }
  }

  const NIL_UUID := seq(36, i => if i in {8, 13, 18, 23} then '-' else '0')

  /** The deploy status: a record whose construction refuses anything that breaks its invariants. */
  type Status = fields: StatusFields | fields.Valid()
    witness Status(IN_PROGRESS, Identity(NIL_UUID, "a", Zeros(40), Zeros(40), Zeros(40), Zeros(64)), None, None, None,
                   map[], map[], None, None, None)

  function Constructed(fields: StatusFields): (result: Result<Status, Refusal>)
    ensures result.Ok? <==> fields.Valid()
    ensures result.Ok? ==> result.value == fields
  {
    if fields.Valid() then Ok(fields) else Err(Refusal)
  }

  function BeginDeploy(previous: Option<Status>, identity: Identity, restart: Option<Decision>,
                       adopted: Option<Decision>, adoptedDatabases: Option<Databases>): Result<Status, Refusal>
  {
    var databases :=
      if adopted.Some? then adoptedDatabases else if previous.Some? then previous.value.databases else None;
    var continues := restart.None? && adopted.None? && previous.Some? && previous.value.state == IN_PROGRESS;
    var afterReset := continues && previous.value.step == Some(RESET_DONE_STEP);
    Constructed(Status(
      IN_PROGRESS, identity, databases,
      if afterReset then Some(RESET_DONE_STEP) else None,
      None, map[], map[],
      if afterReset then previous.value.restart else restart,
      if continues then previous.value.adopted else adopted,
      None))
  }

  /** `replace(status, databases=None, step=RESET_DONE_STEP)`, once the databases have been reset. */
  function MarkReset(status: Status): Result<Status, Refusal> {
    Constructed(status.(databases := None, step := Some(RESET_DONE_STEP)))
  }

  function CommitDeploy(status: Status, committedAt: string, images: map<string, string>,
                        schemaHeads: map<string, string>, databases: Databases): Result<Status, Refusal>
  {
    if status.state != IN_PROGRESS then
      Err(Refusal)
    else
      Constructed(Status(COMMITTED, status.identity, Some(databases), None, Some(committedAt), images, schemaHeads,
                         status.restart, status.adopted, None))
  }

  /** A plain begin is never refused, whatever state the last run left behind. */
  lemma PlainBeginIsNeverRefused(previous: Option<Status>, identity: Identity)
    requires identity.Valid()
    ensures BeginDeploy(previous, identity, None, None, None).Ok?
  {}

  // The codec.

  function TextJson(text: Option<string>): Json {
    if text.Some? then Str(text.value) else Null
  }

  function DatabaseJson(database: Database): Json {
    Obj(map["name" := Str(database.name), "oid" := Num(database.oid),
            "system_identifier" := Str(database.systemIdentifier)])
  }

  function DatabasesJson(databases: Option<Databases>): Json {
    if databases.None? then Null else Obj(map role | role in ROLES :: DatabaseJson(databases.value[role]))
  }

  function DecisionJson(decision: Option<Decision>): Json {
    if decision.None? then Null else Obj(map["reason" := Str(decision.value.reason), "at" := Str(decision.value.at)])
  }

  function StringsJson(strings: map<string, string>): Json {
    Obj(map key | key in strings :: Str(strings[key]))
  }

  const IDENTITY_FIELDS: set<string> := {"run_id", "started_at", "manager_revision", "map_revision", "pinvi_revision",
                                         "pinset_sha256"}
  const RUN_FIELDS: set<string> := {"version", "state", "committed_at", "step", "carried_over_from"}
  const RECORD_FIELDS: set<string> := {"images", "schema_heads", "databases", "restart", "adopted"}
  const FIELDS: set<string> := IDENTITY_FIELDS + RUN_FIELDS + RECORD_FIELDS

  function IdentityJson(identity: Identity): map<string, Json> {
    map[
      "run_id" := Str(identity.runId),
      "started_at" := Str(identity.startedAt),
      "manager_revision" := Str(identity.manager),
      "map_revision" := Str(identity.mapRevision),
      "pinvi_revision" := Str(identity.pinvi),
      "pinset_sha256" := Str(identity.pinset)
    ]
  }

  datatype Progress = Progress(state: string, committedAt: Option<string>, step: Option<string>,
                               carriedOverFrom: Option<string>)

  function ProgressJson(run: Progress): map<string, Json> {
    map[
      "version" := Num(1),
      "state" := Str(run.state),
      "committed_at" := TextJson(run.committedAt),
      "step" := TextJson(run.step),
      "carried_over_from" := TextJson(run.carriedOverFrom)
    ]
  }

  datatype Records = Records(databases: Option<Databases>, restart: Option<Decision>, adopted: Option<Decision>,
                             images: map<string, string>, schemaHeads: map<string, string>)

  function RecordsJson(records: Records): map<string, Json> {
    map[
      "images" := StringsJson(records.images),
      "schema_heads" := StringsJson(records.schemaHeads),
      "databases" := DatabasesJson(records.databases),
      "restart" := DecisionJson(records.restart),
      "adopted" := DecisionJson(records.adopted)
    ]
  }

  function ProgressOf(status: Status): Progress {
    Progress(status.state, status.committedAt, status.step, status.carriedOverFrom)
  }

  function RecordsOf(status: Status): Records {
    Records(status.databases, status.restart, status.adopted, status.images, status.schemaHeads)
  }

  function Encode(status: Status): Json {
    Obj(IdentityJson(status.identity) + ProgressJson(ProgressOf(status)) + RecordsJson(RecordsOf(status)))
  }

  function Exact(value: Json, keys: set<string>): Result<map<string, Json>, Refusal> {
    if value.Obj? && value.fields.Keys == keys then Ok(value.fields) else Err(Refusal)
  }

  /** Drops the retired role if it is the one key too many. */
  function WithoutRetired(value: Json): Json {
    if value.Obj? && value.fields.Keys == ROLES + {RETIRED_ROLE} then Obj(value.fields - {RETIRED_ROLE}) else value
  }

  function DecodeText(value: Json): Result<string, Refusal> {
    if value.Str? then Ok(value.str) else Err(Refusal)
  }

  function DecodeOptionalText(value: Json): Result<Option<string>, Refusal> {
    if value.Null? then Ok(None) else if value.Str? then Ok(Some(value.str)) else Err(Refusal)
  }

  function DecodeDatabase(value: Json): Result<Database, Refusal> {
    var entry :- Exact(value, {"name", "oid", "system_identifier"});
    var name :- DecodeText(entry["name"]);
    var systemIdentifier :- DecodeText(entry["system_identifier"]);
    if entry["oid"].Num? && Database(name, entry["oid"].number, systemIdentifier).Valid() then
      Ok(Database(name, entry["oid"].number, systemIdentifier))
    else
      Err(Refusal)
  }

  function DecodeDatabases(value: Json): Result<Option<Databases>, Refusal> {
    if value.Null? then
      Ok(None)
    else
      var entries :- Exact(WithoutRetired(value), ROLES);
      var application :- DecodeDatabase(entries["map_application"]);
      var pinvi :- DecodeDatabase(entries["pinvi"]);
      Ok(Some(map["map_application" := application, "pinvi" := pinvi]))
  }

  function DecodeDecision(value: Json): Result<Option<Decision>, Refusal> {
    if value.Null? then
      Ok(None)
    else
      var record :- Exact(value, {"reason", "at"});
      var reason :- DecodeText(record["reason"]);
      var at :- DecodeText(record["at"]);
      if Decision(reason, at).Valid() then Ok(Some(Decision(reason, at))) else Err(Refusal)
  }

  function DecodeStrings(value: Json): Result<map<string, string>, Refusal> {
    if value.Obj? && forall key :: key in value.fields ==> value.fields[key].Str? then
      Ok(map key | key in value.fields :: value.fields[key].str)
    else
      Err(Refusal)
  }

  function DecodeSchemaHeads(value: Json): Result<map<string, string>, Refusal> {
    var strings :- DecodeStrings(value);
    if strings == map[] || strings.Keys == ROLES then
      Ok(strings)
    else if strings.Keys == ROLES + {RETIRED_ROLE} then
      Ok(strings - {RETIRED_ROLE})
    else
      Err(Refusal)
  }

  function DecodeIdentity(fields: map<string, Json>): Result<Identity, Refusal>
    requires IDENTITY_FIELDS <= fields.Keys
  {
    var runId :- DecodeText(fields["run_id"]);
    var startedAt :- DecodeText(fields["started_at"]);
    var manager :- DecodeText(fields["manager_revision"]);
    var mapRevision :- DecodeText(fields["map_revision"]);
    var pinvi :- DecodeText(fields["pinvi_revision"]);
    var pinset :- DecodeText(fields["pinset_sha256"]);
    Ok(Identity(runId, startedAt, manager, mapRevision, pinvi, pinset))
  }

  /** All records, or the refusal of one of them. */
  function Combined(databases: Result<Option<Databases>, Refusal>, restart: Result<Option<Decision>, Refusal>,
                    adopted: Result<Option<Decision>, Refusal>, images: Result<map<string, string>, Refusal>,
                    schemaHeads: Result<map<string, string>, Refusal>): Result<Records, Refusal>
  {
    var databases :- databases;
    var restart :- restart;
    var adopted :- adopted;
    var images :- images;
    var schemaHeads :- schemaHeads;
    Ok(Records(databases, restart, adopted, images, schemaHeads))
  }

  function DecodeRecords(fields: map<string, Json>): Result<Records, Refusal>
    requires RECORD_FIELDS <= fields.Keys
  {
    Combined(DecodeDatabases(fields["databases"]), DecodeDecision(fields["restart"]), DecodeDecision(fields["adopted"]),
             DecodeStrings(fields["images"]), DecodeSchemaHeads(fields["schema_heads"]))
  }

  function DecodeProgress(fields: map<string, Json>): Result<Progress, Refusal>
    requires RUN_FIELDS <= fields.Keys
  {
    if fields["version"] != Num(1) then
      Err(Refusal)
    else
      var state :- DecodeText(fields["state"]);
      var committedAt :- DecodeOptionalText(fields["committed_at"]);
      var step :- DecodeOptionalText(fields["step"]);
      var carriedOverFrom :- DecodeOptionalText(fields["carried_over_from"]);
      Ok(Progress(state, committedAt, step, carriedOverFrom))
  }

  function Assemble(identity: Identity, run: Progress, records: Records): StatusFields {
    Status(run.state, identity, records.databases, run.step, run.committedAt, records.images, records.schemaHeads,
           records.restart, records.adopted, run.carriedOverFrom)
  }

  function Decode(payload: Json): Result<Status, Refusal> {
    var fields :- Exact(payload, FIELDS);
    var run :- DecodeProgress(fields);
    var records :- DecodeRecords(fields);
    var identity :- DecodeIdentity(fields);
    Constructed(Assemble(identity, run, records))
  }

  lemma DatabaseRoundTrip(database: Database)
    ensures DecodeDatabase(DatabaseJson(database)) == Ok(database)
  {}

  lemma DatabasesRoundTrip(databases: Option<Databases>)
    ensures DecodeDatabases(DatabasesJson(databases)) == Ok(databases)
  {
    if databases.Some? {
      assert DatabasesJson(databases).fields.Keys == ROLES;
      DatabaseRoundTrip(databases.value["map_application"]);
      DatabaseRoundTrip(databases.value["pinvi"]);
      assert map["map_application" := databases.value["map_application"], "pinvi" := databases.value["pinvi"]] ==
        databases.value;
    }
  }

  lemma StringsRoundTrip(strings: map<string, string>)
    ensures DecodeStrings(StringsJson(strings)) == Ok(strings)
  {
    assert DecodeStrings(StringsJson(strings)).value == strings;
  }

  lemma DecisionRoundTrip(decision: Option<Decision>)
    ensures DecodeDecision(DecisionJson(decision)) == Ok(decision)
  {}

  /** These fields hold the records. */
  predicate HoldRecords(fields: map<string, Json>, records: Records)
    requires RECORD_FIELDS <= fields.Keys
  {
    && fields["images"] == StringsJson(records.images)
    && fields["schema_heads"] == StringsJson(records.schemaHeads)
    && fields["databases"] == DatabasesJson(records.databases)
    && fields["restart"] == DecisionJson(records.restart)
    && fields["adopted"] == DecisionJson(records.adopted)
  }

  lemma RecordsRoundTrip(records: Records, fields: map<string, Json>)
    requires RECORD_FIELDS <= fields.Keys && AreSchemaHeads(records.schemaHeads) && HoldRecords(fields, records)
    ensures DecodeRecords(fields) == Ok(records)
  {
    DatabasesRoundTrip(records.databases);
    DecisionRoundTrip(records.restart);
    DecisionRoundTrip(records.adopted);
    StringsRoundTrip(records.images);
    SchemaHeadsRoundTrip(records.schemaHeads);
  }

  lemma SchemaHeadsRoundTrip(heads: map<string, string>)
    requires AreSchemaHeads(heads)
    ensures DecodeSchemaHeads(StringsJson(heads)) == Ok(heads)
  {
    StringsRoundTrip(heads);
  }

  lemma ProgressRoundTrip(run: Progress, fields: map<string, Json>)
    requires RUN_FIELDS <= fields.Keys
    requires forall field :: field in RUN_FIELDS ==> fields[field] == ProgressJson(run)[field]
    ensures DecodeProgress(fields) == Ok(run)
  {}

  lemma IdentityRoundTrip(identity: Identity, fields: map<string, Json>)
    requires IDENTITY_FIELDS <= fields.Keys
    requires forall field :: field in IDENTITY_FIELDS ==> fields[field] == IdentityJson(identity)[field]
    ensures DecodeIdentity(fields) == Ok(identity)
  {}

  lemma MergedFields(one: map<string, Json>, two: map<string, Json>, three: map<string, Json>)
    requires one.Keys !! two.Keys !! three.Keys
    ensures (one + two + three).Keys == one.Keys + two.Keys + three.Keys
    ensures forall key :: key in one ==> (one + two + three)[key] == one[key]
    ensures forall key :: key in two ==> (one + two + three)[key] == two[key]
    ensures forall key :: key in three ==> (one + two + three)[key] == three[key]
  {}

  lemma IdentityKeys(identity: Identity)
    ensures IdentityJson(identity).Keys == IDENTITY_FIELDS
  {}

  lemma ProgressKeys(run: Progress)
    ensures ProgressJson(run).Keys == RUN_FIELDS
  {}

  lemma RecordsKeys(records: Records)
    ensures RecordsJson(records).Keys == RECORD_FIELDS
  {}

  lemma EncodedFields(status: Status)
    ensures Encode(status).fields.Keys == FIELDS
    ensures forall field :: field in RECORD_FIELDS ==>
              Encode(status).fields[field] == RecordsJson(RecordsOf(status))[field]
    ensures forall field :: field in RUN_FIELDS ==>
              Encode(status).fields[field] == ProgressJson(ProgressOf(status))[field]
    ensures forall field :: field in IDENTITY_FIELDS ==>
              Encode(status).fields[field] == IdentityJson(status.identity)[field]
  {
    FieldsAreDisjoint();
    IdentityKeys(status.identity);
    ProgressKeys(ProgressOf(status));
    RecordsKeys(RecordsOf(status));
    MergedFields(IdentityJson(status.identity), ProgressJson(ProgressOf(status)), RecordsJson(RecordsOf(status)));
  }

  lemma FieldsAreDisjoint()
    ensures IDENTITY_FIELDS !! RUN_FIELDS !! RECORD_FIELDS
  {}

  lemma HeldRecords(records: Records, fields: map<string, Json>)
    requires RECORD_FIELDS <= fields.Keys && HoldRecords(fields, records)
    ensures forall field :: field in RECORD_FIELDS ==> fields[field] == RecordsJson(records)[field]
  {}

  lemma RecordsAreHeld(records: Records, fields: map<string, Json>)
    requires RECORD_FIELDS <= fields.Keys
    requires forall field :: field in RECORD_FIELDS ==> fields[field] == RecordsJson(records)[field]
    ensures HoldRecords(fields, records)
  {}

  lemma DecodeAssembles(fields: map<string, Json>, run: Progress, records: Records, identity: Identity)
    requires fields.Keys == FIELDS
    requires DecodeProgress(fields) == Ok(run) && DecodeRecords(fields) == Ok(records)
    requires DecodeIdentity(fields) == Ok(identity)
    ensures Decode(Obj(fields)) == Constructed(Assemble(identity, run, records))
  {}

  /** Decoding an encoded status gives back the same status. */
  lemma RoundTrip(status: Status)
    ensures Decode(Encode(status)) == Ok(status)
  {
    EncodedFields(status);
    var fields, run, records := Encode(status).fields, ProgressOf(status), RecordsOf(status);
    IdentityRoundTrip(status.identity, fields);
    ProgressRoundTrip(run, fields);
    RecordsAreHeld(records, fields);
    RecordsRoundTrip(records, fields);
    DecodeAssembles(fields, run, records, status.identity);
  }

  /** The payload as the next write leaves it: without the retired role. */
  function Normalised(fields: map<string, Json>): map<string, Json>
    requires fields.Keys == FIELDS
  {
    fields["databases" := WithoutRetired(fields["databases"])]["schema_heads" := WithoutRetired(fields["schema_heads"])]
  }

  lemma DatabaseIsCanonical(value: Json)
    requires DecodeDatabase(value).Ok?
    ensures DatabaseJson(DecodeDatabase(value).value) == value
  {}

  lemma DatabasesAreCanonical(value: Json)
    requires DecodeDatabases(value).Ok?
    ensures DatabasesJson(DecodeDatabases(value).value) == WithoutRetired(value)
  {
    if !value.Null? {
      var entries := WithoutRetired(value).fields;
      DatabaseIsCanonical(entries["map_application"]);
      DatabaseIsCanonical(entries["pinvi"]);
      assert DatabasesJson(DecodeDatabases(value).value).fields == entries;
    }
  }

  lemma DecisionIsCanonical(value: Json)
    requires DecodeDecision(value).Ok?
    ensures DecisionJson(DecodeDecision(value).value) == value
  {}

  lemma StringsAreCanonical(value: Json)
    requires DecodeStrings(value).Ok?
    ensures StringsJson(DecodeStrings(value).value) == value
  {}

  lemma SchemaHeadsAreCanonical(value: Json)
    requires DecodeSchemaHeads(value).Ok?
    ensures StringsJson(DecodeSchemaHeads(value).value) == WithoutRetired(value)
  {}

  lemma RecordsAreCanonical(fields: map<string, Json>, normalised: map<string, Json>)
    requires fields.Keys == FIELDS && normalised.Keys == FIELDS && DecodeRecords(fields).Ok?
    requires AreNormalised(fields, normalised)
    ensures HoldRecords(normalised, DecodeRecords(fields).value)
  {
    DatabasesAreCanonical(fields["databases"]);
    DecisionIsCanonical(fields["restart"]);
    DecisionIsCanonical(fields["adopted"]);
    StringsAreCanonical(fields["images"]);
    SchemaHeadsAreCanonical(fields["schema_heads"]);
  }

  /** What normalising does to the fields that hold records. */
  predicate AreNormalised(fields: map<string, Json>, normalised: map<string, Json>)
    requires fields.Keys == FIELDS && normalised.Keys == FIELDS
  {
    && normalised["databases"] == WithoutRetired(fields["databases"])
    && normalised["schema_heads"] == WithoutRetired(fields["schema_heads"])
    && normalised["images"] == fields["images"]
    && normalised["restart"] == fields["restart"] && normalised["adopted"] == fields["adopted"]
  }

  lemma ProgressIsCanonical(fields: map<string, Json>)
    requires fields.Keys == FIELDS && DecodeProgress(fields).Ok?
    ensures forall field :: field in RUN_FIELDS ==> ProgressJson(DecodeProgress(fields).value)[field] == fields[field]
  {}

  lemma IdentityIsCanonical(fields: map<string, Json>)
    requires fields.Keys == FIELDS && DecodeIdentity(fields).Ok?
    ensures forall field :: field in IDENTITY_FIELDS ==>
              IdentityJson(DecodeIdentity(fields).value)[field] == fields[field]
  {}

  lemma NormalisedFields(fields: map<string, Json>)
    requires fields.Keys == FIELDS
    ensures Normalised(fields).Keys == FIELDS
    ensures forall field :: field in IDENTITY_FIELDS + RUN_FIELDS ==> Normalised(fields)[field] == fields[field]
    ensures AreNormalised(fields, Normalised(fields))
  {}

  /** An accepted payload is what its status encodes to, but for the retired role: the codec loses nothing else. */
  lemma OnlyTheRetiredRoleIsLost(payload: Json)
    requires Decode(payload).Ok?
    ensures Encode(Decode(payload).value) == Obj(Normalised(payload.fields))
  {
    var fields, status := payload.fields, Decode(payload).value;
    NormalisedFields(fields);
    RecordsAreCanonical(fields, Normalised(fields));
    HeldRecords(DecodeRecords(fields).value, Normalised(fields));
    ProgressIsCanonical(fields);
    IdentityIsCanonical(fields);
    EncodedFields(status);
    var encoded := Encode(status).fields;
    forall field | field in FIELDS
      ensures encoded[field] == Normalised(fields)[field]
    {
      assert field in RECORD_FIELDS || field in RUN_FIELDS || field in IDENTITY_FIELDS;
    }
    SameFields(encoded, Normalised(fields), FIELDS);
  }

  lemma SameFields(one: map<string, Json>, other: map<string, Json>, keys: set<string>)
    requires one.Keys == keys && other.Keys == keys && forall key :: key in keys ==> one[key] == other[key]
    ensures one == other
  {}

  /** Encoding what was decoded is a fixed point of decoding. */
  lemma ReencodingIsAFixedPoint(payload: Json)
    requires Decode(payload).Ok?
    ensures Decode(Encode(Decode(payload).value)) == Decode(payload)
    ensures Decode(Obj(Normalised(payload.fields))) == Decode(payload)
  {
    RoundTrip(Decode(payload).value);
    OnlyTheRetiredRoleIsLost(payload);
  }

  /** Two accepted payloads with the same status differ at most in the retired role. */
  lemma DecodingIsInjective(one: Json, other: Json)
    requires Decode(one).Ok? && Decode(one) == Decode(other)
    ensures Normalised(one.fields) == Normalised(other.fields)
  {
    OnlyTheRetiredRoleIsLost(one);
    OnlyTheRetiredRoleIsLost(other);
  }

  predicate HasRole(value: Json, role: string) {
    value.Obj? && role in value.fields
  }

  /** The key sets an accepted mapping by role can have. */
  predicate AreRoleKeys(keys: set<string>) {
    keys == ROLES || keys == ROLES + {RETIRED_ROLE}
  }

  /**
   * A payload with the retired role decodes as if the role were absent, except that a retired schema head must still
   * be a string.
   */
  lemma RetiredRoleIsIgnored(payload: Json)
    requires payload.Obj? && payload.fields.Keys == FIELDS
    ensures Decode(payload).Ok? <==>
              && Decode(Obj(Normalised(payload.fields))).Ok?
              && RetiredHeadIsText(payload.fields)
    ensures Decode(payload).Ok? ==> Decode(payload) == Decode(Obj(Normalised(payload.fields)))
  {
    var fields := payload.fields;
    NormalisedFields(fields);
    RecordsIgnoreRetired(fields, Normalised(fields));
    ProgressIgnoresRetired(fields, Normalised(fields));
    if Decode(payload).Ok? {
      ReencodingIsAFixedPoint(payload);
    }
  }

  predicate RetiredHeadIsText(fields: map<string, Json>)
    requires fields.Keys == FIELDS
  {
    HasRole(fields["schema_heads"], RETIRED_ROLE) ==> fields["schema_heads"].fields[RETIRED_ROLE].Str?
  }

  lemma RecordsIgnoreRetired(fields: map<string, Json>, normalised: map<string, Json>)
    requires fields.Keys == FIELDS && normalised.Keys == FIELDS && AreNormalised(fields, normalised)
    ensures DecodeRecords(fields).Ok? <==> DecodeRecords(normalised).Ok? && RetiredHeadIsText(fields)
    ensures DecodeRecords(fields).Ok? ==> DecodeRecords(normalised) == DecodeRecords(fields)
  {
    DatabasesIgnoreRetired(fields["databases"]);
    SchemaHeadsIgnoreRetired(fields["schema_heads"]);
    CombinedByHeads(DecodeDatabases(fields["databases"]), DecodeDecision(fields["restart"]),
                    DecodeDecision(fields["adopted"]),
                    DecodeStrings(fields["images"]), DecodeSchemaHeads(fields["schema_heads"]),
                    DecodeSchemaHeads(normalised["schema_heads"]));
  }

  lemma CombinedByHeads(databases: Result<Option<Databases>, Refusal>, restart: Result<Option<Decision>, Refusal>,
                        adopted: Result<Option<Decision>, Refusal>, images: Result<map<string, string>, Refusal>,
                        one: Result<map<string, string>, Refusal>, other: Result<map<string, string>, Refusal>)
    requires one.Ok? ==> one == other
    ensures var combined := Combined(databases, restart, adopted, images, other);
            && (Combined(databases, restart, adopted, images, one).Ok? <==> combined.Ok? && one.Ok?)
            && (one.Ok? ==> Combined(databases, restart, adopted, images, one) == combined)
            && (combined.Ok? ==> other.Ok?)
  {}

  lemma ProgressIgnoresRetired(fields: map<string, Json>, normalised: map<string, Json>)
    requires fields.Keys == FIELDS && normalised.Keys == FIELDS
    requires forall field :: field in IDENTITY_FIELDS + RUN_FIELDS ==> normalised[field] == fields[field]
    ensures DecodeProgress(normalised) == DecodeProgress(fields)
    ensures DecodeIdentity(normalised) == DecodeIdentity(fields)
  {}

  lemma DatabasesIgnoreRetired(value: Json)
    ensures DecodeDatabases(WithoutRetired(value)) == DecodeDatabases(value)
  {}

  lemma SchemaHeadsIgnoreRetired(value: Json)
    ensures DecodeSchemaHeads(value).Ok? <==>
              && DecodeSchemaHeads(WithoutRetired(value)).Ok?
              && (HasRole(value, RETIRED_ROLE) ==> value.fields[RETIRED_ROLE].Str?)
    ensures DecodeSchemaHeads(value).Ok? ==> DecodeSchemaHeads(WithoutRetired(value)) == DecodeSchemaHeads(value)
  {
    if DecodeStrings(value).Ok? {
      assert DecodeStrings(value).value.Keys == value.fields.Keys;
    }
    if DecodeStrings(WithoutRetired(value)).Ok? {
      assert DecodeStrings(WithoutRetired(value)).value.Keys == WithoutRetired(value).fields.Keys;
    }
    if value.Obj? && value.fields.Keys == ROLES + {RETIRED_ROLE} {
      assert WithoutRetired(value).fields.Keys == ROLES;
      if DecodeSchemaHeads(value).Ok? {
        assert DecodeSchemaHeads(WithoutRetired(value)).value == DecodeSchemaHeads(value).value;
      }
    }
  }

  lemma DecodedDatabasesHaveRoleKeys(value: Json)
    requires DecodeDatabases(value).Ok?
    ensures HasRoleKeysOrNull(value)
  {}

  lemma DecodedSchemaHeadsHaveRoleKeys(value: Json)
    requires DecodeSchemaHeads(value).Ok?
    ensures HasRoleKeysOrNone(value)
  {}

  lemma AcceptedParts(payload: Json)
    requires Decode(payload).Ok?
    ensures payload.Obj? && payload.fields.Keys == FIELDS
    ensures DecodeProgress(payload.fields).Ok? && DecodeRecords(payload.fields).Ok?
  {}

  lemma AcceptedRecords(fields: map<string, Json>)
    requires fields.Keys == FIELDS && DecodeRecords(fields).Ok?
    ensures DecodeDatabases(fields["databases"]).Ok? && DecodeSchemaHeads(fields["schema_heads"]).Ok?
  {}

  lemma AcceptedVersion(fields: map<string, Json>)
    requires fields.Keys == FIELDS && DecodeProgress(fields).Ok?
    ensures fields["version"] == Num(1)
  {}

  predicate HasRoleKeysOrNull(value: Json) {
    value.Null? || (value.Obj? && AreRoleKeys(value.fields.Keys))
  }

  predicate HasRoleKeysOrNone(value: Json) {
    value.Obj? && (value.fields == map[] || AreRoleKeys(value.fields.Keys))
  }

  /** Any other set of keys is refused. */
  lemma OtherKeySetsAreRefused(payload: Json)
    requires Decode(payload).Ok?
    ensures payload.Obj? && payload.fields.Keys == FIELDS && payload.fields["version"] == Num(1)
    ensures HasRoleKeysOrNull(payload.fields["databases"]) && HasRoleKeysOrNone(payload.fields["schema_heads"])
  {
    AcceptedParts(payload);
    var fields := payload.fields;
    AcceptedVersion(fields);
    AcceptedRecords(fields);
    DecodedDatabasesHaveRoleKeys(fields["databases"]);
    DecodedSchemaHeadsHaveRoleKeys(fields["schema_heads"]);
  }
}
