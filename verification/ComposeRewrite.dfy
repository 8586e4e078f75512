/**
 * Rewriting a Compose document so that no build reads a live source directory: builds asked for now read a
 * filtered copy, every other build section is dropped.
 */
module ComposeRewrite {
  import opened Common
  import ContextExport
  import DockerIgnore
  import Paths

  /** A field that may be absent or hold something that is not text, such as a number or a list, true or false. */
  datatype TextField = Missing | Text(text: string) | NotText(isTrue: bool)

  datatype Labels = NoLabels | LabelMap(labels: map<string, string>) | LabelList(items: seq<string>) | UnreadableLabels

  /** A build section; `rest` stands for target, arguments and everything else that is only carried along. */
  datatype Build = Build(context: TextField, dockerfile: TextField, hasInlineDockerfile: bool,
                         hasAdditionalContexts: bool, labels: Labels, rest: string)

  datatype BuildField = NoBuild | UnreadableBuild | Section(build: Build)

  datatype Service = NotMapping | Service(build: BuildField, rest: string)

  /** A copy is shared by the builds that use the same context and the same ignore file. */
  datatype Key = Key(context: string, ignoreFile: string)

  /** A local build's part in the copies: which copy, its Dockerfile, and the in-context paths to keep in it. */
  datatype Local = Local(key: Key, dockerfile: Option<string>, keep: set<string>)

  datatype Refusal = NotDigestible | Unreadable | UnreadableContext | Unsupported | NoStagingDirectory

  /** What the host's file system answers. */
  datatype Host = Host(resolve: string -> Option<string>, isDirectory: string -> bool, isFile: string -> bool,
                       normalized: string -> string, realPath: string -> string)

  const LABEL := "io.kor-travel-docker-manager.compose-build-sha256"

  predicate IsLetter(c: char) {
    'a' <= c <= 'z' || 'A' <= c <= 'Z'
  }

  predicate IsSchemeTail(c: char) {
    IsLetter(c) || '0' <= c <= '9' || c in {'+', '.', '-'}
  }

  function SchemeLength(context: string): (k: nat)
    ensures k <= |context|
  {
    if context == "" || !IsSchemeTail(context[0]) then 0 else 1 + SchemeLength(context[1..])
  }

  /** A URL scheme or an scp-style git address; such contexts are fetched by the builder. */
  predicate IsRemote(context: string) {
    || (context != "" && IsLetter(context[0]) && "://" <= context[SchemeLength(context)..])
    || (|context| >= 4 && context[0] in {'g', 'G'} && context[1] in {'i', 'I'} && context[2] in {'t', 'T'}
        && context[3] == '@')
  }

  predicate IsAbsolute(path: string) {
    path != "" && path[0] == '/'
  }

  function Inside(directory: string): string {
    if directory == "/" then "/" else directory + "/"
  }

  function JoinPath(directory: string, path: string): string {
    if IsAbsolute(path) then path else Inside(directory) + path
  }

  /** Strictly below the directory. */
  predicate IsBelow(path: string, directory: string) {
    Inside(directory) < path
  }

  function RelativeTo(path: string, directory: string): string
    requires IsBelow(path, directory)
  {
    path[|Inside(directory)|..]
  }

  function Relatives(paths: set<string>, directory: string): set<string> {
    set path | path in paths && IsBelow(path, directory) :: RelativeTo(path, directory)
  }

  /** `item.partition("=")` as a key and a value. */
  function LabelKey(item: string): (k: nat)
    ensures k <= |item|
  {
    if item == "" || item[0] == '=' then 0 else 1 + LabelKey(item[1..])
  }

  function ListedLabels(items: seq<string>): map<string, string> {
    if items == [] then map[]
    else
      var item := items[|items| - 1];
      var k := LabelKey(item);
      ListedLabels(items[..|items| - 1])[item[..k] := if k < |item| then item[k + 1..] else ""]
  }

  function ReadLabels(labels: Labels): Option<map<string, string>> {
    match labels
    case NoLabels => Some(map[])
    case LabelMap(m) => Some(m)
    case LabelList(items) => Some(ListedLabels(items))
    case UnreadableLabels => None
  }

  /** The digest of a section; there is none if the section cannot be written as JSON. */
  type Digest = Build -> Option<string>

  /** The section with its own digest as a label. */
  function Labelled(build: Build, digest: Digest): Build {
    build.(labels := LabelMap(ReadLabels(build.labels).GetOr(map[])[LABEL := digest(build).GetOr("")]))
  }

  /** The Dockerfile a build names, or the refusal. */
  function DockerfileName(build: Build): Result<string, Refusal> {
    match build.dockerfile
    case Missing => Ok("Dockerfile")
    case Text(text) => Ok(if text == "" then "Dockerfile" else text)
    case NotText(isTrue) => if isTrue then Err(Unreadable) else Ok("Dockerfile")
  }

  /** How one build section is handled: refused, left to the builder (`None`), or copied locally. */
  function PlanOf(host: Host, digest: Digest, build: Build): Result<Option<Local>, Refusal> {
    if digest(build).None? then Err(NotDigestible)
    else if ReadLabels(build.labels).None? then Err(Unreadable)
    else if build.context.Text? && IsRemote(build.context.text) then Ok(None)
    else if build.hasAdditionalContexts then Err(Unsupported)
    else if !build.context.Text? || !IsAbsolute(build.context.text) then Err(UnreadableContext)
    else
      match host.resolve(build.context.text)
      case None => Err(UnreadableContext)
      case Some(context) =>
        if !host.isDirectory(context) then Err(UnreadableContext)
        else if build.hasInlineDockerfile then
          var ignoreFile := Inside(context) + ".dockerignore";
          Ok(Some(Local(Key(context, ignoreFile), None, Relatives({ignoreFile}, context))))
        else
          var name :- DockerfileName(build);
          var given := host.normalized(JoinPath(context, name));
          var specificIgnore := given + ".dockerignore";
          var dockerfile := host.realPath(given);
          var commonIgnore := Inside(context) + ".dockerignore";
          var ignoreFile := if host.isFile(specificIgnore) then specificIgnore else commonIgnore;
          Ok(Some(Local(Key(context, ignoreFile), Some(dockerfile),
                        Relatives({dockerfile, specificIgnore, commonIgnore}, context))))
  }

  datatype Entry = Entry(name: string, service: Service)

  datatype StagedCopy = StagedCopy(key: Key, keep: set<string>)

  datatype Rewritten = Rewritten(services: seq<Entry>, copies: seq<StagedCopy>)

  /** A Compose document; `rest` stands for everything but its services. */
  datatype Document = NoServices(rest: string) | Services(entries: seq<Entry>, rest: string)

  datatype Outcome = Failed | Done(document: Document, copies: seq<StagedCopy>)

  function DigitOf(n: nat): char
    requires n < 10
  {
    '0' + n as char
  }

  function Digits(n: nat): string {
    if n < 10 then [DigitOf(n)] else Digits(n / 10) + [DigitOf(n % 10)]
  }

  lemma {:induction false} DigitsInjective(m: nat, n: nat)
    requires Digits(m) == Digits(n)
    ensures m == n
  {
    DigitsNonempty(m / 10);
    DigitsNonempty(n / 10);
    assert |Digits(m)| == |Digits(n)|;
    if m >= 10 && n >= 10 {
      var last := |Digits(m)| - 1;
      assert Digits(m)[..last] == Digits(m / 10) && Digits(n)[..last] == Digits(n / 10);
      assert Digits(m)[last] == DigitOf(m % 10) && Digits(n)[last] == DigitOf(n % 10);
      DigitsInjective(m / 10, n / 10);
    } else {
      assert m < 10 && n < 10;
      assert Digits(m)[0] == DigitOf(m) && Digits(n)[0] == DigitOf(n);
    }
  }

  lemma DigitsNonempty(n: nat)
    ensures |Digits(n)| >= 1
  {}

  function CopyPath(staging: string, number: nat): string {
    staging + "/context-" + Digits(number)
  }

  lemma CopyPathInjective(staging: string, m: nat, n: nat)
    requires CopyPath(staging, m) == CopyPath(staging, n)
    ensures m == n
  {
    var prefix := staging + "/context-";
    assert CopyPath(staging, m)[|prefix|..] == Digits(m);
    assert CopyPath(staging, n)[|prefix|..] == Digits(n);
    DigitsInjective(m, n);
  }

  datatype Plan = Plan(index: nat, local: Local)

  /** Inside the copy the Dockerfile keeps its place; one outside the context keeps its full path. */
  function DockerfileInCopy(path: string, context: string): string {
    if path == context then "."
    else if IsBelow(path, context) then RelativeTo(path, context)
    else path
  }

  /** A local build pointed at its copy. */
  function PointedAt(build: Build, local: Local, path: string): Build {
    var moved := build.(context := Text(path));
    match local.dockerfile
    case None => moved
    case Some(dockerfile) => moved.(dockerfile := Text(DockerfileInCopy(dockerfile, local.key.context)))
  }

  /** One rewrite: how a build section is planned, labelled and pointed at a numbered copy, and what to build. */
  datatype Job = Job(plan: Build -> Result<Option<Local>, Refusal>, relabel: Build -> Build,
                     repoint: (Build, Local, nat) -> Build, targets: set<string>) {

    predicate IsTarget(entry: Entry) {
      entry.service.Service? && !entry.service.build.NoBuild? && entry.name in targets
    }

    /** A target whose build cannot be rewritten stops the whole rewrite. */
    predicate Refused(entry: Entry) {
      IsTarget(entry) && (entry.service.build.UnreadableBuild? || plan(entry.service.build.build).Err?)
    }

    function LocalOf(entry: Entry): Option<Local> {
      if IsTarget(entry) && entry.service.build.Section? then plan(entry.service.build.build).GetOr(None) else None
    }

    /** The entry after the first pass: build dropped, or labelled. */
    function Prepared(entry: Entry): Entry
      requires !Refused(entry)
    {
      if !entry.service.Service? || entry.service.build.NoBuild? then entry
      else if entry.name !in targets then entry.(service := entry.service.(build := NoBuild))
      else entry.(service := entry.service.(build := Section(relabel(entry.service.build.build))))
    }

    /** A labelled local build pointed at its copy. */
    function Repointed(entry: Entry, local: Local, number: nat): Entry
      requires IsSection(entry)
    {
      entry.(service := entry.service.(build := Section(repoint(entry.service.build.build, local, number))))
    }

    /** The local builds of `document[..n]`, in order. */
    function Plans(document: seq<Entry>, n: nat): (plans: seq<Plan>)
      requires n <= |document|
      ensures forall s :: 0 <= s < |plans| ==>
                plans[s].index < n && LocalOf(document[plans[s].index]) == Some(plans[s].local)
    {
      if n == 0 then []
      else
        Plans(document, n - 1) +
        match LocalOf(document[n - 1])
        case Some(local) => [Plan(n - 1, local)]
        case None => []
    }

    /** What the builds of `document[..n]` want kept, copy by copy. */
    function Keeps(document: seq<Entry>, n: nat): map<Key, set<string>>
      requires n <= |document|
    {
      if n == 0 then map[]
      else
        var before := Keeps(document, n - 1);
        match LocalOf(document[n - 1])
        case Some(local) => before[local.key := Get(before, local.key).GetOr({}) + local.keep]
        case None => before
    }

    predicate Uses(entry: Entry, key: Key) {
      LocalOf(entry).Some? && LocalOf(entry).value.key == key
    }

    /** One service of the rewritten document. */
    predicate RewrittenAs(before: Entry, after: Entry, copies: seq<StagedCopy>) {
      && !Refused(before)
      && match LocalOf(before)
         case None => after == Prepared(before)
         case Some(local) =>
           exists n :: 0 <= n < |copies| && copies[n].key == local.key && after == Repointed(Prepared(before), local, n)
    }

    predicate DistinctKeys(copies: seq<StagedCopy>) {
      forall m, n :: 0 <= m < n < |copies| ==> copies[m].key != copies[n].key
    }

    /** A copy has a user, and keeps a path exactly when one of its users wants it kept. */
    ghost predicate KeepsForUsers(document: seq<Entry>, copy: StagedCopy) {
      && (exists i :: 0 <= i < |document| && Uses(document[i], copy.key))
      && forall path :: path in copy.keep <==>
           exists i :: 0 <= i < |document| && Uses(document[i], copy.key) && path in LocalOf(document[i]).value.keep
    }

    /** Every service is rewritten; copies are distinct, and each keeps what exactly its users want kept. */
    ghost predicate Correct(document: seq<Entry>, r: Rewritten) {
      && |r.services| == |document|
      && (forall i :: 0 <= i < |document| ==> RewrittenAs(document[i], r.services[i], r.copies))
      && DistinctKeys(r.copies)
      && (forall n :: 0 <= n < |r.copies| ==> KeepsForUsers(document, r.copies[n]))
    }

    predicate Acceptable(document: seq<Entry>, hasStaging: bool) {
      && (forall i :: 0 <= i < |document| ==> !Refused(document[i]))
      && (hasStaging || forall i :: 0 <= i < |document| ==> LocalOf(document[i]).None?)
    }

    /** The first pass: drop or label each build, and collect the local ones. */
    method Prepare(document: seq<Entry>)
      returns (ok: bool, services: seq<Entry>, plans: seq<Plan>, keeps: map<Key, set<string>>)
      ensures ok <==> forall i :: 0 <= i < |document| ==> !Refused(document[i])
      ensures ok ==> |services| == |document|
      ensures ok ==> forall i :: 0 <= i < |document| ==> services[i] == Prepared(document[i])
      ensures ok ==> plans == Plans(document, |document|) && keeps == Keeps(document, |document|)
    {
      services, plans, keeps := document, [], map[];
      for i := 0 to |document|
        invariant |services| == |document|
        invariant forall j :: 0 <= j < i ==> !Refused(document[j]) && services[j] == Prepared(document[j])
        invariant forall j :: i <= j < |document| ==> services[j] == document[j]
        invariant plans == Plans(document, i) && keeps == Keeps(document, i)
      {
        var entry := document[i];
        if !entry.service.Service? || entry.service.build.NoBuild? {
          continue;
        }
        if entry.name !in targets {
          services := services[i := entry.(service := entry.service.(build := NoBuild))];
          continue;
        }
        if entry.service.build.UnreadableBuild? {
          ok := false;
          return;
        }
        var planned := plan(entry.service.build.build);
        if planned.Err? {
          ok := false;
          return;
        }
        services := services[i := Prepared(entry)];
        if planned.value.Some? {
          var local := planned.value.value;
          keeps := keeps[local.key := Get(keeps, local.key).GetOr({}) + local.keep];
          plans := plans + [Plan(i, local)];
        }
      }
      ok := true;
    }

    lemma {:induction false} EveryLocalIsPlanned(document: seq<Entry>, n: nat, i: nat)
      requires i < n <= |document| && LocalOf(document[i]).Some?
      ensures Plan(i, LocalOf(document[i]).value) in Plans(document, n)
    {
      if i < n - 1 {
        EveryLocalIsPlanned(document, n - 1, i);
      }
    }

    predicate InOrder(plans: seq<Plan>) {
      forall s, t :: 0 <= s < t < |plans| ==> plans[s].index < plans[t].index
    }

    lemma {:induction false} PlansAreOrdered(document: seq<Entry>, n: nat)
      requires n <= |document|
      ensures InOrder(Plans(document, n))
    {
      if n > 0 {
        PlansAreOrdered(document, n - 1);
        var before := Plans(document, n - 1);
        assert
          || Plans(document, n) == before
          || Plans(document, n) == before + [Plan(n - 1, LocalOf(document[n - 1]).value)];
      }
    }

    lemma {:induction false} KeepsAreForUsers(document: seq<Entry>, n: nat, key: Key)
      requires n <= |document|
      ensures key in Keeps(document, n) <==> exists i :: 0 <= i < n && Uses(document[i], key)
      ensures key in Keeps(document, n) ==> forall path :: path in Keeps(document, n)[key] <==>
                exists i :: 0 <= i < n && Uses(document[i], key) && path in LocalOf(document[i]).value.keep
    {
      if n > 0 {
        KeepsAreForUsers(document, n - 1, key);
        if Uses(document[n - 1], key) {
          var wanted := LocalOf(document[n - 1]).value.keep;
          assert Keeps(document, n)[key] == Get(Keeps(document, n - 1), key).GetOr({}) + wanted;
        } else {
          assert Get(Keeps(document, n), key) == Get(Keeps(document, n - 1), key);
        }
      }
    }

    /** The copies made so far, and the number each key was given. */
    predicate Numbered(copies: seq<StagedCopy>, exports: map<Key, nat>, keeps: map<Key, set<string>>) {
      && (forall key :: key in exports ==> exports[key] < |copies| && copies[exports[key]].key == key)
      && (forall n :: 0 <= n < |copies| ==> copies[n].key in exports && exports[copies[n].key] == n)
      && (forall n :: 0 <= n < |copies| ==> copies[n].key in keeps && copies[n].keep == keeps[copies[n].key])
    }

    predicate IsSection(entry: Entry) {
      entry.service.Service? && entry.service.build.Section?
    }

    /** A planned build is labelled, and points at the copy with its key's number. */
    predicate PointsAtCopy(before: Entry, after: Entry, local: Local, exports: map<Key, nat>) {
      IsSection(before) && local.key in exports && after == Repointed(before, local, exports[local.key])
    }

    predicate ArePrepared(document: seq<Entry>, services: seq<Entry>) {
      && |services| == |document|
      && forall i :: 0 <= i < |document| ==> !Refused(document[i]) && services[i] == Prepared(document[i])
    }

    /** The first `p` planned builds point at their copies; everything else is as prepared. */
    predicate PointedUpTo(prepared: seq<Entry>, plans: seq<Plan>, p: nat, services: seq<Entry>, exports: map<Key, nat>)
      requires p <= |plans| && |services| == |prepared|
      requires forall s :: 0 <= s < |plans| ==> plans[s].index < |prepared|
    {
      && (forall s :: 0 <= s < p ==>
            PointsAtCopy(prepared[plans[s].index], services[plans[s].index], plans[s].local, exports))
      && (forall i :: 0 <= i < |prepared| && (p == |plans| || i < plans[p].index) && !IsPlanned(plans, i) ==>
          services[i] == prepared[i])
      && (forall i :: 0 <= i < |prepared| && p < |plans| && plans[p].index <= i ==> services[i] == prepared[i])
    }

    predicate IsPlanned(plans: seq<Plan>, i: nat) {
      exists s :: 0 <= s < |plans| && plans[s].index == i
    }

    lemma PointNext(prepared: seq<Entry>, plans: seq<Plan>, p: nat, services: seq<Entry>,
                    before: map<Key, nat>, exports: map<Key, nat>)
      requires p < |plans| && |services| == |prepared| && InOrder(plans)
      requires forall s :: 0 <= s < |plans| ==> plans[s].index < |prepared| && IsSection(prepared[plans[s].index])
      requires PointedUpTo(prepared, plans, p, services, before)
      requires forall key :: key in before ==> key in exports && exports[key] == before[key]
      requires plans[p].local.key in exports
      ensures var i := plans[p].index;
              && IsSection(services[i])
              && PointedUpTo(prepared, plans, p + 1,
                             services[i := Repointed(services[i], plans[p].local, exports[plans[p].local.key])],
                             exports)
    {}

    /** The key of the first of these copies has a user before every user of the other's. */
    predicate IsUsedFirst(plans: seq<Plan>, first: Key, second: Key) {
      exists s :: 0 <= s < |plans| && plans[s].local.key == first && !IsUsed(plans[..s], second)
    }

    predicate IsUsed(plans: seq<Plan>, key: Key) {
      exists s :: 0 <= s < |plans| && plans[s].local.key == key
    }

    /** The copies are numbered in the order their keys are first used. */
    predicate InOrderOfUse(plans: seq<Plan>, copies: seq<StagedCopy>) {
      && (forall n :: 0 <= n < |copies| ==> IsUsed(plans, copies[n].key))
      && (forall m, n :: 0 <= m < n < |copies| ==> IsUsedFirst(plans, copies[m].key, copies[n].key))
    }

    lemma OneMorePlan(plans: seq<Plan>, p: nat, copies: seq<StagedCopy>)
      requires p < |plans| && InOrderOfUse(plans[..p], copies)
      ensures InOrderOfUse(plans[..p + 1], copies)
      ensures !IsUsed(plans[..p], plans[p].local.key) ==>
                forall keep :: InOrderOfUse(plans[..p + 1], copies + [StagedCopy(plans[p].local.key, keep)])
    {
      var before, after, key := plans[..p], plans[..p + 1], plans[p].local.key;
      assert forall s :: 0 <= s < p ==> after[s] == before[s] && after[..s] == before[..s];
      assert after[p].local.key == key;
      forall n | 0 <= n < |copies|
        ensures IsUsed(after, copies[n].key)
        ensures !IsUsed(before, key) ==> IsUsedFirst(after, copies[n].key, key)
      {
        var s :| 0 <= s < p && before[s].local.key == copies[n].key;
        assert after[s].local.key == copies[n].key;
        if !IsUsed(before, key) {
          assert forall t :: 0 <= t < s ==> before[..s][t] == before[t];
        }
      }
      forall m, n | 0 <= m < n < |copies|
        ensures IsUsedFirst(after, copies[m].key, copies[n].key)
      {
        var s :| 0 <= s < p && before[s].local.key == copies[m].key && !IsUsed(before[..s], copies[n].key);
        assert after[s].local.key == copies[m].key && !IsUsed(after[..s], copies[n].key);
      }
    }

    lemma UsedByNow(plans: seq<Plan>, p: nat)
      requires p < |plans|
      ensures forall key :: IsUsed(plans[..p + 1], key) ==> IsUsed(plans[..p], key) || key == plans[p].local.key
    {
      forall key | IsUsed(plans[..p + 1], key) && key != plans[p].local.key
        ensures IsUsed(plans[..p], key)
      {
        var s :| 0 <= s < p + 1 && plans[..p + 1][s].local.key == key;
        assert plans[..p][s].local.key == key;
      }
    }

    /** The second pass: one copy per key, made when its first user is met, and every user pointed at it. */
    method Stage(prepared: seq<Entry>, plans: seq<Plan>, keeps: map<Key, set<string>>)
      returns (services: seq<Entry>, copies: seq<StagedCopy>, exports: map<Key, nat>)
      requires forall s :: 0 <= s < |plans| ==> plans[s].index < |prepared| && IsSection(prepared[plans[s].index])
      requires forall s :: 0 <= s < |plans| ==> plans[s].local.key in keeps
      requires InOrder(plans)
      ensures |services| == |prepared| && Numbered(copies, exports, keeps)
      ensures PointedUpTo(prepared, plans, |plans|, services, exports)
      ensures InOrderOfUse(plans, copies)
    {
      services, copies, exports := prepared, [], map[];
      for p := 0 to |plans|
        invariant |services| == |prepared| && Numbered(copies, exports, keeps)
        invariant PointedUpTo(prepared, plans, p, services, exports)
        invariant InOrderOfUse(plans[..p], copies)
        invariant forall key :: IsUsed(plans[..p], key) ==> key in exports
      {
        var index, local := plans[p].index, plans[p].local;
        ghost var before := exports;
        OneMorePlan(plans, p, copies);
        UsedByNow(plans, p);
        if local.key !in exports {
          exports := exports[local.key := |copies|];
          copies := copies + [StagedCopy(local.key, keeps[local.key])];
        }
        PointNext(prepared, plans, p, services, before, exports);
        services := services[index := Repointed(services[index], local, exports[local.key])];
      }
      assert plans[..|plans|] == plans;
    }

    lemma RewrittenByPlan(document: seq<Entry>, prepared: seq<Entry>, services: seq<Entry>, copies: seq<StagedCopy>,
                          exports: map<Key, nat>, keeps: map<Key, set<string>>, i: nat)
      requires i < |document| && ArePrepared(document, prepared) && |services| == |document|
      requires Numbered(copies, exports, keeps)
      requires PointedUpTo(prepared, Plans(document, |document|), |Plans(document, |document|)|, services, exports)
      ensures RewrittenAs(document[i], services[i], copies)
    {
      var plans := Plans(document, |document|);
      if LocalOf(document[i]).Some? {
        var local := LocalOf(document[i]).value;
        EveryLocalIsPlanned(document, |document|, i);
        var s :| 0 <= s < |plans| && plans[s] == Plan(i, local);
        assert PointsAtCopy(prepared[plans[s].index], services[plans[s].index], plans[s].local, exports);
        assert copies[exports[local.key]].key == local.key;
      } else {
        assert !IsPlanned(plans, i);
      }
    }

    method RewriteServices(document: seq<Entry>, hasStaging: bool) returns (result: Option<Rewritten>)
      ensures result.Some? <==> Acceptable(document, hasStaging)
      ensures result.Some? ==> Correct(document, result.value)
      ensures result.Some? ==> InOrderOfUse(Plans(document, |document|), result.value.copies)
    {
      var ok, prepared, plans, keeps := Prepare(document);
      if !ok {
        return None;
      }
      LocalMeansPlans(document);
      if plans == [] {
        RewrittenByPlans(document, prepared, prepared, [], map[], keeps);
        return Some(Rewritten(prepared, []));
      }
      if !hasStaging {
        return None;
      }
      PlansAreOrdered(document, |document|);
      PlansHaveKeeps(document);
      var services, copies, exports := Stage(prepared, plans, keeps);
      RewrittenByPlans(document, prepared, services, copies, exports, keeps);
      result := Some(Rewritten(services, copies));
    }

    /**
     * The whole rewrite: refused for a build that cannot be handled, otherwise correct service by service. A document
     * without a mapping of services stays as it is.
     */
    method Rewrite(document: Document, hasStaging: bool) returns (outcome: Outcome)
      ensures outcome == Failed <==> document.Services? && !Acceptable(document.entries, hasStaging)
      ensures document.NoServices? ==> outcome == Done(document, [])
      ensures document.Services? && outcome.Done? ==>
                && outcome.document.Services? && outcome.document.rest == document.rest
                && Correct(document.entries, Rewritten(outcome.document.entries, outcome.copies))
                && InOrderOfUse(Plans(document.entries, |document.entries|), outcome.copies)
    {
      if document.NoServices? {
        return Done(document, []);
      }
      var result := RewriteServices(document.entries, hasStaging);
      outcome := Failed;
      if result.Some? {
        outcome := Done(document.(entries := result.value.services), result.value.copies);
      }
    }

    lemma RewrittenByPlans(document: seq<Entry>, prepared: seq<Entry>, services: seq<Entry>, copies: seq<StagedCopy>,
                           exports: map<Key, nat>, keeps: map<Key, set<string>>)
      requires ArePrepared(document, prepared) && |services| == |document|
      requires keeps == Keeps(document, |document|) && Numbered(copies, exports, keeps)
      requires PointedUpTo(prepared, Plans(document, |document|), |Plans(document, |document|)|, services, exports)
      ensures Correct(document, Rewritten(services, copies))
    {
      forall i | 0 <= i < |document|
        ensures RewrittenAs(document[i], services[i], copies)
      {
        RewrittenByPlan(document, prepared, services, copies, exports, keeps, i);
      }
      forall n | 0 <= n < |copies|
        ensures KeepsForUsers(document, copies[n])
      {
        KeepsAreForUsers(document, |document|, copies[n].key);
      }
    }

    lemma LocalMeansPlans(document: seq<Entry>)
      ensures Plans(document, |document|) == [] <==> forall i :: 0 <= i < |document| ==> LocalOf(document[i]).None?
    {
      forall i | 0 <= i < |document| && LocalOf(document[i]).Some?
        ensures Plans(document, |document|) != []
      {
        EveryLocalIsPlanned(document, |document|, i);
      }
      if Plans(document, |document|) != [] {
        assert LocalOf(document[Plans(document, |document|)[0].index]).Some?;
      }
    }

    lemma PlansHaveKeeps(document: seq<Entry>)
      ensures forall s :: 0 <= s < |Plans(document, |document|)| ==>
                Plans(document, |document|)[s].local.key in Keeps(document, |document|)
    {
      var plans := Plans(document, |document|);
      forall s | 0 <= s < |plans|
        ensures plans[s].local.key in Keeps(document, |document|)
      {
        assert Uses(document[plans[s].index], plans[s].local.key);
        KeepsAreForUsers(document, |document|, plans[s].local.key);
      }
    }

    /** Services not built by this command have no build section afterwards; nothing else about them changes. */
    lemma OthersLoseTheirBuild(document: seq<Entry>, r: Rewritten, i: nat)
      requires Correct(document, r) && i < |document|
      requires document[i].name !in targets && document[i].service.Service?
      ensures r.services[i].service == Service(NoBuild, document[i].service.rest)
      ensures r.services[i].name == document[i].name
    {}
  }

  /** The rewrite of one command: file system answers, the digest of a build section, and where the copies go. */
  function CommandJob(host: Host, digest: Digest, staging: string, targets: set<string>): Job {
    Job(build => PlanOf(host, digest, build),
        build => Labelled(build, digest),
        (build, local: Local, number: nat) => PointedAt(build, local, CopyPath(staging, number)),
        targets)
  }

  /** A local build after the rewrite: its context is some copy, made for its own key. */
  lemma LocalBuildReadsACopy(host: Host, digest: Digest, staging: string, targets: set<string>,
                             document: seq<Entry>, r: Rewritten, i: nat) returns (n: nat)
    requires CommandJob(host, digest, staging, targets).Correct(document, r) && i < |document|
    requires CommandJob(host, digest, staging, targets).LocalOf(document[i]).Some?
    ensures var local := CommandJob(host, digest, staging, targets).LocalOf(document[i]).value;
            && n < |r.copies| && r.copies[n].key == local.key
            && document[i].service.Service? && document[i].service.build.Section?
            && r.services[i].service == Service(
                 Section(PointedAt(Labelled(document[i].service.build.build, digest), local, CopyPath(staging, n))),
                 document[i].service.rest)
  {
    var job := CommandJob(host, digest, staging, targets);
    assert job.RewrittenAs(document[i], r.services[i], r.copies);
    var local := job.LocalOf(document[i]).value;
    n :| 0 <= n < |r.copies| && r.copies[n].key == local.key
      && r.services[i] == job.Repointed(job.Prepared(document[i]), local, n);
  }

  /**
   * Two local builds read the same copy exactly when they share context and ignore file, and each carries the
   * digest of its own section as it was before the rewrite.
   */
  lemma CopiesAreSharedByKey(host: Host, digest: Digest, staging: string, targets: set<string>,
                             document: seq<Entry>, r: Rewritten, i: nat, j: nat)
    requires CommandJob(host, digest, staging, targets).Correct(document, r) && i < |document| && j < |document|
    requires CommandJob(host, digest, staging, targets).LocalOf(document[i]).Some?
    requires CommandJob(host, digest, staging, targets).LocalOf(document[j]).Some?
    ensures document[i].service.Service? && document[i].service.build.Section?
    ensures r.services[i].service.Service? && r.services[i].service.build.Section?
    ensures r.services[j].service.Service? && r.services[j].service.build.Section?
    ensures r.services[i].service.build.build.context == r.services[j].service.build.build.context
       <==> CommandJob(host, digest, staging, targets).LocalOf(document[i]).value.key
            == CommandJob(host, digest, staging, targets).LocalOf(document[j]).value.key
    ensures r.services[i].service.build.build.labels.LabelMap?
    ensures digest(document[i].service.build.build).Some?
    ensures Get(r.services[i].service.build.build.labels.labels, LABEL) == digest(document[i].service.build.build)
  {
    var m := LocalBuildReadsACopy(host, digest, staging, targets, document, r, i);
    var n := LocalBuildReadsACopy(host, digest, staging, targets, document, r, j);
    if CopyPath(staging, m) == CopyPath(staging, n) {
      CopyPathInjective(staging, m, n);
    }
  }

  /**
   * Whatever the ignore rules say, the copy a build reads holds the Dockerfile it names, if that Dockerfile lies
   * in the context and is a file or link there: the walk that prunes gets to it and copies it.
   */
  lemma DockerfileIsInTheCopy(host: Host, digest: Digest, staging: string, targets: set<string>,
                              document: seq<Entry>, r: Rewritten, i: nat, n: nat,
                              rules: DockerIgnore.Rules, tree: seq<ContextExport.Entry>)
    requires CommandJob(host, digest, staging, targets).Correct(document, r) && i < |document| && n < |r.copies|
    requires CommandJob(host, digest, staging, targets).Uses(document[i], r.copies[n].key)
    requires var local := CommandJob(host, digest, staging, targets).LocalOf(document[i]).value;
             local.dockerfile.Some? && IsBelow(local.dockerfile.value, local.key.context)
    requires ContextExport.WellFormed(tree)
    ensures var local := CommandJob(host, digest, staging, targets).LocalOf(document[i]).value;
            var relative := RelativeTo(local.dockerfile.value, local.key.context);
            var copied := ContextExport.Filter(rules, r.copies[n].keep).Listing(tree, [], true).entries;
            Get(copied, relative) == ContextExport.FileAt(tree, relative)
  {
    var relative := KeptDockerfile(host, digest, staging, targets, document, r, i, n);
    var filter := ContextExport.Filter(rules, r.copies[n].keep);
    filter.KeptIsWalked(tree, relative);
    filter.WalkIsWalked(tree);
  }

  /** The Dockerfile is in the keep set of every copy its build may read. */
  lemma KeptDockerfile(host: Host, digest: Digest, staging: string, targets: set<string>,
                       document: seq<Entry>, r: Rewritten, i: nat, n: nat) returns (relative: string)
    requires CommandJob(host, digest, staging, targets).Correct(document, r) && i < |document| && n < |r.copies|
    requires CommandJob(host, digest, staging, targets).Uses(document[i], r.copies[n].key)
    requires var local := CommandJob(host, digest, staging, targets).LocalOf(document[i]).value;
             local.dockerfile.Some? && IsBelow(local.dockerfile.value, local.key.context)
    ensures var local := CommandJob(host, digest, staging, targets).LocalOf(document[i]).value;
            relative == RelativeTo(local.dockerfile.value, local.key.context) && relative in r.copies[n].keep
  {
    var job := CommandJob(host, digest, staging, targets);
    var local := job.LocalOf(document[i]).value;
    assert job.KeepsForUsers(document, r.copies[n]);
    PlanKeepsItsDockerfile(host, digest, document[i].service.build.build);
    relative := RelativeTo(local.dockerfile.value, local.key.context);
    assert relative in local.keep;
  }

  lemma PlanKeepsItsDockerfile(host: Host, digest: Digest, build: Build)
    ensures var plan := PlanOf(host, digest, build);
            plan.Ok? && plan.value.Some? && plan.value.value.dockerfile.Some? ==>
              var Local(key, dockerfile, keep) := plan.value.value;
              IsBelow(dockerfile.value, key.context) ==> RelativeTo(dockerfile.value, key.context) in keep
  {}
}
