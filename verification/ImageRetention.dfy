/**
 * Retention tags on a Docker store where removing an image's last tag deletes the image. Reconciliation first
 * secures the wanted tags, then removes stale ones; any command may fail, with or without having taken effect.
 */
module ImageRetention {
  import opened Common

  /** A repository tag. The first two kinds live in the manager's own namespaces. */
  datatype Reference =
    | Retained(service: string, tag: string)
    | Candidate(service: string, tag: string)
    | Foreign(text: string)

  datatype Namespace = RetentionNamespace | CandidateNamespace

  predicate InNamespace(reference: Reference, namespace: Namespace) {
    match namespace
    case RetentionNamespace => reference.Retained?
    case CandidateNamespace => reference.Candidate?
  }

  datatype Slot = MapApi | MapUi | MapDagster | MapDagsterDaemon | PinviApi | PinviWeb | PinviDagster

  const RUNTIME_SLOTS := [MapApi, MapUi, MapDagster, MapDagsterDaemon, PinviApi, PinviWeb, PinviDagster]
  const CANDIDATE_TAG_SLOTS := [MapApi, MapUi, MapDagster, PinviApi, PinviWeb, PinviDagster]

  /** Which service carries each slot, if any, and the names of the Dagster families whatever carries them today. */
  datatype Topology = Topology(service: Slot -> Option<string>, familyNames: set<string>) {

    function ServicesFor(slots: seq<Slot>): set<string> {
      set slot | slot in slots && service(slot).Some? :: service(slot).value
    }

    function Names(namespace: Namespace): set<string> {
      ServicesFor(if namespace.RetentionNamespace? then RUNTIME_SLOTS else CANDIDATE_TAG_SLOTS) + familyNames
    }
  }

  /** A tag in a namespace whose text the namespace's pattern accepts. */
  predicate IsRecognised(reference: Reference, topology: Topology) {
    match reference
    case Retained(service, tag) => service in topology.Names(RetentionNamespace) && IsHex(tag, 64)
    case Candidate(service, tag) => service in topology.Names(CandidateNamespace) && IsHex(tag, 64)
    case Foreign(_) => true
  }

  datatype Store = Store(tags: map<Reference, string>, images: set<string>) {

    /** Every tag leads to an image that is there. */
    predicate WellFormed() {
      && (forall reference :: reference in tags ==> tags[reference] in images)
      && (forall image :: image in images ==> IsImageId(image))
    }

    function Tagged(image: string, reference: Reference): Store {
      this.(tags := tags[reference := image])
    }

    /** Removes a tag, and the image with it when that was its last tag. */
    function Untagged(reference: Reference): Store
      requires reference in tags
    {
      var left := tags - {reference};
      var image := tags[reference];
      Store(left, if exists other :: other in left && left[other] == image then images else images - {image})
    }

    function Owned(namespace: Namespace): set<Reference> {
      set reference | reference in tags && InNamespace(reference, namespace)
    }

    predicate Holds(desired: map<Reference, string>) {
      forall reference :: reference in desired ==> reference in tags && tags[reference] == desired[reference]
    }
  }

  /** What must be true of every state a reconciliation passes through, compared with the state it started from. */
  ghost predicate Safe(start: Store, now: Store, desired: map<Reference, string>, namespace: Namespace) {
    && now.WellFormed()
    // no wanted tag that existed is lost or moved
    && (forall reference :: reference in desired && reference in start.tags
          ==> reference in now.tags && now.tags[reference] == start.tags[reference])
    // nothing outside the namespace is touched
    && (forall reference :: !InNamespace(reference, namespace) ==>
        Get(now.tags, reference) == Get(start.tags, reference))
    // no active image is lost
    && (forall reference :: reference in desired && desired[reference] in start.images ==>
        desired[reference] in now.images)
    // nothing appears in the namespace but wanted tags
    && now.Owned(namespace) <= start.Owned(namespace) + desired.Keys
  }

  ghost function SafeStates(start: Store, desired: map<Reference, string>, namespace: Namespace): Store -> bool {
    now => Safe(start, now, desired, namespace)
  }

  /** Every state the commands left behind from position `from` on, and the present one, satisfy `safe`. */
  ghost predicate Throughout(history: seq<Store>, from: nat, now: Store, safe: Store -> bool) {
    from <= |history| && safe(now) && forall i :: from <= i < |history| ==> safe(history[i])
  }

  lemma ThroughoutNext(history: seq<Store>, from: nat, now: Store, safe: Store -> bool, next: Store)
    requires Throughout(history, from, now, safe) && safe(next)
    ensures Throughout(history + [next], from, next, safe)
  {}

  datatype Report = Report(ensured: nat, removed: nat)

  ghost predicate AllRecognised(store: Store, namespace: Namespace, topology: Topology) {
    forall reference :: reference in store.Owned(namespace) ==> IsRecognised(reference, topology)
  }

  class Docker {
    const reliable: bool            // no command fails
    var store: Store
    ghost var history: seq<Store>   // every state a command left behind

    constructor (reliable: bool, store: Store)
      ensures this.reliable == reliable && this.store == store && history == []
    {
      this.reliable, this.store := reliable, store;
      history := [];
    }

    method InspectReference(reference: Reference) returns (ok: bool, image: Option<string>)
      ensures ok ==> image == Get(store.tags, reference)
      ensures reliable ==> ok
    {
      image := Get(store.tags, reference);
      var answered: bool := *;
      ok := reliable || answered;
    }

    method InspectImage(image: string) returns (ok: bool, found: bool)
      ensures ok ==> found == (image in store.images)
      ensures reliable ==> ok
    {
      found := image in store.images;
      var answered: bool := *;
      ok := reliable || answered;
    }

    method TagImage(image: string, reference: Reference) returns (ok: bool)
      requires image in store.images
      modifies this`store, this`history
      ensures store == old(store) || store == old(store).Tagged(image, reference)
      ensures ok ==> store == old(store).Tagged(image, reference)
      ensures reliable ==> ok
      ensures history == old(history) + [store]
    {
      var tookEffect: bool, reported: bool := *, *;
      if reliable || tookEffect {
        store := store.Tagged(image, reference);
      }
      history := history + [store];
      ok := reliable || (tookEffect && reported);
    }

    method RemoveReference(reference: Reference) returns (ok: bool)
      requires reference in store.tags
      modifies this`store, this`history
      ensures store == old(store) || store == old(store).Untagged(reference)
      ensures ok ==> store == old(store).Untagged(reference)
      ensures reliable ==> ok
      ensures history == old(history) + [store]
    {
      var tookEffect: bool, reported: bool := *, *;
      if reliable || tookEffect {
        store := store.Untagged(reference);
      }
      history := history + [store];
      ok := reliable || (tookEffect && reported);
    }

    /** The namespace's tags; refused when one of them is not of the recognised form. */
    method ListOwned(namespace: Namespace, topology: Topology) returns (ok: bool, owned: map<Reference, string>)
      ensures ok ==> owned.Keys == store.Owned(namespace)
      ensures ok ==> forall reference :: reference in owned ==> owned[reference] == store.tags[reference]
      ensures ok ==> AllRecognised(store, namespace, topology)
      ensures reliable && AllRecognised(store, namespace, topology) ==> ok
    {
      owned := map reference | reference in store.tags && InNamespace(reference, namespace) :: store.tags[reference];
      var answered: bool := *;
      ok := (reliable || answered) && forall reference :: reference in owned ==> IsRecognised(reference, topology);
      assert owned.Keys == store.Owned(namespace);
    }
  }

  /** One image of a generation, with the service that carries it. */
  datatype Carried = Carried(service: string, image: string)

  predicate IsCarried(carried: Carried, topology: Topology) {
    carried.service in topology.ServicesFor(RUNTIME_SLOTS) && IsImageId(carried.image)
  }

  /** A pinned runtime generation: the pinset it was built from and the image of every slot. */
  datatype Generation = Generation(pinset: string, imageId: Slot -> string)

  /** The images to keep, slot by slot; a slot no service carries has none. */
  function CarriedBy(slots: seq<Slot>, generation: Generation, topology: Topology): seq<Carried> {
    if slots == [] then
      []
    else
      var rest := CarriedBy(slots[1..], generation, topology);
      match topology.service(slots[0])
      case Some(service) => [Carried(service, generation.imageId(slots[0]))] + rest
      case None => rest
  }

  function AllCarried(generations: seq<Generation>, topology: Topology): seq<Carried> {
    if generations == [] then
      []
    else
      CarriedBy(RUNTIME_SLOTS, generations[0], topology) + AllCarried(generations[1..], topology)
  }

  function ContentReference(carried: Carried): Reference
    requires |carried.image| >= |IMAGE_ID_PREFIX|
  {
    Retained(carried.service, carried.image[|IMAGE_ID_PREFIX|..])
  }

  /** A content reference names its image, so two images can never collide on one. */
  lemma ContentReferenceDeterminesImage(a: Carried, b: Carried)
    requires IsImageId(a.image) && IsImageId(b.image) && ContentReference(a) == ContentReference(b)
    ensures a == b
  {}

  predicate IsDesiredFor(desired: map<Reference, string>, images: seq<Carried>, topology: Topology) {
    && (forall carried :: carried in images ==>
          && IsCarried(carried, topology)
          && Get(desired, ContentReference(carried)) == Some(carried.image))
    && (forall reference :: reference in desired ==>
          && reference.Retained? && IsImageId(desired[reference])
          && Carried(reference.service, desired[reference]) in images
          && reference == ContentReference(Carried(reference.service, desired[reference])))
  }

  /** The generations alone determine the wanted tags. */
  lemma DesiredIsDetermined(a: map<Reference, string>, b: map<Reference, string>, images: seq<Carried>,
                            topology: Topology)
    requires IsDesiredFor(a, images, topology) && IsDesiredFor(b, images, topology)
    ensures a == b
  {}

  /** The wanted tags of all generations. The collision refusal in the loop is never taken. */
  method DesiredReferences(images: seq<Carried>, topology: Topology) returns (desired: Option<map<Reference, string>>)
    ensures desired.Some? <==> forall carried :: carried in images ==> IsCarried(carried, topology)
    ensures desired.Some? ==> IsDesiredFor(desired.value, images, topology)
  {
    var references: map<Reference, string> := map[];
    for i := 0 to |images|
      invariant IsDesiredFor(references, images[..i], topology)
    {
      var carried := images[i];
      if !IsCarried(carried, topology) {
        assert carried in images;
        return None;
      }
      assert images[..i + 1] == images[..i] + [carried];
      var reference := ContentReference(carried);
      if reference in references {
        ContentReferenceDeterminesImage(carried, Carried(reference.service, references[reference]));
        assert references[reference] == carried.image;
      } else {
        references := references[reference := carried.image];
      }
    }
    assert images[..|images|] == images;
    desired := Some(references);
  }

  /** Whether one wanted tag can be secured: it is right already, or its image is there to be tagged. */
  predicate CanSecureOne(store: Store, desired: map<Reference, string>, reference: Reference) {
    && reference in desired
    && if reference in store.tags then store.tags[reference] == desired[reference]
       else desired[reference] in store.images
  }

  /** What the additive step makes of one wanted tag that can be secured. */
  function Secured(store: Store, desired: map<Reference, string>, reference: Reference): Store
    requires reference in desired
  {
    if reference in store.tags then store else store.Tagged(desired[reference], reference)
  }

  /** The wanted tags in `done` have been secured in `now`, and nothing else differs from `start`. */
  ghost predicate IsSecured(start: Store, desired: map<Reference, string>, done: set<Reference>, now: Store) {
    && done <= desired.Keys
    && now.images == start.images
    && forall reference :: Get(now.tags, reference) ==
         if reference in done && reference !in start.tags then Some(desired[reference]) else Get(start.tags, reference)
  }

  /** A state of the additive step. */
  ghost predicate Securing(start: Store, desired: map<Reference, string>, now: Store) {
    exists done :: AllSecurable(start, desired, done) && IsSecured(start, desired, done, now)
  }

  predicate AllSecurable(start: Store, desired: map<Reference, string>, done: set<Reference>) {
    forall reference :: reference in done ==> CanSecureOne(start, desired, reference)
  }

  lemma SecuringIsSafe(start: Store, desired: map<Reference, string>, now: Store)
    requires start.WellFormed() && Securing(start, desired, now)
    requires forall reference :: reference in desired ==> reference.Retained?
    ensures Safe(start, now, desired, RetentionNamespace)
  {
    var done :| AllSecurable(start, desired, done) && IsSecured(start, desired, done, now);
    forall reference | reference in now.tags
      ensures now.tags[reference] in now.images
      ensures reference in start.tags || reference in desired
    {
      assert Get(now.tags, reference) == Some(now.tags[reference]);
    }
    forall reference | reference in start.tags
      ensures reference in now.tags && now.tags[reference] == start.tags[reference]
    {
      assert Get(now.tags, reference) == Get(start.tags, reference);
    }
  }

  lemma CountOneMore(before: set<Reference>, done: set<Reference>, reference: Reference)
    requires reference !in done
    ensures |(done + {reference}) - before| == |done - before| + if reference in before then 0 else 1
  {
    assert (done + {reference}) - before ==
           if reference in before then done - before else (done - before) + {reference};
  }

  lemma TakeOne<T>(all: set<T>, remaining: set<T>, taken: T)
    requires taken in remaining && remaining <= all
    ensures all - (remaining - {taken}) == (all - remaining) + {taken}
    ensures remaining - {taken} <= all
  {}

  /** Every state the commands left behind from position `from` on belongs to the additive step. */
  ghost predicate SecuringSince(history: seq<Store>, from: nat, start: Store, desired: map<Reference, string>) {
    from <= |history| && forall i :: from <= i < |history| ==> Securing(start, desired, history[i])
  }

  lemma SecuringSinceNext(history: seq<Store>, from: nat, start: Store, desired: map<Reference, string>, next: Store)
    requires SecuringSince(history, from, start, desired) && Securing(start, desired, next)
    ensures SecuringSince(history + [next], from, start, desired)
  {}

  lemma SecuringSinceIsSafe(history: seq<Store>, from: nat, start: Store, now: Store, desired: map<Reference, string>)
    requires SecuringSince(history, from, start, desired) && start.WellFormed() && Securing(start, desired, now)
    requires forall reference :: reference in desired ==> reference.Retained?
    ensures Throughout(history, from, now, SafeStates(start, desired, RetentionNamespace))
  {
    SecuringIsSafe(start, desired, now);
    forall i | from <= i < |history|
      ensures Safe(start, history[i], desired, RetentionNamespace)
    {
      SecuringIsSafe(start, desired, history[i]);
    }
  }

  lemma PrefixNext<T>(older: seq<T>, history: seq<T>, next: T)
    requires older <= history
    ensures older <= history + [next]
  {}

  lemma SecuredIsSecuring(start: Store, desired: map<Reference, string>, done: set<Reference>, now: Store)
    requires AllSecurable(start, desired, done) && IsSecured(start, desired, done, now)
    ensures Securing(start, desired, now)
  {}

  lemma SecureOneMore(start: Store, desired: map<Reference, string>, done: set<Reference>, now: Store,
                      reference: Reference)
    requires AllSecurable(start, desired, done) && IsSecured(start, desired, done, now)
    requires reference in desired && reference !in done
    ensures CanSecureOne(now, desired, reference) <==> CanSecureOne(start, desired, reference)
    ensures reference in now.tags <==> reference in start.tags
    ensures Securing(start, desired, now)
    ensures CanSecureOne(start, desired, reference) ==>
              && AllSecurable(start, desired, done + {reference})
              && IsSecured(start, desired, done + {reference}, Secured(now, desired, reference))
              && Securing(start, desired, Secured(now, desired, reference))
  {}

  /** Where the additive loop stands: which wanted tags it has secured, and what its commands have left behind. */
  ghost predicate Progress(start: Store, desired: map<Reference, string>, done: set<Reference>, docker: Docker,
                           before: seq<Store>)
    reads docker
  {
    && AllSecurable(start, desired, done)
    && IsSecured(start, desired, done, docker.store)
    && before <= docker.history
    && SecuringSince(docker.history, |before|, start, desired)
  }

  /** One turn of the additive loop: `Some(true)` if a tag was created, `Some(false)` if it was there already. */
  method SecureReference(docker: Docker, desired: map<Reference, string>, reference: Reference,
                         ghost start: Store, ghost done: set<Reference>, ghost before: seq<Store>)
    returns (created: Option<bool>)
    requires reference in desired && reference !in done && Progress(start, desired, done, docker, before)
    modifies docker`store, docker`history
    ensures created.Some? ==> Progress(start, desired, done + {reference}, docker, before)
                              && created.value == (reference !in start.tags)
    ensures created.None? ==> Securing(start, desired, docker.store)
                              && before <= docker.history && SecuringSince(docker.history, |before|, start, desired)
    ensures docker.reliable ==> (created.Some? <==> CanSecureOne(start, desired, reference))
  {
    SecureOneMore(start, desired, done, docker.store, reference);
    var image := desired[reference];
    var ok, observed := docker.InspectReference(reference);
    if !ok {
      return None;
    }
    if observed.Some? {
      if observed.value != image {
        return None;
      }
      return Some(false);
    }
    var answered, found := docker.InspectImage(image);
    if !answered || !found {
      return None;
    }
    ghost var history := docker.history;
    var tagged := docker.TagImage(image, reference);
    SecuringSinceNext(history, |before|, start, desired, docker.store);
    PrefixNext(before, history, docker.store);
    if !tagged {
      return None;
    }
    var again, verified := docker.InspectReference(reference);
    if !again || verified != Some(image) {
      return None;
    }
    created := Some(true);
  }

  /** `ensure_generation_references`: creates what is missing, touches nothing that is there. */
  method EnsureReferences(docker: Docker, desired: map<Reference, string>) returns (created: Option<nat>)
    modifies docker`store, docker`history
    ensures old(docker.history) <= docker.history
    ensures SecuringSince(docker.history, |old(docker.history)|, old(docker.store), desired)
    ensures Securing(old(docker.store), desired, docker.store)
    ensures created.Some? ==> AllSecurable(old(docker.store), desired, desired.Keys)
                              && IsSecured(old(docker.store), desired, desired.Keys, docker.store)
                              && created.value == |desired.Keys - old(docker.store).tags.Keys|
    ensures docker.reliable ==> (created.Some? <==> AllSecurable(old(docker.store), desired, desired.Keys))
  {
    ghost var start, before := docker.store, docker.history;
    var remaining, count := desired.Keys, 0;
    ghost var done: set<Reference> := {};
    SecuredIsSecuring(start, desired, {}, start);
    while remaining != {}
      invariant remaining <= desired.Keys && done == desired.Keys - remaining
      invariant Progress(start, desired, done, docker, before)
      invariant count == |done - start.tags.Keys|
      decreases remaining
    {
      var reference :| reference in remaining;
      CountOneMore(start.tags.Keys, done, reference);
      var secured := SecureReference(docker, desired, reference, start, done, before);
      if secured.None? {
        return None;
      }
      count := count + if secured.value then 1 else 0;
      TakeOne(desired.Keys, remaining, reference);
      done, remaining := done + {reference}, remaining - {reference};
    }
    assert done == desired.Keys;
    SecuredIsSecuring(start, desired, done, docker.store);
    created := Some(count);
  }

  /** `gone` includes the last tag of this image. */
  ghost predicate LosesImage(store: Store, gone: set<Reference>, image: string) {
    && (exists reference :: reference in gone && Get(store.tags, reference) == Some(image))
    && (forall reference :: Get(store.tags, reference) == Some(image) ==> reference in gone)
  }

  /** The store after all of these tags are gone, in whatever order. */
  ghost function Without(store: Store, gone: set<Reference>): Store {
    Store(store.tags - gone, set image | image in store.images && !LosesImage(store, gone, image))
  }

  lemma WithoutNone(store: Store)
    ensures Without(store, {}) == store
  {}

  lemma WithoutOneMore(store: Store, gone: set<Reference>, reference: Reference)
    requires reference in store.tags && reference !in gone
    ensures Without(store, gone).Untagged(reference) == Without(store, gone + {reference})
  {
    var before, after := Without(store, gone), Without(store, gone + {reference});
    var left := before.tags - {reference};
    assert left == after.tags;
    forall image
      ensures image in before.Untagged(reference).images <==> image in after.images
    {
      LosingOneMore(store, gone, reference, image);
      if exists other :: other in left && left[other] == store.tags[reference] {
        var other :| other in left && left[other] == store.tags[reference];
        assert Get(store.tags, other) == Some(store.tags[reference]) && other !in gone + {reference};
      } else {
        forall other | Get(store.tags, other) == Some(store.tags[reference])
          ensures other in gone + {reference}
        {
          assert other !in left;
        }
      }
    }
  }

  lemma LosingOneMore(store: Store, gone: set<Reference>, reference: Reference, image: string)
    requires reference in store.tags && reference !in gone
    ensures image != store.tags[reference] ==>
              (LosesImage(store, gone + {reference}, image) <==> LosesImage(store, gone, image))
    ensures !LosesImage(store, gone, store.tags[reference])
    ensures LosesImage(store, gone + {reference}, store.tags[reference]) <==>
              forall other :: Get(store.tags, other) == Some(store.tags[reference]) ==> other in gone + {reference}
  {}

  /** Every wanted image keeps a tag that is not among `gone`. */
  ghost predicate EachKeepsATag(store: Store, desired: map<Reference, string>, gone: set<Reference>) {
    forall active :: active in desired ==>
      exists keeper :: Get(store.tags, keeper) == Some(desired[active]) && keeper !in gone
  }

  lemma WithoutIsSafe(start: Store, store: Store, desired: map<Reference, string>, gone: set<Reference>,
                      namespace: Namespace)
    requires Safe(start, store, desired, namespace) && EachKeepsATag(store, desired, gone)
    requires gone !! desired.Keys && forall reference :: reference in gone ==> InNamespace(reference, namespace)
    ensures Safe(start, Without(store, gone), desired, namespace)
  {}

  /** Whichever of the stale tags are gone, the store is safe. */
  ghost predicate SafeToRemove(secured: Store, stale: set<Reference>, safe: Store -> bool) {
    forall gone :: gone <= stale ==> safe(Without(secured, gone))
  }

  lemma StaleIsSafeToRemove(start: Store, secured: Store, desired: map<Reference, string>, namespace: Namespace)
    requires Safe(start, secured, desired, namespace)
    requires EachKeepsATag(secured, desired, secured.Owned(namespace) - desired.Keys)
    ensures SafeToRemove(secured, secured.Owned(namespace) - desired.Keys, SafeStates(start, desired, namespace))
  {
    var stale := secured.Owned(namespace) - desired.Keys;
    forall gone | gone <= stale
      ensures Safe(start, Without(secured, gone), desired, namespace)
    {
      forall active | active in desired
        ensures exists keeper :: Get(secured.tags, keeper) == Some(desired[active]) && keeper !in gone
      {
        var keeper :| Get(secured.tags, keeper) == Some(desired[active]) && keeper !in stale;
      }
      WithoutIsSafe(start, secured, desired, gone, namespace);
    }
  }

  /** One `docker image rm` of a stale tag. Whatever happens, the state it leaves behind is safe. */
  method RemoveOne(docker: Docker, reference: Reference, ghost secured: Store, ghost stale: set<Reference>,
                   ghost gone: set<Reference>, ghost safe: Store -> bool, ghost before: seq<Store>) returns (ok: bool)
    requires reference in secured.tags && reference in stale && reference !in gone && gone <= stale
    requires SafeToRemove(secured, stale, safe) && docker.store == Without(secured, gone)
    requires before <= docker.history && Throughout(docker.history, |before|, docker.store, safe)
    modifies docker`store, docker`history
    ensures ok ==> docker.store == Without(secured, gone + {reference})
    ensures before <= docker.history && Throughout(docker.history, |before|, docker.store, safe)
    ensures docker.reliable ==> ok
  {
    WithoutOneMore(secured, gone, reference);
    assert safe(Without(secured, gone + {reference}));
    ghost var history, now := docker.history, docker.store;
    ok := docker.RemoveReference(reference);
    ThroughoutNext(history, |before|, now, safe, docker.store);
    PrefixNext(before, history, docker.store);
  }

  /** Re-inspects every wanted tag. */
  method VerifyHeld(docker: Docker, desired: map<Reference, string>) returns (ok: bool)
    ensures ok ==> docker.store.Holds(desired)
    ensures docker.reliable ==> (ok <==> docker.store.Holds(desired))
  {
    var remaining := desired.Keys;
    while remaining != {}
      invariant remaining <= desired.Keys
      invariant forall reference :: reference in desired && reference !in remaining ==>
                                      Get(docker.store.tags, reference) == Some(desired[reference])
      decreases remaining
    {
      var reference :| reference in remaining;
      var answered, image := docker.InspectReference(reference);
      if !answered || image != Some(desired[reference]) {
        return false;
      }
      remaining := remaining - {reference};
    }
    ok := true;
  }

  /** A tag of the image went, and none is left. */
  ghost predicate LastTagWent(start: Store, now: Store, image: string) {
    && (exists reference :: Get(start.tags, reference) == Some(image) && reference !in now.tags)
    && (forall reference :: Get(now.tags, reference) != Some(image))
  }

  /** The outcome of a reconciliation: the namespace holds exactly the wanted tags; all other tags are as they were. */
  ghost predicate Reconciled(start: Store, desired: map<Reference, string>, namespace: Namespace, now: Store) {
    && (forall reference :: Get(now.tags, reference) ==
          if InNamespace(reference, namespace) then Get(desired, reference) else Get(start.tags, reference))
    && (forall image :: image in now.images <==> image in start.images && !LastTagWent(start, now, image))
  }

  /** Removing all stale tags from a store that holds the wanted ones is the outcome above. */
  lemma WithoutStaleIsReconciled(start: Store, secured: Store, desired: map<Reference, string>, namespace: Namespace)
    requires forall reference :: reference in desired ==> InNamespace(reference, namespace)
    requires secured.images == start.images && secured.Holds(desired)
    requires forall reference :: reference !in desired || reference in start.tags ==>
                                   Get(secured.tags, reference) == Get(start.tags, reference)
    ensures Reconciled(start, desired, namespace, Without(secured, secured.Owned(namespace) - desired.Keys))
    ensures secured.Owned(namespace) - desired.Keys == start.Owned(namespace) - desired.Keys
  {}

  /** In a store already reconciled there is nothing to secure and nothing to remove. */
  lemma NothingLeftToDo(start: Store, desired: map<Reference, string>, namespace: Namespace, now: Store)
    requires Reconciled(start, desired, namespace, now)
    requires forall reference :: reference in desired ==> InNamespace(reference, namespace)
    ensures now.Owned(namespace) == desired.Keys && now.Holds(desired)
    ensures |desired.Keys - now.tags.Keys| == 0 && |now.Owned(namespace) - desired.Keys| == 0
    ensures AllSecurable(now, desired, desired.Keys)
  {}

  lemma SecuredHolds(start: Store, desired: map<Reference, string>, secured: Store)
    requires AllSecurable(start, desired, desired.Keys) && IsSecured(start, desired, desired.Keys, secured)
    requires forall reference :: reference in desired ==> reference.Retained?
    ensures secured.Holds(desired) && secured.images == start.images
    ensures forall reference :: reference !in desired || reference in start.tags ==>
                                  Get(secured.tags, reference) == Get(start.tags, reference)
    ensures EachKeepsATag(secured, desired, secured.Owned(RetentionNamespace) - desired.Keys)
  {}

  ghost predicate CanReconcile(start: Store, desired: map<Reference, string>, topology: Topology) {
    && AllSecurable(start, desired, desired.Keys)
    && AllRecognised(start, RetentionNamespace, topology)
    && forall reference :: reference in desired ==> IsRecognised(reference, topology)
  }

  /** What a reconciliation reports: the wanted tags that were missing and the stale ones that were there. */
  function ReportOf(start: Store, desired: map<Reference, string>): Report {
    Report(|desired.Keys - start.tags.Keys|, |start.Owned(RetentionNamespace) - desired.Keys|)
  }

  lemma SecuredIsAsRecognised(start: Store, desired: map<Reference, string>, secured: Store, topology: Topology)
    requires AllSecurable(start, desired, desired.Keys) && IsSecured(start, desired, desired.Keys, secured)
    requires forall reference :: reference in desired ==> reference.Retained?
    ensures AllRecognised(secured, RetentionNamespace, topology) <==> CanReconcile(start, desired, topology)
  {}

  /**
   * The removing loop: one `docker image rm` after another, given up at the first failure. For candidate tags
   * each one is inspected before and after.
   */
  method RemoveAll(docker: Docker, stale: set<Reference>, inspecting: bool, secured: Store, ghost safe: Store -> bool,
                   ghost before: seq<Store>) returns (ok: bool)
    requires stale <= secured.tags.Keys && SafeToRemove(secured, stale, safe) && docker.store == secured
    requires before <= docker.history && Throughout(docker.history, |before|, docker.store, safe)
    modifies docker`store, docker`history
    ensures ok ==> docker.store == Without(secured, stale)
    ensures before <= docker.history && Throughout(docker.history, |before|, docker.store, safe)
    ensures docker.reliable ==> ok
  {
    var remaining := stale;
    ghost var gone: set<Reference> := {};
    WithoutNone(secured);
    while remaining != {}
      invariant remaining <= stale && gone == stale - remaining
      invariant docker.store == Without(secured, gone)
      invariant before <= docker.history && Throughout(docker.history, |before|, docker.store, safe)
      decreases remaining
    {
      var reference :| reference in remaining;
      TakeOne(stale, remaining, reference);
      if inspecting {
        var answered, image := docker.InspectReference(reference);
        if !answered || image != Some(secured.tags[reference]) {
          return false;
        }
      }
      ok := RemoveOne(docker, reference, secured, stale, gone, safe, before);
      if !ok {
        return;
      }
      gone, remaining := gone + {reference}, remaining - {reference};
      if inspecting {
        var answered, image := docker.InspectReference(reference);
        if !answered || image.Some? {
          return false;
        }
      }
    }
    assert gone == stale;
    ok := true;
  }

  lemma FewerAreRecognised(store: Store, gone: set<Reference>, namespace: Namespace, topology: Topology)
    ensures AllRecognised(store, namespace, topology) ==> AllRecognised(Without(store, gone), namespace, topology)
  {}

  /** Removes the stale tags of a namespace, lists it again and re-inspects the wanted ones. */
  method RemoveStale(docker: Docker, desired: map<Reference, string>, stale: set<Reference>, namespace: Namespace,
                     topology: Topology, ghost safe: Store -> bool, ghost before: seq<Store>) returns (ok: bool)
    requires stale <= docker.store.tags.Keys && SafeToRemove(docker.store, stale, safe)
    requires Without(docker.store, stale).Owned(namespace) == desired.Keys
    requires Without(docker.store, stale).Holds(desired)
    requires before <= docker.history && Throughout(docker.history, |before|, docker.store, safe)
    modifies docker`store, docker`history
    ensures before <= docker.history && Throughout(docker.history, |before|, docker.store, safe)
    ensures ok ==> docker.store == Without(old(docker.store), stale)
    ensures docker.reliable && AllRecognised(old(docker.store), namespace, topology) ==> ok
  {
    FewerAreRecognised(docker.store, stale, namespace, topology);
    ok := RemoveAll(docker, stale, namespace.CandidateNamespace?, docker.store, safe, before);
    if !ok {
      return;
    }
    var relisted, left := docker.ListOwned(namespace, topology);
    if !relisted || left.Keys != desired.Keys || (namespace.CandidateNamespace? && left != desired) {
      return false;
    }
    ok := VerifyHeld(docker, desired);
  }

  /** The part of `reconcile_generation_references` that follows once the wanted tags are known. */
  method ReconcileRetained(docker: Docker, desired: map<Reference, string>, topology: Topology)
    returns (report: Option<Report>)
    requires docker.store.WellFormed() && forall reference :: reference in desired ==> reference.Retained?
    modifies docker`store, docker`history
    ensures report.Some? ==> CanReconcile(old(docker.store), desired, topology)
    ensures docker.reliable && CanReconcile(old(docker.store), desired, topology) ==> report.Some?
    ensures old(docker.history) <= docker.history
    ensures Throughout(docker.history, |old(docker.history)|, docker.store,
                       SafeStates(old(docker.store), desired, RetentionNamespace))
    ensures report.Some? ==> Reconciled(old(docker.store), desired, RetentionNamespace, docker.store)
    ensures report.Some? ==> report.value == ReportOf(old(docker.store), desired)
  {
    ghost var start, before := docker.store, docker.history;
    ghost var safe := SafeStates(start, desired, RetentionNamespace);
    report := None;
    var ensured := EnsureReferences(docker, desired);
    SecuringSinceIsSafe(docker.history, |before|, start, docker.store, desired);
    if ensured.None? {
      return;
    }
    SecuredHolds(start, desired, docker.store);
    SecuredIsAsRecognised(start, desired, docker.store, topology);
    var listed, owned := docker.ListOwned(RetentionNamespace, topology);
    if !listed {
      return;
    }
    var stale := owned.Keys - desired.Keys;
    StaleIsSafeToRemove(start, docker.store, desired, RetentionNamespace);
    WithoutStaleIsReconciled(start, docker.store, desired, RetentionNamespace);
    NothingLeftToDo(start, desired, RetentionNamespace, Without(docker.store, stale));
    var removed := RemoveStale(docker, desired, stale, RetentionNamespace, topology, safe, before);
    if removed {
      report := Some(Report(ensured.value, |stale|));
    }
  }

  predicate CanCarryAll(generations: seq<Generation>, topology: Topology) {
    forall carried :: carried in AllCarried(generations, topology) ==> IsCarried(carried, topology)
  }

  lemma DesiredIsRecognised(desired: map<Reference, string>, images: seq<Carried>, topology: Topology)
    requires IsDesiredFor(desired, images, topology)
    requires forall carried :: carried in images ==> IsCarried(carried, topology)
    ensures forall reference :: reference in desired ==> IsRecognised(reference, topology)
  {}

  /**
   * `reconcile_generation_references`: secures every wanted tag, then removes the stale ones. On every exit, every
   * state on the way was safe; a refused request runs no command at all.
   */
  method ReconcileGeneration(docker: Docker, generations: seq<Generation>, topology: Topology)
    returns (report: Option<Report>, ghost desired: map<Reference, string>)
    requires docker.store.WellFormed()
    modifies docker`store, docker`history
    ensures !CanCarryAll(generations, topology) ==>
              docker.store == old(docker.store) && docker.history == old(docker.history)
    ensures CanCarryAll(generations, topology) ==> IsDesiredFor(desired, AllCarried(generations, topology), topology)
    ensures report.Some? ==> CanCarryAll(generations, topology) && CanReconcile(old(docker.store), desired, topology)
    ensures docker.reliable && CanCarryAll(generations, topology) ==>
              CanReconcile(old(docker.store), desired, topology) ==> report.Some?
    ensures old(docker.history) <= docker.history
    ensures Throughout(docker.history, |old(docker.history)|, docker.store,
                       SafeStates(old(docker.store), desired, RetentionNamespace))
    ensures report.Some? ==> Reconciled(old(docker.store), desired, RetentionNamespace, docker.store)
    ensures report.Some? ==> report.value == ReportOf(old(docker.store), desired)
  {
    desired := map[];
    var wanted := DesiredReferences(AllCarried(generations, topology), topology);
    if wanted.None? {
      return None, desired;
    }
    desired := wanted.value;
    DesiredIsRecognised(desired, AllCarried(generations, topology), topology);
    report := ReconcileRetained(docker, wanted.value, topology);
  }

  /** Reconciling a reconciled store changes nothing. */
  lemma ReconcilingTwiceIsOnce(start: Store, desired: map<Reference, string>, namespace: Namespace, once: Store,
                               twice: Store)
    requires Reconciled(start, desired, namespace, once) && Reconciled(once, desired, namespace, twice)
    ensures twice == once
  {
    forall reference
      ensures Get(twice.tags, reference) == Get(once.tags, reference)
    {
      assert Get(once.tags, reference) ==
             if InNamespace(reference, namespace) then Get(desired, reference) else Get(start.tags, reference);
    }
    SameLookups(twice.tags, once.tags);
    assert twice.images == once.images;
  }

  /** An immediate second run finds nothing to do, and changes nothing. */
  method ReconcileAgain(docker: Docker, generations: seq<Generation>, topology: Topology)
    returns (first: Option<Report>, second: Option<Report>, ghost between: Store)
    requires docker.store.WellFormed()
    modifies docker`store, docker`history
    ensures first.Some? && second.Some? ==> second.value == Report(0, 0) && docker.store == between
    ensures docker.reliable && first.Some? ==> second.Some?
  {
    ghost var desired, again;
    ghost var start := docker.store;
    first, desired := ReconcileGeneration(docker, generations, topology);
    between := docker.store;
    if first.None? {
      return first, None, between;
    }
    NothingLeftToDo(start, desired, RetentionNamespace, between);
    second, again := ReconcileGeneration(docker, generations, topology);
    DesiredIsDetermined(desired, again, AllCarried(generations, topology), topology);
    if second.Some? {
      ReconcilingTwiceIsOnce(start, desired, RetentionNamespace, between, docker.store);
    }
  }

  /** The tag this slot's build was given is the one it must have. */
  predicate IsSlotCandidate(slot: Slot, references: map<Slot, Reference>, generation: Generation, topology: Topology) {
    && slot in references
    && topology.service(slot).Some?
    && references[slot] == Candidate(topology.service(slot).value, generation.pinset)
    && IsImageId(generation.imageId(slot))
  }

  predicate AreSlotCandidates(slots: seq<Slot>, references: map<Slot, Reference>, generation: Generation,
                              topology: Topology)
  {
    && (forall slot :: slot in slots ==> IsSlotCandidate(slot, references, generation, topology))
    && forall i, j :: 0 <= i < j < |slots| ==> Get(references, slots[i]) != Get(references, slots[j])
  }

  predicate IsCandidateRequest(references: map<Slot, Reference>, generation: Generation, topology: Topology) {
    && references.Keys == (set slot | slot in CANDIDATE_TAG_SLOTS)
    && IsHex(generation.pinset, 64)
    && AreSlotCandidates(CANDIDATE_TAG_SLOTS, references, generation, topology)
  }

  predicate AreDesiredCandidates(desired: map<Reference, string>, slots: seq<Slot>, references: map<Slot, Reference>,
                                 generation: Generation)
    requires forall slot :: slot in slots ==> slot in references
  {
    && (forall i :: 0 <= i < |slots| ==> Get(desired, references[slots[i]]) == Some(generation.imageId(slots[i])))
    && (forall reference :: reference in desired ==> exists i :: 0 <= i < |slots| && references[slots[i]] == reference)
  }

  /** The loop of `_desired_candidate_references`. */
  method CollectCandidates(slots: seq<Slot>, references: map<Slot, Reference>, generation: Generation,
                           topology: Topology)
    returns (desired: Option<map<Reference, string>>)
    requires forall slot :: slot in slots ==> slot in references
    ensures desired.Some? <==> AreSlotCandidates(slots, references, generation, topology)
    ensures desired.Some? ==> AreDesiredCandidates(desired.value, slots, references, generation)
  {
    var wanted: map<Reference, string> := map[];
    for i := 0 to |slots|
      invariant AreDesiredCandidates(wanted, slots[..i], references, generation)
      invariant AreSlotCandidates(slots[..i], references, generation, topology)
    {
      var slot := slots[i];
      assert slot in slots;
      var reference, service := references[slot], topology.service(slot);
      if
        || service.None?
        || reference != Candidate(service.value, generation.pinset)
        || !IsImageId(generation.imageId(slot))
      {
        assert !IsSlotCandidate(slot, references, generation, topology);
        return None;
      }
      if reference in wanted {
        var j :| 0 <= j < i && references[slots[..i][j]] == reference;
        assert Get(references, slots[j]) == Get(references, slots[i]);
        return None;
      }
      CollectOneMore(wanted, slots, i, references, generation, topology);
      wanted := wanted[reference := generation.imageId(slot)];
    }
    assert slots[..|slots|] == slots;
    desired := Some(wanted);
  }

  lemma CollectOneMore(wanted: map<Reference, string>, slots: seq<Slot>, i: nat, references: map<Slot, Reference>,
                       generation: Generation, topology: Topology)
    requires i < |slots| && forall slot :: slot in slots ==> slot in references
    requires AreDesiredCandidates(wanted, slots[..i], references, generation)
    requires AreSlotCandidates(slots[..i], references, generation, topology)
    requires IsSlotCandidate(slots[i], references, generation, topology) && references[slots[i]] !in wanted
    ensures AreDesiredCandidates(wanted[references[slots[i]] := generation.imageId(slots[i])], slots[..i + 1],
                                 references, generation)
    ensures AreSlotCandidates(slots[..i + 1], references, generation, topology)
  {
    assert slots[..i + 1] == slots[..i] + [slots[i]];
    OneMoreDesired(wanted, slots[..i], slots[i], references, generation);
    OneMoreSlot(wanted, slots[..i], slots[i], references, generation, topology);
  }

  lemma OneMoreDesired(wanted: map<Reference, string>, before: seq<Slot>, slot: Slot, references: map<Slot, Reference>,
                       generation: Generation)
    requires forall other :: other in before + [slot] ==> other in references
    requires AreDesiredCandidates(wanted, before, references, generation) && references[slot] !in wanted
    ensures AreDesiredCandidates(wanted[references[slot] := generation.imageId(slot)], before + [slot],
                                 references, generation)
  {
    var next, longer := wanted[references[slot] := generation.imageId(slot)], before + [slot];
    assert longer[|before|] == slot;
    forall reference | reference in wanted
      ensures exists j :: 0 <= j < |longer| && references[longer[j]] == reference
    {
      var j :| 0 <= j < |before| && references[before[j]] == reference;
      assert longer[j] == before[j];
    }
    forall j | 0 <= j < |before|
      ensures Get(next, references[longer[j]]) == Some(generation.imageId(longer[j]))
    {
      assert Get(wanted, references[before[j]]).Some?;
    }
  }

  lemma OneMoreSlot(wanted: map<Reference, string>, before: seq<Slot>, slot: Slot, references: map<Slot, Reference>,
                    generation: Generation, topology: Topology)
    requires forall other :: other in before + [slot] ==> other in references
    requires AreDesiredCandidates(wanted, before, references, generation) && references[slot] !in wanted
    requires AreSlotCandidates(before, references, generation, topology)
    requires IsSlotCandidate(slot, references, generation, topology)
    ensures AreSlotCandidates(before + [slot], references, generation, topology)
  {
    var longer := before + [slot];
    forall i, j | 0 <= i < j < |longer|
      ensures Get(references, longer[i]) != Get(references, longer[j])
    {
      assert Get(wanted, references[before[i]]).Some?;
    }
  }

  /** `_desired_candidate_references` */
  method DesiredCandidates(references: map<Slot, Reference>, generation: Generation, topology: Topology)
    returns (desired: Option<map<Reference, string>>)
    ensures desired.Some? <==> IsCandidateRequest(references, generation, topology)
    ensures desired.Some? ==> AreDesiredCandidates(desired.value, CANDIDATE_TAG_SLOTS, references, generation)
  {
    if references.Keys != (set slot | slot in CANDIDATE_TAG_SLOTS) || !IsHex(generation.pinset, 64) {
      return None;
    }
    desired := CollectCandidates(CANDIDATE_TAG_SLOTS, references, generation, topology);
  }

  /** The slot's image is retained under its content reference. */
  predicate IsContentRetained(store: Store, slot: Slot, generation: Generation, topology: Topology) {
    && topology.service(slot).Some?
    && IsImageId(generation.imageId(slot))
    && Get(store.tags, ContentReference(Carried(topology.service(slot).value, generation.imageId(slot)))) ==
      Some(generation.imageId(slot))
  }

  /** Refuses to clean up unless every active image is retained under its content reference. */
  method RequireContentReferences(docker: Docker, slots: seq<Slot>, generation: Generation, topology: Topology)
    returns (ok: bool)
    ensures ok ==> forall slot :: slot in slots ==> IsContentRetained(docker.store, slot, generation, topology)
    ensures docker.reliable ==>
              (forall slot :: slot in slots ==> IsContentRetained(docker.store, slot, generation, topology)) ==> ok
  {
    for i := 0 to |slots|
      invariant forall j :: 0 <= j < i ==> IsContentRetained(docker.store, slots[j], generation, topology)
    {
      var service, image := topology.service(slots[i]), generation.imageId(slots[i]);
      assert slots[i] in slots;
      if service.None? || !IsImageId(image) {
        return false;
      }
      var answered, found := docker.InspectReference(ContentReference(Carried(service.value, image)));
      if !answered || found != Some(image) {
        return false;
      }
    }
    ok := true;
  }

  ghost predicate CanReconcileCandidates(store: Store, desired: map<Reference, string>, generation: Generation,
                                         topology: Topology)
  {
    && (forall slot :: slot in CANDIDATE_TAG_SLOTS ==> IsContentRetained(store, slot, generation, topology))
    && AllRecognised(store, CandidateNamespace, topology)
    && store.Holds(desired)
  }

  /** A retained content reference outlives the removal of candidate tags. */
  lemma CandidatesKeepATag(store: Store, desired: map<Reference, string>, slots: seq<Slot>,
                           references: map<Slot, Reference>, generation: Generation, topology: Topology)
    requires forall slot :: slot in slots ==> IsContentRetained(store, slot, generation, topology) && slot in references
    requires AreDesiredCandidates(desired, slots, references, generation)
    ensures EachKeepsATag(store, desired, store.Owned(CandidateNamespace) - desired.Keys)
  {}

  lemma CandidatesAreCandidates(desired: map<Reference, string>, references: map<Slot, Reference>,
                                generation: Generation, topology: Topology)
    requires IsCandidateRequest(references, generation, topology)
    requires AreDesiredCandidates(desired, CANDIDATE_TAG_SLOTS, references, generation)
    ensures forall reference :: reference in desired ==> InNamespace(reference, CandidateNamespace)
  {}

  /** The part of `reconcile_candidate_build_references` that follows once the content references are verified. */
  method RemoveStaleCandidates(docker: Docker, desired: map<Reference, string>, topology: Topology)
    returns (removed: Option<nat>)
    requires docker.store.WellFormed()
    requires forall reference :: reference in desired ==> InNamespace(reference, CandidateNamespace)
    requires EachKeepsATag(docker.store, desired, docker.store.Owned(CandidateNamespace) - desired.Keys)
    modifies docker`store, docker`history
    ensures removed.Some? ==>
              AllRecognised(old(docker.store), CandidateNamespace, topology) && old(docker.store).Holds(desired)
    ensures docker.reliable && AllRecognised(old(docker.store), CandidateNamespace, topology) ==>
              old(docker.store).Holds(desired) ==> removed.Some?
    ensures old(docker.history) <= docker.history
    ensures Throughout(docker.history, |old(docker.history)|, docker.store,
                       SafeStates(old(docker.store), desired, CandidateNamespace))
    ensures removed.Some? ==> Reconciled(old(docker.store), desired, CandidateNamespace, docker.store)
    ensures removed.Some? ==> removed.value == |old(docker.store).Owned(CandidateNamespace) - desired.Keys|
  {
    ghost var start, before := docker.store, docker.history;
    ghost var safe := SafeStates(start, desired, CandidateNamespace);
    StartIsSafe(start, desired, CandidateNamespace);
    removed := None;
    var listed, owned := docker.ListOwned(CandidateNamespace, topology);
    if !listed || exists reference :: reference in desired && Get(owned, reference) != Some(desired[reference]) {
      return;
    }
    var held := VerifyHeld(docker, desired);
    if !held {
      return;
    }
    var stale := owned.Keys - desired.Keys;
    StaleIsSafeToRemove(start, docker.store, desired, CandidateNamespace);
    WithoutStaleIsReconciled(start, docker.store, desired, CandidateNamespace);
    NothingLeftToDo(start, desired, CandidateNamespace, Without(docker.store, stale));
    var ok := RemoveStale(docker, desired, stale, CandidateNamespace, topology, safe, before);
    if ok {
      removed := Some(|stale|);
    }
  }

  lemma StartIsSafe(start: Store, desired: map<Reference, string>, namespace: Namespace)
    requires start.WellFormed()
    ensures Safe(start, start, desired, namespace)
  {}

  /**
   * `reconcile_candidate_build_references`: keeps only the active pinset's candidate tags. On every exit, every state
   * on the way was safe; in particular no active image was lost. A refused request runs no command at all.
   */
  method ReconcileCandidates(docker: Docker, references: map<Slot, Reference>, generation: Generation,
                             topology: Topology)
    returns (report: Option<Report>, ghost desired: map<Reference, string>)
    requires docker.store.WellFormed()
    modifies docker`store, docker`history
    ensures !IsCandidateRequest(references, generation, topology) ==>
              docker.store == old(docker.store) && docker.history == old(docker.history)
    ensures IsCandidateRequest(references, generation, topology) ==>
              AreDesiredCandidates(desired, CANDIDATE_TAG_SLOTS, references, generation)
    ensures report.Some? ==> IsCandidateRequest(references, generation, topology)
                             && CanReconcileCandidates(old(docker.store), desired, generation, topology)
    ensures docker.reliable && IsCandidateRequest(references, generation, topology) ==>
              (report.Some? <==> CanReconcileCandidates(old(docker.store), desired, generation, topology))
    ensures old(docker.history) <= docker.history
    ensures Throughout(docker.history, |old(docker.history)|, docker.store,
                       SafeStates(old(docker.store), desired, CandidateNamespace))
    ensures report.Some? ==> Reconciled(old(docker.store), desired, CandidateNamespace, docker.store)
    ensures report.Some? ==> report.value == Report(0, |old(docker.store).Owned(CandidateNamespace) - desired.Keys|)
  {
    desired := map[];
    report := None;
    StartIsSafe(docker.store, desired, CandidateNamespace);
    var wanted := DesiredCandidates(references, generation, topology);
    if wanted.None? {
      return;
    }
    desired := wanted.value;
    CandidatesAreCandidates(desired, references, generation, topology);
    StartIsSafe(docker.store, desired, CandidateNamespace);
    var retained := RequireContentReferences(docker, CANDIDATE_TAG_SLOTS, generation, topology);
    if !retained {
      return;
    }
    CandidatesKeepATag(docker.store, desired, CANDIDATE_TAG_SLOTS, references, generation, topology);
    var removed := RemoveStaleCandidates(docker, wanted.value, topology);
    if removed.Some? {
      report := Some(Report(0, removed.value));
    }
  }

  /** The request alone determines the wanted candidate tags. */
  lemma CandidatesAreDetermined(a: map<Reference, string>, b: map<Reference, string>, slots: seq<Slot>,
                                references: map<Slot, Reference>, generation: Generation)
    requires forall slot :: slot in slots ==> slot in references
    requires AreDesiredCandidates(a, slots, references, generation)
    requires AreDesiredCandidates(b, slots, references, generation)
    ensures a == b
  {
    forall reference
      ensures Get(a, reference) == Get(b, reference)
    {
      if i :| 0 <= i < |slots| && references[slots[i]] == reference {
        assert Get(a, references[slots[i]]) == Get(b, references[slots[i]]);
      }
    }
    SameLookups(a, b);
  }

  /** Afterwards the same request can be met again, with nothing left to remove. */
  lemma CandidatesStayReconcilable(start: Store, desired: map<Reference, string>, now: Store,
                                   references: map<Slot, Reference>, generation: Generation, topology: Topology)
    requires IsCandidateRequest(references, generation, topology)
    requires AreDesiredCandidates(desired, CANDIDATE_TAG_SLOTS, references, generation)
    requires CanReconcileCandidates(start, desired, generation, topology)
    requires Reconciled(start, desired, CandidateNamespace, now)
    ensures CanReconcileCandidates(now, desired, generation, topology)
    ensures |now.Owned(CandidateNamespace) - desired.Keys| == 0
  {
    CandidatesAreCandidates(desired, references, generation, topology);
    NothingLeftToDo(start, desired, CandidateNamespace, now);
    forall slot | slot in CANDIDATE_TAG_SLOTS
      ensures IsContentRetained(now, slot, generation, topology)
    {
      assert IsContentRetained(start, slot, generation, topology);
    }
    assert now.Holds(desired);
    CandidatesAreRecognised(desired, references, generation, topology);
  }

  lemma CandidatesAreRecognised(desired: map<Reference, string>, references: map<Slot, Reference>,
                                generation: Generation, topology: Topology)
    requires IsCandidateRequest(references, generation, topology)
    requires AreDesiredCandidates(desired, CANDIDATE_TAG_SLOTS, references, generation)
    ensures forall reference :: reference in desired ==> IsRecognised(reference, topology)
  {}

  /** An immediate second run for the same candidates finds nothing to remove, and changes nothing. */
  method ReconcileCandidatesAgain(docker: Docker, references: map<Slot, Reference>, generation: Generation,
                                  topology: Topology)
    returns (first: Option<Report>, second: Option<Report>, ghost between: Store)
    requires docker.store.WellFormed()
    modifies docker`store, docker`history
    ensures first.Some? && second.Some? ==> second.value == Report(0, 0) && docker.store == between
    ensures docker.reliable && first.Some? ==> second.Some?
  {
    ghost var desired, again;
    ghost var start := docker.store;
    first, desired := ReconcileCandidates(docker, references, generation, topology);
    between := docker.store;
    if first.None? {
      return first, None, between;
    }
    CandidatesStayReconcilable(start, desired, between, references, generation, topology);
    second, again := ReconcileCandidates(docker, references, generation, topology);
    CandidatesAreDetermined(desired, again, CANDIDATE_TAG_SLOTS, references, generation);
    if second.Some? {
      ReconcilingTwiceIsOnce(start, desired, CandidateNamespace, between, docker.store);
    }
  }
}
