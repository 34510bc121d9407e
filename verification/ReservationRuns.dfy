/** Whole runs of the reservation protocol, one plugin call after another: what survives every failing call,
    what TTL cleanup and PostBind may delete, and the exact step that leaves a gang marked without an object. */
module ReservationRuns {
  import opened Collections
  import opened Text
  import opened PodGroups
  import opened Reservations

  datatype Event =
    | PreFilterCall(ns: Namespace, m: Membership, faults: Faults, now: int)
    | PostBindCall(ns: Namespace, m: Membership, listing: Option<seq<Pod>>, faults: Faults)
    | CleanupTurn(ns: Namespace, group: string, listing: Option<seq<Pod>>, faults: Faults, now: int)
    | Restart

  ghost predicate Step(s: ProtocolState, e: Event, s': ProtocolState) {
    match e
    case PreFilterCall(ns, m, faults, now) => s' == PreFilterStep(s, ns, m, faults, now)
    case PostBindCall(ns, m, listing, faults) => PostBindStep(s, ns, m, listing, faults, s')
    case CleanupTurn(ns, g, listing, faults, now) => CleanupStep(s, ns, g, listing, faults, now, s')
    case Restart => s' == s.(created := {})
  }

  /** A run begins with the process: nothing is marked, and objects of earlier processes may be there. */
  ghost predicate IsRun(states: seq<ProtocolState>, events: seq<Event>) {
    && |states| == |events| + 1
    && states[0].created == {} && OwnObjects(states[0])
    && forall i :: 0 <= i < |events| ==> Step(states[i], events[i], states[i + 1])
  }

  ghost predicate Marked(s: ProtocolState, ns: Namespace, g: string) { GangKey(ns, g) in s.created }

  /** The promise: a gang believed to hold a reservation has one on the server. */
  ghost predicate MarkedGangsHaveObjects(s: ProtocolState) {
    forall ns: Namespace, g :: Marked(s, ns, g) ==> IdOf(ns, g) in s.store
  }

  /** The object was made by the plugin: named after its label, with our finalizer or none. */
  ghost predicate OwnObject(id: ObjectId, r: Reservation) {
    id.name == ReservationName(r.group) && forall f :: f in r.finalizers ==> f == OurFinalizer
  }

  ghost predicate OwnObjects(s: ProtocolState) {
    forall id :: id in s.store ==> OwnObject(id, s.store[id])
  }

  lemma OnlyOursStripsToNothing(r: Reservation)
    requires forall f :: f in r.finalizers ==> f == OurFinalizer
    ensures |Others(r.finalizers, OurFinalizer)| == 0
    ensures OurFinalizer !in r.finalizers ==> |r.finalizers| == 0
  {
    forall i | 0 <= i < |r.finalizers| ensures r.finalizers[i] == OurFinalizer {
      assert r.finalizers[i] in r.finalizers;
    }
    NothingElseToKeep(r.finalizers);
    if |r.finalizers| > 0 { assert r.finalizers[0] in r.finalizers; }
  }

  lemma {:induction false} NothingElseToKeep(fs: seq<Finalizer>)
    requires forall i :: 0 <= i < |fs| ==> fs[i] == OurFinalizer
    ensures |Others(fs, OurFinalizer)| == 0
  {
    if |fs| > 0 {
      NothingElseToKeep(fs[..|fs| - 1]);
    }
  }

  /** A gang's only object is the one named after it. */
  lemma ItemsAreTheGangsOwn(s: ProtocolState, ns: Namespace, g: string, id: ObjectId)
    requires OwnObjects(s) && Labelled(s.store, id, ns, g)
    ensures id == IdOf(ns, g)
  {
  }

  lemma RemovalKeepsOwnObject(id: ObjectId, r: Reservation, faults: Faults)
    requires OwnObject(id, r)
    ensures Remove(r, id, faults).left.Some? ==>
              var left := Remove(r, id, faults).left.value; OwnObject(id, left) && left.created == r.created
  {
    OnlyOursStripsToNothing(r);
  }

  lemma RemovedFromKeepsOwnObjects(s: ProtocolState, chosen: set<ObjectId>, faults: Faults, s': ProtocolState)
    requires OwnObjects(s) && RemovedFrom(s.store, chosen, faults, s'.store)
    ensures OwnObjects(s')
  {
    forall id | id in s'.store ensures OwnObject(id, s'.store[id]) {
      RemovalKeepsOwnObject(id, s.store[id], faults);
    }
  }

  lemma StepKeepsOwnObjects(s: ProtocolState, e: Event, s': ProtocolState)
    requires OwnObjects(s) && Step(s, e, s')
    ensures OwnObjects(s')
  {
    if s' == s { return; }
    match e
    case PreFilterCall(_, _, _, _) =>
    case PostBindCall(ns, m, _, faults) =>
      RemovedFromKeepsOwnObjects(s, ItemsOf(s.store, ns, m.name), faults, s');
    case CleanupTurn(ns, g, _, faults, now) =>
      RemovedFromKeepsOwnObjects(s, ExpiredItemsOf(s.store, ns, g, now), faults, s');
    case Restart =>
  }

  // ---- The exact failing step ----

  /** A cleanup turn of a marked, finished gang whose expired object goes without the delete reporting it:
      our finalizer is off or comes off, and either that alone removes the object, which was already being
      deleted, so that the delete finds nothing, or the delete removes it and its reply is lost. */
  ghost predicate StrandsTheMark(s: ProtocolState, e: Event) {
    && e.CleanupTurn? && Marked(s, e.ns, e.group) && '/' !in e.group && !e.faults.list
    && AllMembersRunning(e.listing, e.group)
    && var id := IdOf(e.ns, e.group);
       && id in s.store && s.store[id].group == e.group
       && e.now - s.store[id].created > RESERVATION_TTL
       && var ours := OurFinalizer in s.store[id].finalizers;
          && (ours ==> e.faults.Update(id) != NoEffect)
          && ((ours && s.store[id].deleting) || e.faults.Delete(id) == LostReply)
  }

  lemma PreFilterKeepsPromise(s: ProtocolState, e: Event, s': ProtocolState)
    requires MarkedGangsHaveObjects(s) && e.PreFilterCall? && Step(s, e, s')
    ensures MarkedGangsHaveObjects(s')
  {
    forall ns: Namespace, g | Marked(s', ns, g) ensures IdOf(ns, g) in s'.store {
      if !Marked(s, ns, g) { GangKeyInjective(ns, g, e.ns, e.m.name); }
    }
  }

  lemma PostBindKeepsPromise(s: ProtocolState, e: Event, s': ProtocolState)
    requires MarkedGangsHaveObjects(s) && OwnObjects(s) && e.PostBindCall? && Step(s, e, s')
    ensures MarkedGangsHaveObjects(s')
  {
    forall ns: Namespace, g | Marked(s', ns, g) ensures IdOf(ns, g) in s'.store {
      assert Marked(s, ns, g);
      if s' != s {
        UnchosenStays(s, ns, g, e.ns, e.m.name, ItemsOf(s.store, e.ns, e.m.name), e.faults, s');
      }
    }
  }

  /** Deleting one gang's items leaves every other gang's object alone. */
  lemma UnchosenStays(
      s: ProtocolState, ns: Namespace, g: string, ns': Namespace, g': string,
      chosen: set<ObjectId>, faults: Faults, s': ProtocolState)
    requires OwnObjects(s) && IdOf(ns, g) in s.store && GangKey(ns, g) != GangKey(ns', g')
    requires forall id :: id in chosen ==> Labelled(s.store, id, ns', g')
    requires RemovedFrom(s.store, chosen, faults, s'.store)
    ensures IdOf(ns, g) in s'.store
  {
    if IdOf(ns, g) in chosen {
      ItemsAreTheGangsOwn(s, ns', g', IdOf(ns, g));
      ReservationNameInjective(g, g');
    }
  }

  /** One step keeps the promise unless it strands the mark, and then it certainly breaks it. */
  lemma StepKeepsPromiseExactly(s: ProtocolState, e: Event, s': ProtocolState)
    requires MarkedGangsHaveObjects(s) && OwnObjects(s) && Step(s, e, s')
    ensures MarkedGangsHaveObjects(s') <==> !StrandsTheMark(s, e)
  {
    match e
    case PreFilterCall(_, _, _, _) => PreFilterKeepsPromise(s, e, s');
    case PostBindCall(_, _, _, _) => PostBindKeepsPromise(s, e, s');
    case CleanupTurn(_, _, _, _, _) => CleanupKeepsPromiseExactly(s, e, s');
    case Restart =>
  }

  lemma CleanupKeepsPromiseExactly(s: ProtocolState, e: Event, s': ProtocolState)
    requires MarkedGangsHaveObjects(s) && OwnObjects(s) && e.CleanupTurn? && Step(s, e, s')
    ensures MarkedGangsHaveObjects(s') <==> !StrandsTheMark(s, e)
  {
    var id := IdOf(e.ns, e.group);
    var expired := ExpiredItemsOf(s.store, e.ns, e.group, e.now);
    if s' == s {
      if StrandsTheMark(s, e) { StrandedObjectIsRemoved(s, e, s'); }
    } else {
      assert expired <= {id} by {
        forall x | x in expired ensures x == id { ItemsAreTheGangsOwn(s, e.ns, e.group, x); }
      }
      forall ns: Namespace, g | Marked(s', ns, g) && GangKey(ns, g) != GangKey(e.ns, e.group)
        ensures IdOf(ns, g) in s'.store
      {
        UnchosenStays(s, ns, g, e.ns, e.group, expired, e.faults, s');
      }
      if id in expired {
        OnlyOursStripsToNothing(s.store[id]);
        assert Marked(s', e.ns, e.group) <==> !Remove(s.store[id], id, e.faults).reported;
        OwnGangAfterCleanup(s, e, s');
      }
    }
  }

  lemma StrandedObjectIsRemoved(s: ProtocolState, e: Event, s': ProtocolState)
    requires OwnObjects(s) && StrandsTheMark(s, e) && Step(s, e, s')
    ensures Marked(s', e.ns, e.group) && IdOf(e.ns, e.group) !in s'.store
  {
    var id := IdOf(e.ns, e.group);
    var expired := ExpiredItemsOf(s.store, e.ns, e.group, e.now);
    OnlyOursStripsToNothing(s.store[id]);
    assert id in expired;
    assert Remove(s.store[id], id, e.faults) == Removal(None, false);
    forall x | x in expired ensures !Remove(s.store[x], x, e.faults).reported {
      ItemsAreTheGangsOwn(s, e.ns, e.group, x);
    }
  }

  lemma OwnGangAfterCleanup(s: ProtocolState, e: Event, s': ProtocolState)
    requires OwnObjects(s) && e.CleanupTurn? && Step(s, e, s') && s' != s
    requires IdOf(e.ns, e.group) in ExpiredItemsOf(s.store, e.ns, e.group, e.now)
    requires Marked(s', e.ns, e.group) <==> !Remove(s.store[IdOf(e.ns, e.group)], IdOf(e.ns, e.group), e.faults).reported
    requires forall ns: Namespace, g :: Marked(s', ns, g) && GangKey(ns, g) != GangKey(e.ns, e.group) ==> IdOf(ns, g) in s'.store
    ensures MarkedGangsHaveObjects(s') <==> !StrandsTheMark(s, e)
  {
    var id := IdOf(e.ns, e.group);
    OnlyOursStripsToNothing(s.store[id]);
    if StrandsTheMark(s, e) {
      StrandedObjectIsRemoved(s, e, s');
    } else {
      forall ns: Namespace, g | Marked(s', ns, g) ensures IdOf(ns, g) in s'.store {
        if GangKey(ns, g) == GangKey(e.ns, e.group) { GangKeyInjective(ns, g, e.ns, e.group); }
      }
    }
  }

  // ---- Whole runs ----

  lemma {:induction false} OwnObjectsInEveryRun(states: seq<ProtocolState>, events: seq<Event>, n: nat)
    requires IsRun(states, events) && n < |states|
    ensures OwnObjects(states[n])
  {
    if n > 0 {
      OwnObjectsInEveryRun(states, events, n - 1);
      StepKeepsOwnObjects(states[n - 1], events[n - 1], states[n]);
    }
  }

  /** The law of whole runs: the promise has held up to state n exactly when no step before n stranded
      a mark. */
  lemma PromiseHoldsExactly(states: seq<ProtocolState>, events: seq<Event>, n: nat)
    requires IsRun(states, events) && n < |states|
    ensures OwnObjects(states[n])
    ensures (forall i :: 0 <= i <= n ==> MarkedGangsHaveObjects(states[i])) <==>
            (forall j :: 0 <= j < n ==> !StrandsTheMark(states[j], events[j]))
  {
    OwnObjectsInEveryRun(states, events, n);
    var kept := i requires 0 <= i < |states| => MarkedGangsHaveObjects(states[i]);
    var broken := j requires 0 <= j < |events| => StrandsTheMark(states[j], events[j]);
    forall k | 0 <= k < n && kept(k) ensures kept(k + 1) <==> !broken(k) {
      OwnObjectsInEveryRun(states, events, k);
      StepKeepsPromiseExactly(states[k], events[k], states[k + 1]);
    }
    KeptUntilBroken(kept, broken, n);
    assert forall i :: 0 <= i <= n ==> (kept(i) <==> MarkedGangsHaveObjects(states[i]));
    assert forall j :: 0 <= j < n ==> (broken(j) <==> StrandsTheMark(states[j], events[j]));
  }

  /** A mark without an object. */
  ghost predicate Stranded(s: ProtocolState, ns: Namespace, g: string) {
    Marked(s, ns, g) && IdOf(ns, g) !in s.store
  }

  /** A restart, or a PostBind of the gang that finds it complete and can list. */
  ghost predicate Forgets(e: Event, ns: Namespace, g: string) {
    || e.Restart?
    || (e.PostBindCall? && e.m.IsGang() && GangKey(e.ns, e.m.name) == GangKey(ns, g)
        && Complete(e.listing, e.m.name, e.m.minAvailable) && '/' !in e.m.name && !e.faults.list)
  }

  /** Nothing repairs a stranded mark but forgetting it: neither PreFilter, which trusts the mark, nor the
      cleanup, which finds nothing to delete. */
  lemma StrandedUntilForgotten(s: ProtocolState, e: Event, s': ProtocolState, ns: Namespace, g: string)
    requires OwnObjects(s) && Stranded(s, ns, g) && Step(s, e, s')
    ensures Stranded(s', ns, g) <==> !Forgets(e, ns, g)
  {
    match e
    case PreFilterCall(ns', m, _, _) =>
      if IdOf(ns, g) in s'.store {
        assert IdOf(ns, g) == IdOf(ns', m.name);
        ReservationNameInjective(g, m.name);
      }
    case PostBindCall(_, _, _, _) =>
    case CleanupTurn(ns', g', _, faults, now) =>
      if s' != s && GangKey(ns, g) == GangKey(ns', g') {
        GangKeyInjective(ns, g, ns', g');
        forall id | id in ExpiredItemsOf(s.store, ns, g, now) ensures id == IdOf(ns, g) {
          ItemsAreTheGangsOwn(s, ns, g, id);
        }
      }
    case Restart =>
  }

  /** The usual faults: no delete takes effect where the update before it did not, and no reply to a
      delete is lost. */
  ghost predicate DeleteFailsWithUpdate(e: Event) {
    e.Restart? || forall id: ObjectId ::
      e.faults.Delete(id) != LostReply && (e.faults.Update(id) == NoEffect ==> e.faults.Delete(id) == NoEffect)
  }

  ghost predicate NoneDeleting(s: ProtocolState) {
    forall id :: id in s.store ==> !s.store[id].deleting
  }

  lemma RemovedFromKeepsNoneDeleting(s: ProtocolState, chosen: set<ObjectId>, e: Event, s': ProtocolState)
    requires OwnObjects(s) && NoneDeleting(s) && !e.Restart? && DeleteFailsWithUpdate(e)
    requires RemovedFrom(s.store, chosen, e.faults, s'.store)
    ensures NoneDeleting(s')
  {
    forall id | id in s'.store ensures !s'.store[id].deleting {
      OnlyOursStripsToNothing(s.store[id]);
      assert e.faults.Delete(id) != LostReply;
    }
  }

  lemma StepKeepsNoneDeleting(s: ProtocolState, e: Event, s': ProtocolState)
    requires OwnObjects(s) && NoneDeleting(s) && DeleteFailsWithUpdate(e) && Step(s, e, s')
    ensures NoneDeleting(s')
  {
    if s' == s { return; }
    match e
    case PreFilterCall(_, _, _, _) =>
    case PostBindCall(ns, m, _, _) =>
      RemovedFromKeepsNoneDeleting(s, ItemsOf(s.store, ns, m.name), e, s');
    case CleanupTurn(ns, g, _, _, now) =>
      RemovedFromKeepsNoneDeleting(s, ExpiredItemsOf(s.store, ns, g, now), e, s');
    case Restart =>
  }

  /** Under the usual faults every marked gang has its object throughout, if nothing was being deleted when
      the process began. */
  lemma {:induction false} MarkedGangsHaveObjectsInEveryRun(states: seq<ProtocolState>, events: seq<Event>, i: nat)
    requires IsRun(states, events) && i < |states| && NoneDeleting(states[0])
    requires forall j :: 0 <= j < |events| ==> DeleteFailsWithUpdate(events[j])
    ensures MarkedGangsHaveObjects(states[i]) && OwnObjects(states[i]) && NoneDeleting(states[i])
  {
    if i > 0 {
      MarkedGangsHaveObjectsInEveryRun(states, events, i - 1);
      var s, e, s' := states[i - 1], events[i - 1], states[i];
      StepKeepsOwnObjects(s, e, s');
      StepKeepsNoneDeleting(s, e, s');
      StepKeepsPromiseExactly(s, e, s');
    }
  }

  /** For every gang, one failed update under a delete that gets through, then a re-creation that finds the
      dying object, then a clean cleanup leaves the gang marked with nothing on the server. */
  lemma FailedUpdateCanStrandTheMark(ns: Namespace, m: Membership)
    returns (states: seq<ProtocolState>, events: seq<Event>)
    requires m.IsGang() && '/' !in m.name
    ensures IsRun(states, events) && |events| == 4 && states[0].store == map[]
    ensures events[3].CleanupTurn? && events[3].faults == NoFaults()
    ensures Stranded(states[4], ns, m.name) && states[4].store == map[]
  {
    var id, key := IdOf(ns, m.name), GangKey(ns, m.name);
    var late := RESERVATION_TTL + CLEANUP_INTERVAL;
    var born := Reservation(m.name, [OurFinalizer], 0, false);
    var dying := born.(deleting := true);
    var s1 := ProtocolState({key}, map[id := born]);
    var s2 := ProtocolState({}, map[id := dying]);
    var s3 := ProtocolState({key}, map[id := dying]);
    var s4 := ProtocolState({key}, map[]);
    var e1 := PreFilterCall(ns, m, NoFaults(), 0);
    var e2 := CleanupTurn(ns, m.name, Some([]), NoFaults().(update := map[id := NoEffect]), late);
    var e3 := PreFilterCall(ns, m, NoFaults(), late + 1);
    var e4 := CleanupTurn(ns, m.name, Some([]), NoFaults(), late + CLEANUP_INTERVAL);
    states := [ProtocolState({}, map[]), s1, s2, s3, s4];
    events := [e1, e2, e3, e4];
    assert Step(s1, e2, s2) by {
      assert ExpiredItemsOf(s1.store, ns, m.name, late) == {id};
      assert Remove(born, id, e2.faults) == Removal(Some(dying), true);
    }
    assert Step(s3, e4, s4) by {
      assert ExpiredItemsOf(s3.store, ns, m.name, late + CLEANUP_INTERVAL) == {id};
      OnlyOursStripsToNothing(dying);
      assert Remove(dying, id, NoFaults()) == Removal(None, false);
    }
  }

  /** So does a single cleanup turn whose delete takes effect but is not answered. */
  lemma LostReplyCanStrandTheMark(ns: Namespace, m: Membership)
    returns (states: seq<ProtocolState>, events: seq<Event>)
    requires m.IsGang() && '/' !in m.name
    ensures IsRun(states, events) && |events| == 2 && states[0].store == map[]
    ensures Stranded(states[2], ns, m.name)
  {
    var id, key := IdOf(ns, m.name), GangKey(ns, m.name);
    var late := RESERVATION_TTL + CLEANUP_INTERVAL;
    var born := Reservation(m.name, [OurFinalizer], 0, false);
    var s1 := ProtocolState({key}, map[id := born]);
    var s2 := ProtocolState({key}, map[]);
    var e2 := CleanupTurn(ns, m.name, Some([]), NoFaults().(delete := map[id := LostReply]), late);
    states := [ProtocolState({}, map[]), s1, s2];
    events := [PreFilterCall(ns, m, NoFaults(), 0), e2];
    assert Step(s1, e2, s2) by {
      assert ExpiredItemsOf(s1.store, ns, m.name, late) == {id};
      OnlyOursStripsToNothing(born);
      assert Remove(born, id, e2.faults) == Removal(None, false);
    }
  }

  // ---- What a call achieves when nothing it needs fails ----

  /** PreFilter leaves a gang pod's gang marked, its object in place, exactly when it was marked before or
      the create, or else the fetch of an existing object, works. */
  lemma PreFilterEstablishesPromise(s: ProtocolState, ns: Namespace, m: Membership, faults: Faults, now: int)
    requires MarkedGangsHaveObjects(s) && m.IsGang()
    ensures var s' := PreFilterStep(s, ns, m, faults, now);
            && (Marked(s', ns, m.name) <==>
                  Marked(s, ns, m.name) || (faults.create == Works && (IdOf(ns, m.name) in s.store ==> !faults.get)))
            && (Marked(s', ns, m.name) ==> IdOf(ns, m.name) in s'.store)
            && (!Marked(s', ns, m.name) ==>
                  s'.created == s.created && (s'.store == s.store <==> IdOf(ns, m.name) in s.store || faults.create == NoEffect))
  {
  }

  /** With working calls, PostBind of the completed gang undoes PreFilter: mark and object both go, and
      everything else is as it was. */
  lemma PostBindUndoesPreFilter(
      s: ProtocolState, ns: Namespace, m: Membership, now: int, listing: Option<seq<Pod>>, faults: Faults, s': ProtocolState)
    requires OwnObjects(s) && m.IsGang() && '/' !in m.name
    requires !Marked(s, ns, m.name) && IdOf(ns, m.name) !in s.store
    requires faults == NoFaults() && Complete(listing, m.name, m.minAvailable)
    requires PostBindStep(PreFilterStep(s, ns, m, faults, now), ns, m, listing, faults, s')
    ensures s' == s
  {
  }

  // ---- What may be deleted ----

  /** A cleanup turn only touches reservations past their TTL, of its own gang, and only when every
      listed member of that gang is bound and running. */
  lemma CleanupOnlyTouchesExpiredFinishedGangs(s: ProtocolState, e: Event, s': ProtocolState, id: ObjectId)
    requires e.CleanupTurn? && Step(s, e, s') && id in s.store
    requires !(id in s'.store && s'.store[id] == s.store[id])
    ensures Labelled(s.store, id, e.ns, e.group) && e.now - s.store[id].created > 1_800_000_000_000
    ensures e.listing.Some? && forall p :: p in e.listing.value && p.group.Member? && p.group.name == e.group ==>
                                 p.nodeName != "" && p.phase == Running
  {
    assert AllMembersRunning(e.listing, e.group);
  }

  /** PostBind only touches its own gang's reservations, and only once at least the minimum of distinct
      members have a node, run and are not terminating. */
  lemma PostBindOnlyTouchesCompleteGangs(s: ProtocolState, e: Event, s': ProtocolState, id: ObjectId)
    requires e.PostBindCall? && Step(s, e, s') && id in s.store
    requires !(id in s'.store && s'.store[id] == s.store[id])
    ensures e.m.IsGang() && Labelled(s.store, id, e.ns, e.m.name)
    ensures e.listing.Some? && |RunningMembers(e.listing.value, e.m.name)| >= e.m.minAvailable
  {
    ProgressOnFields(e.listing, e.m.name, e.m.minAvailable);
  }

  /** A PreFilter or PostBind for a pod of this gang. */
  ghost predicate OwnCall(e: Event, ns: Namespace, g: string) {
    (e.PreFilterCall? || e.PostBindCall?) && e.m.IsGang() && GangKey(e.ns, e.m.name) == GangKey(ns, g)
  }

  /** Cleanup visits marked gangs only: the object of an unmarked gang stays as it is, and the gang unmarked,
      through every step but a PreFilter or PostBind of that gang. */
  lemma UnmarkedObjectStays(s: ProtocolState, e: Event, s': ProtocolState, ns: Namespace, g: string)
    requires OwnObjects(s) && Step(s, e, s') && !Marked(s, ns, g) && IdOf(ns, g) in s.store
    requires !OwnCall(e, ns, g)
    ensures !Marked(s', ns, g) && IdOf(ns, g) in s'.store && s'.store[IdOf(ns, g)] == s.store[IdOf(ns, g)]
  {
    if s' == s || e.Restart? { return; }
    var id := IdOf(ns, g);
    match e
    case PreFilterCall(ns', m, _, _) =>
      if IdOf(ns', m.name) == id { ReservationNameInjective(g, m.name); }
    case PostBindCall(ns', m, _, _) => NotAnothersItem(s, ns, g, ns', m.name);
    case CleanupTurn(ns', g', _, _, _) => NotAnothersItem(s, ns, g, ns', g');
  }

  lemma NotAnothersItem(s: ProtocolState, ns: Namespace, g: string, ns': Namespace, g': string)
    requires OwnObjects(s) && GangKey(ns, g) != GangKey(ns', g')
    ensures !Labelled(s.store, IdOf(ns, g), ns', g')
  {
    if Labelled(s.store, IdOf(ns, g), ns', g') {
      ItemsAreTheGangsOwn(s, ns', g', IdOf(ns, g));
      ReservationNameInjective(g, g');
    }
  }

  /** Whatever else happens in a run, and for however long, such an object is never cleaned up. */
  lemma {:induction false} OrphanIsNeverCleanedUp(
      states: seq<ProtocolState>, events: seq<Event>, ns: Namespace, g: string, i: nat, j: nat)
    requires IsRun(states, events) && i <= j < |states|
    requires !Marked(states[i], ns, g) && IdOf(ns, g) in states[i].store
    requires forall n :: i <= n < j ==> !OwnCall(events[n], ns, g)
    ensures !Marked(states[j], ns, g) && IdOf(ns, g) in states[j].store
    ensures states[j].store[IdOf(ns, g)] == states[i].store[IdOf(ns, g)]
    decreases j
  {
    if i < j {
      OrphanIsNeverCleanedUp(states, events, ns, g, i, j - 1);
      OwnObjectsInEveryRun(states, events, j - 1);
      UnmarkedObjectStays(states[j - 1], events[j - 1], states[j], ns, g);
    }
  }

  /** It comes about whenever the one update and the one delete of a PostBind fail: the gang is unmarked all
      the same. */
  lemma FailedPostBindCanOrphanTheObject(ns: Namespace, m: Membership, listing: Option<seq<Pod>>)
    returns (states: seq<ProtocolState>, events: seq<Event>)
    requires m.IsGang() && '/' !in m.name && Complete(listing, m.name, m.minAvailable)
    ensures IsRun(states, events) && |events| == 2 && states[0].store == map[]
    ensures !Marked(states[2], ns, m.name) && IdOf(ns, m.name) in states[2].store
  {
    var id, key := IdOf(ns, m.name), GangKey(ns, m.name);
    var born := Reservation(m.name, [OurFinalizer], 0, false);
    var s1, s2 := ProtocolState({key}, map[id := born]), ProtocolState({}, map[id := born]);
    var failing := NoFaults().(update := map[id := NoEffect], delete := map[id := NoEffect]);
    var e2 := PostBindCall(ns, m, listing, failing);
    states := [ProtocolState({}, map[]), s1, s2];
    events := [PreFilterCall(ns, m, NoFaults(), 0), e2];
    assert Step(s1, e2, s2) by {
      assert ItemsOf(s1.store, ns, m.name) == {id};
      assert Remove(born, id, failing) == Removal(Some(born), false);
    }
  }

  /** Creation times never change, so age is counted from the call that made the object. */
  lemma {:induction false} CreationTimeIsFixed(states: seq<ProtocolState>, events: seq<Event>, id: ObjectId, i: nat, j: nat)
    requires IsRun(states, events) && i <= j < |states|
    requires forall n :: i <= n <= j ==> id in states[n].store
    ensures states[j].store[id].created == states[i].store[id].created
    decreases j
  {
    if i < j {
      CreationTimeIsFixed(states, events, id, i, j - 1);
      assert Step(states[j - 1], events[j - 1], states[j]);
    }
  }
}
