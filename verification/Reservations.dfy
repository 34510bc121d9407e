/** The resource-reservation protocol: an in-memory set of gangs believed to hold a reservation, and the
    reservation objects on the API server, kept in step through calls that may each fail
    (pkg/plugins/resourcereservation/resourcereservation.go). A failing call may take effect or not. The
    server side follows the API conventions for finalizers: deleting an object that still carries one only
    marks it, and it goes once an update leaves a marked object without finalizers. Each plugin call is
    one step here; ReservationInterleaving.dfy takes the steps apart. */
module Reservations {
  import opened Text
  import opened PodGroups

  const RESERVATION_TTL: int := 1_800_000_000_000

  const CLEANUP_INTERVAL: int := 300_000_000_000

  /** `OurFinalizer` is scheduling.kubenexus.io/reservation-protection. */
  datatype Finalizer = OurFinalizer | OtherFinalizer(text: string)

  datatype Reservation = Reservation(group: string, finalizers: seq<Finalizer>, created: int, deleting: bool)

  datatype ObjectId = ObjectId(namespace: string, name: string)

  type Store = map<ObjectId, Reservation>

  function ReservationName(group: string): string { group + "-reservation" }

  function IdOf(ns: string, group: string): ObjectId { ObjectId(ns, ReservationName(group)) }

  lemma ReservationNameInjective(g: string, h: string)
    ensures ReservationName(g) == ReservationName(h) ==> g == h
  {
    if ReservationName(g) == ReservationName(h) {
      assert g == ReservationName(g)[..|g|] && h == ReservationName(h)[..|h|];
    }
  }

  // ---- Finalizers ----

  ghost function Others<T>(fs: seq<T>, f: T): seq<T> {
    if |fs| == 0 then []
    else Others(fs[..|fs| - 1], f) + if fs[|fs| - 1] == f then [] else [fs[|fs| - 1]]
  }

  /** What is left: everything but `f`, nothing else lost. */
  lemma {:induction false} OthersKeepsTheRest<T>(fs: seq<T>, f: T)
    ensures multiset(Others(fs, f)) == multiset(fs)[f := 0]
    ensures f !in fs ==> Others(fs, f) == fs
  {
    if |fs| > 0 {
      var front, last := fs[..|fs| - 1], fs[|fs| - 1];
      OthersKeepsTheRest(front, f);
      assert fs == front + [last];
      assert multiset(fs) == multiset(front) + multiset{last};
      assert Others(fs, f) == Others(front, f) + if last == f then [] else [last];
    }
  }

  method HasFinalizer(fs: seq<Finalizer>, f: Finalizer) returns (has: bool)
    ensures has <==> f in fs
  {
    for i := 0 to |fs|
      invariant f !in fs[..i]
    {
      if fs[i] == f { return true; }
    }
    return false;
  }

  method RemoveFinalizer(fs: seq<Finalizer>, f: Finalizer) returns (r: seq<Finalizer>)
    ensures r == Others(fs, f)
  {
    r := [];
    for i := 0 to |fs|
      invariant r == Others(fs[..i], f)
    {
      assert fs[..i + 1][..i] == fs[..i];
      if fs[i] != f { r := r + [fs[i]]; }
    }
    assert fs[..|fs|] == fs;
  }

  // ---- Gang progress, as the lister shows it ----

  datatype Phase = Running | NotRunning

  datatype Pod = Pod(group: Membership, nodeName: string, phase: Phase, terminating: bool)

  predicate BoundAndRunning(p: Pod) { p.nodeName != "" && p.phase == Running }

  predicate CountsAsScheduled(p: Pod, g: string) {
    p.group.GroupName() == g && !p.group.Malformed? && !p.terminating && BoundAndRunning(p)
  }

  predicate IsMember(p: Pod, g: string) { !p.group.Malformed? && p.group.GroupName() == g }

  ghost function Scheduled(pods: seq<Pod>, g: string): set<int> {
    set i | 0 <= i < |pods| && CountsAsScheduled(pods[i], g)
  }

  ghost predicate Complete(listing: Option<seq<Pod>>, g: string, minAvailable: int) {
    listing.Some? && |Scheduled(listing.value, g)| >= minAvailable
  }

  ghost predicate AllMembersRunning(listing: Option<seq<Pod>>, g: string) {
    listing.Some? && forall p :: p in listing.value && IsMember(p, g) ==> BoundAndRunning(p)
  }

  /** The indices of the members that have a node, run and are not terminating. */
  ghost function RunningMembers(pods: seq<Pod>, g: string): set<int> {
    set i | 0 <= i < |pods| && pods[i].group.Member? && pods[i].group.name == g
            && pods[i].nodeName != "" && pods[i].phase == Running && !pods[i].terminating
  }

  /** What both completeness tests come down to, on the fields of the listed pods. */
  lemma ProgressOnFields(listing: Option<seq<Pod>>, g: string, minAvailable: int)
    requires g != ""
    ensures Complete(listing, g, minAvailable) <==> listing.Some? && |RunningMembers(listing.value, g)| >= minAvailable
    ensures AllMembersRunning(listing, g) <==>
              listing.Some? && forall p :: p in listing.value && p.group.Member? && p.group.name == g ==>
                                 p.nodeName != "" && p.phase == Running
  {
    if listing.Some? { assert Scheduled(listing.value, g) == RunningMembers(listing.value, g); }
  }

  method IsGangComplete(listing: Option<seq<Pod>>, g: string, minAvailable: int) returns (complete: bool)
    ensures complete <==> Complete(listing, g, minAvailable)
  {
    if listing.None? { return false; }
    var pods := listing.value;
    var scheduledCount := 0;
    for i := 0 to |pods|
      invariant scheduledCount == |Scheduled(pods[..i], g)|
    {
      assert Scheduled(pods[..i + 1], g) == Scheduled(pods[..i], g) + if CountsAsScheduled(pods[i], g) then {i} else {};
      if CountsAsScheduled(pods[i], g) { scheduledCount := scheduledCount + 1; }
    }
    assert pods[..|pods|] == pods;
    complete := scheduledCount >= minAvailable;
  }

  method IsGangCompleteOrExpired(listing: Option<seq<Pod>>, g: string) returns (done: bool)
    ensures done <==> AllMembersRunning(listing, g)
  {
    if listing.None? { return false; }
    var pods := listing.value;
    var gangPodCount, runningCount := 0, 0;
    for i := 0 to |pods|
      invariant 0 <= runningCount <= gangPodCount
      invariant gangPodCount == 0 ==> forall j :: 0 <= j < i ==> !IsMember(pods[j], g)
      invariant runningCount == gangPodCount <==> forall j :: 0 <= j < i && IsMember(pods[j], g) ==> BoundAndRunning(pods[j])
    {
      if IsMember(pods[i], g) {
        gangPodCount := gangPodCount + 1;
        if BoundAndRunning(pods[i]) { runningCount := runningCount + 1; }
      }
    }
    done := gangPodCount == 0 || runningCount == gangPodCount;
  }

  // ---- Deleting one reservation: strip the finalizer, then delete ----

  /** How a writing call ends: with `NoEffect` and `LostReply` the caller sees an error. */
  datatype Outcome = Works | NoEffect | LostReply

  /** The calls of one plugin step that go wrong; an id without an entry is served. */
  datatype Faults = Faults(
    create: Outcome, get: bool, list: bool, update: map<ObjectId, Outcome>, delete: map<ObjectId, Outcome>)
  {
    function Update(id: ObjectId): Outcome { if id in update then update[id] else Works }

    function Delete(id: ObjectId): Outcome { if id in delete then delete[id] else Works }
  }

  function NoFaults(): Faults { Faults(Works, false, false, map[], map[]) }

  /** What is left of the object, and whether the delete call reported success. */
  datatype Removal = Removal(left: Option<Reservation>, reported: bool)

  ghost function Remove(r: Reservation, id: ObjectId, faults: Faults): Removal {
    var stripped := OurFinalizer in r.finalizers && faults.Update(id) != NoEffect;
    var fs := if stripped then Others(r.finalizers, OurFinalizer) else r.finalizers;
    if stripped && r.deleting && |fs| == 0 then Removal(None, false)
    else if faults.Delete(id) == NoEffect then Removal(Some(r.(finalizers := fs)), false)
    else Removal(if |fs| == 0 then None else Some(r.(finalizers := fs, deleting := true)), faults.Delete(id) == Works)
  }

  ghost predicate Labelled(store: Store, id: ObjectId, ns: string, g: string) {
    id in store && id.namespace == ns && store[id].group == g
  }

  /** The store once `Remove` has run on the chosen ids. */
  ghost predicate RemovedFrom(store: Store, chosen: set<ObjectId>, faults: Faults, store': Store) {
    && store'.Keys <= store.Keys
    && forall id :: id in store ==>
         var left := if id in chosen then Remove(store[id], id, faults).left else Some(store[id]);
         if left.Some? then id in store' && store'[id] == left.value else id !in store'
  }

  datatype ProtocolState = ProtocolState(created: set<string>, store: Store)

  /** The listed reservations of a gang, found by splitting the key and matching the label. */
  ghost function ItemsOf(store: Store, ns: string, g: string): set<ObjectId> {
    set id | id in store && Labelled(store, id, ns, g)
  }

  ghost function ExpiredItemsOf(store: Store, ns: string, g: string, now: int): set<ObjectId> {
    set id | id in store && Labelled(store, id, ns, g) && now - store[id].created > RESERVATION_TTL
  }

  // ---- What each plugin call does to the state ----

  ghost function PreFilterStep(s: ProtocolState, ns: Namespace, m: Membership, faults: Faults, now: int): ProtocolState {
    if !m.IsGang() || GangKey(ns, m.name) in s.created then s
    else
      var key, id := GangKey(ns, m.name), IdOf(ns, m.name);
      ProtocolState(
        if faults.create == Works && (id in s.store ==> !faults.get) then s.created + {key} else s.created,
        if faults.create != NoEffect && id !in s.store
        then s.store[id := Reservation(m.name, [OurFinalizer], now, false)] else s.store)
  }

  ghost predicate PostBindStep(s: ProtocolState, ns: Namespace, m: Membership, listing: Option<seq<Pod>>, faults: Faults, s': ProtocolState) {
    if !m.IsGang() || !Complete(listing, m.name, m.minAvailable) || '/' in m.name || faults.list then s' == s
    else
      && s'.created == s.created - {GangKey(ns, m.name)}
      && RemovedFrom(s.store, ItemsOf(s.store, ns, m.name), faults, s'.store)
  }

  /** One tracked gang's turn in the TTL cleanup. */
  ghost predicate CleanupStep(
      s: ProtocolState, ns: Namespace, g: string, listing: Option<seq<Pod>>, faults: Faults, now: int, s': ProtocolState) {
    var expired := ExpiredItemsOf(s.store, ns, g, now);
    if GangKey(ns, g) !in s.created || '/' in g || faults.list || !AllMembersRunning(listing, g) then s' == s
    else
      && s'.created == (if exists id :: id in expired && Remove(s.store[id], id, faults).reported
                        then s.created - {GangKey(ns, g)} else s.created)
      && RemovedFrom(s.store, expired, faults, s'.store)
  }

  // ---- The plugin object, API server included ----

  class ResourceReservationPlugin {
    var gangReservationsCreated: set<string>
    var store: Store

    ghost function State(): ProtocolState
      reads this
    {
      ProtocolState(gangReservationsCreated, store)
    }

    constructor ()
      ensures State() == ProtocolState({}, map[])
    {
      gangReservationsCreated, store := {}, map[];
    }

    method PreFilter(ns: Namespace, m: Membership, faults: Faults, now: int) returns (ok: bool)
      modifies this
      ensures State() == PreFilterStep(old(State()), ns, m, faults, now)
      ensures ok <==> !m.IsGang() || GangKey(ns, m.name) in gangReservationsCreated
    {
      if !m.IsGang() { return true; }
      var key := GangKey(ns, m.name);
      if key in gangReservationsCreated { return true; }
      ghost var before := gangReservationsCreated;
      gangReservationsCreated := gangReservationsCreated + {key};
      ok := CreateGangReservations(ns, m.name, faults, now);
      if !ok {
        gangReservationsCreated := gangReservationsCreated - {key};
        assert gangReservationsCreated == before;
      }
    }

    /** Creates the gang's object, or fetches it when it is already there. */
    method CreateGangReservations(ns: Namespace, g: string, faults: Faults, now: int) returns (ok: bool)
      modifies this`store
      ensures ok <==> faults.create == Works && (IdOf(ns, g) in old(store) ==> !faults.get)
      ensures store == if faults.create != NoEffect && IdOf(ns, g) !in old(store)
                       then old(store)[IdOf(ns, g) := Reservation(g, [OurFinalizer], now, false)] else old(store)
    {
      var id := IdOf(ns, g);
      if faults.create == NoEffect { return false; }
      if id in store { return faults.create == Works && !faults.get; }
      store := store[id := Reservation(g, [OurFinalizer], now, false)];
      return faults.create == Works;
    }

    /** Update without our finalizer if it is there, then delete; errors are only logged. */
    method RemoveReservation(id: ObjectId, faults: Faults) returns (reported: bool)
      requires id in store
      modifies this`store
      ensures RemovedFrom(old(store), {id}, faults, store)
      ensures reported == Remove(old(store)[id], id, faults).reported
    {
      var r := store[id];
      var has := HasFinalizer(r.finalizers, OurFinalizer);
      if has && faults.Update(id) != NoEffect {
        var fs := RemoveFinalizer(r.finalizers, OurFinalizer);
        if r.deleting && |fs| == 0 {
          store := store - {id};
        } else {
          store := store[id := r.(finalizers := fs)];
        }
      }
      if faults.Delete(id) == NoEffect || id !in store { return false; }
      if |store[id].finalizers| == 0 {
        store := store - {id};
      } else {
        store := store[id := store[id].(deleting := true)];
      }
      return faults.Delete(id) == Works;
    }

    /** The loop over the listed items both deletion paths share. */
    method RemoveAll(chosen: set<ObjectId>, faults: Faults) returns (any: bool)
      requires chosen <= store.Keys
      modifies this`store
      ensures RemovedFrom(old(store), chosen, faults, store)
      ensures any <==> exists id :: id in chosen && Remove(old(store)[id], id, faults).reported
    {
      ghost var before := store;
      var todo := chosen;
      any := false;
      while todo != {}
        invariant todo <= chosen
        invariant RemovedFrom(before, chosen - todo, faults, store)
        invariant any <==> exists id :: id in chosen - todo && Remove(before[id], id, faults).reported
        decreases |todo|
      {
        var id :| id in todo;
        ghost var mid := store;
        assert mid[id] == before[id];
        var reported := RemoveReservation(id, faults);
        RemoveOneMore(before, chosen - todo, id, faults, mid, store);
        assert chosen - (todo - {id}) == (chosen - todo) + {id};
        any := any || reported;
        todo := todo - {id};
      }
      assert chosen - {} == chosen;
    }

    method PostBind(ns: Namespace, m: Membership, listing: Option<seq<Pod>>, faults: Faults)
      modifies this
      ensures PostBindStep(old(State()), ns, m, listing, faults, State())
    {
      if !m.IsGang() { return; }
      var complete := IsGangComplete(listing, m.name, m.minAvailable);
      if !complete { return; }
      var key := GangKey(ns, m.name);
      GangKeySplit(ns, m.name);
      var parts := Split(key, '/');
      if |parts| != 2 || faults.list { return; }
      var items := set id | id in store && id.namespace == ns && store[id].group == parts[1];
      assert items == ItemsOf(store, ns, m.name);
      var _ := RemoveAll(items, faults);
      gangReservationsCreated := gangReservationsCreated - {key};
    }

    /** One iteration of the cleanup over the tracked gangs. */
    method CleanupExpired(ns: Namespace, g: string, listing: Option<seq<Pod>>, faults: Faults, now: int)
      modifies this
      ensures CleanupStep(old(State()), ns, g, listing, faults, now, State())
    {
      var key := GangKey(ns, g);
      if key !in gangReservationsCreated { return; }
      GangKeySplit(ns, g);
      var parts := Split(key, '/');
      if |parts| != 2 || faults.list { return; }
      var expired := set id | id in store && id.namespace == parts[0] && store[id].group == parts[1]
                              && now - store[id].created > RESERVATION_TTL;
      assert expired == ExpiredItemsOf(store, ns, g, now);
      if expired == {} { return; }
      var done := IsGangCompleteOrExpired(listing, parts[1]);
      if !done { return; }
      var any := RemoveAll(expired, faults);
      if any { gangReservationsCreated := gangReservationsCreated - {key}; }
    }
  }

  lemma RemoveOneMore(before: Store, done: set<ObjectId>, id: ObjectId, faults: Faults, mid: Store, after: Store)
    requires RemovedFrom(before, done, faults, mid) && id in before && id !in done
    requires RemovedFrom(mid, {id}, faults, after)
    ensures RemovedFrom(before, done + {id}, faults, after)
  {
  }
}
