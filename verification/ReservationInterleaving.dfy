/** The reservation protocol with its goroutines interleaved at the granularity of single API calls and single
    operations on the marks (pkg/plugins/resourcereservation/resourcereservation.go): any number of PreFilter
    calls, PostBind calls and cleanup turns of one gang, whose name holds no slash. The server turns down an
    update of a version it no longer holds, and it deletes by name. An object carries its history in
    `protection`: whose update took our finalizer off. Nobody else's finalizers occur. */
module ReservationInterleaving {
  import opened Collections
  import opened Text
  import opened PodGroups
  import opened Reservations

  datatype Protection = Protected | StrippedByBinder | StrippedByCleanup

  datatype Object = Object(uid: nat, version: nat, created: int, protection: Protection, deleting: bool)

  /** What a goroutine does next: PreFilter creates, perhaps fetches; PostBind strips and deletes what it has
      listed; the cleanup visits the mark, lists, checks, strips and deletes; any of them may unmark. */
  datatype Thread =
    | Creates
    | Fetches
    | BinderStrips(item: Object, at: int)
    | BinderDeletes(item: Object, at: int)
    | CleanerLists
    | CleanerChecks(item: Object, at: int)
    | CleanerStrips(item: Object, at: int)
    | CleanerDeletes(item: Object, at: int)
    | Unmarks

  datatype State = State(marked: bool, obj: Option<Object>, next: nat, now: int, threads: map<nat, Thread>)
  {
    function Go(t: nat, thread: Thread): State { this.(threads := threads[t := thread]) }

    function End(t: nat): State { this.(threads := threads - {t}) }
  }

  datatype Action =
    | Tick(d: nat)
    | Mark(t: nat) | Create(t: nat, o: Outcome) | Fetch(t: nat, ok: bool) | Unmark(t: nat)
    | BindList(t: nat) | BindStrip(t: nat, o: Outcome) | BindDelete(t: nat, o: Outcome)
    | CleanVisit(t: nat) | CleanList(t: nat) | CleanCheck(t: nat, allRunning: bool)
    | CleanStrip(t: nat, o: Outcome) | CleanDelete(t: nat, o: Outcome)

  /** An update made from `item`: it counts only while the server still holds that version. */
  function Strip(s: State, item: Object, stripper: Protection, o: Outcome): State {
    if o == NoEffect || s.obj.None? || s.obj.value.version != item.version then s
    else if s.obj.value.deleting then s.(obj := None)
    else s.(obj := Some(s.obj.value.(version := s.next, protection := stripper)), next := s.next + 1)
  }

  function Delete(s: State, o: Outcome): State {
    if o == NoEffect || s.obj.None? then s
    else if s.obj.value.protection != Protected then s.(obj := None)
    else if s.obj.value.deleting then s
    else s.(obj := Some(s.obj.value.(version := s.next, deleting := true)), next := s.next + 1)
  }

  function Created(s: State): State {
    s.(obj := Some(Object(s.next, s.next, s.now, Protected, false)), next := s.next + 1)
  }

  predicate Enabled(s: State, a: Action) {
    match a
    case Tick(_) => true
    case Mark(t) => t !in s.threads && !s.marked
    case BindList(t) => t !in s.threads
    case CleanVisit(t) => t !in s.threads && s.marked
    case Create(t, _) => t in s.threads && s.threads[t].Creates?
    case Fetch(t, _) => t in s.threads && s.threads[t].Fetches?
    case Unmark(t) => t in s.threads && s.threads[t].Unmarks?
    case BindStrip(t, _) => t in s.threads && s.threads[t].BinderStrips?
    case BindDelete(t, _) => t in s.threads && s.threads[t].BinderDeletes?
    case CleanList(t) => t in s.threads && s.threads[t].CleanerLists?
    case CleanCheck(t, _) => t in s.threads && s.threads[t].CleanerChecks?
    case CleanStrip(t, _) => t in s.threads && s.threads[t].CleanerStrips?
    case CleanDelete(t, _) => t in s.threads && s.threads[t].CleanerDeletes?
  }

  function Do(s: State, a: Action): State
    requires Enabled(s, a)
  {
    match a
    case Tick(d) => s.(now := s.now + d)
    case Mark(t) => s.(marked := true).Go(t, Creates)
    case Create(t, o) =>
      if o == NoEffect then s.Go(t, Unmarks)
      else if s.obj.Some? then s.Go(t, if o == Works then Fetches else Unmarks)
      else if o == Works then Created(s).End(t)
      else Created(s).Go(t, Unmarks)
    case Fetch(t, ok) => if ok && s.obj.Some? then s.End(t) else s.Go(t, Unmarks)
    case Unmark(t) => s.(marked := false).End(t)
    case BindList(t) =>
      if s.obj.None? then s.Go(t, Unmarks)
      else if s.obj.value.protection == Protected then s.Go(t, BinderStrips(s.obj.value, s.now))
      else s.Go(t, BinderDeletes(s.obj.value, s.now))
    case BindStrip(t, o) =>
      Strip(s, s.threads[t].item, StrippedByBinder, o).Go(t, BinderDeletes(s.threads[t].item, s.threads[t].at))
    case BindDelete(t, o) => Delete(s, o).Go(t, Unmarks)
    case CleanVisit(t) => s.Go(t, CleanerLists)
    case CleanList(t) => if s.obj.None? then s.End(t) else s.Go(t, CleanerChecks(s.obj.value, s.now))
    case CleanCheck(t, allRunning) =>
      var item, at := s.threads[t].item, s.threads[t].at;
      if s.now - item.created <= RESERVATION_TTL || !allRunning then s.End(t)
      else s.Go(t, if item.protection == Protected then CleanerStrips(item, at) else CleanerDeletes(item, at))
    case CleanStrip(t, o) =>
      Strip(s, s.threads[t].item, StrippedByCleanup, o).Go(t, CleanerDeletes(s.threads[t].item, s.threads[t].at))
    case CleanDelete(t, o) =>
      if o == Works && s.obj.Some? then Delete(s, o).Go(t, Unmarks) else Delete(s, o).End(t)
  }

  /** A run begins with the process, over whatever object earlier processes left. */
  ghost predicate IsRun(states: seq<State>, actions: seq<Action>) {
    && |states| == |actions| + 1
    && !states[0].marked && states[0].threads == map[] && Sound(states[0])
    && forall i :: 0 <= i < |actions| ==> Enabled(states[i], actions[i]) && states[i + 1] == Do(states[i], actions[i])
  }

  // ---- What every interleaving keeps ----

  ghost predicate StrippedByCleaner(s: State) { s.obj.Some? && s.obj.value.protection == StrippedByCleanup }

  ghost predicate Young(s: State) { s.obj.Some? && s.now - s.obj.value.created <= RESERVATION_TTL }

  ghost predicate ObjectFits(s: State) {
    s.obj.Some? ==> s.obj.value.version < s.next && s.obj.value.uid < s.next && s.obj.value.created <= s.now
  }

  /** A listed item is the object itself while the version stands. */
  ghost predicate ItemFits(s: State, item: Object) {
    && item.version < s.next && item.uid < s.next
    && (s.obj.Some? && s.obj.value.version == item.version ==> s.obj.value == item)
  }

  /** An object that is not the one listed was made after the listing. */
  ghost predicate SameOrLater(s: State, item: Object, at: int) {
    && at <= s.now
    && (s.obj.Some? ==>
          if s.obj.value.uid == item.uid then s.obj.value.created == item.created
          else s.obj.value.created >= at)
  }

  ghost predicate ThreadFits(s: State, thread: Thread) {
    match thread
    case BinderStrips(item, at) => ItemFits(s, item) && SameOrLater(s, item, at) && item.protection == Protected
    case BinderDeletes(item, at) => ItemFits(s, item) && SameOrLater(s, item, at)
    case CleanerChecks(item, at) => ItemFits(s, item) && SameOrLater(s, item, at)
    case CleanerStrips(item, at) =>
      && ItemFits(s, item) && SameOrLater(s, item, at) && item.protection == Protected
      && s.now - item.created > RESERVATION_TTL
    case CleanerDeletes(item, at) => ItemFits(s, item) && SameOrLater(s, item, at) && s.now - item.created > RESERVATION_TTL
    case _ => true
  }

  ghost predicate Sound(s: State) {
    && ObjectFits(s)
    && (StrippedByCleaner(s) ==> !Young(s))
    && forall t :: t in s.threads ==> ThreadFits(s, s.threads[t])
  }

  /** How one action may change the server: not at all, by a fresh object, by a new version of the same
      object, or by removing it; and time never goes back. */
  ghost predicate Evolves(s: State, s': State) {
    && s.now <= s'.now && s.next <= s'.next
    && (s'.obj.None? || s'.obj == s.obj
        || (s.next < s'.next && s'.obj.value.version == s.next
            && if s.obj.Some? then s'.obj.value.uid == s.obj.value.uid && s'.obj.value.created == s.obj.value.created
               else s'.obj.value.uid == s.next && s'.obj.value.created == s.now))
  }

  lemma ActionEvolves(s: State, a: Action)
    requires Enabled(s, a)
    ensures Evolves(s, Do(s, a))
  {
  }

  lemma EvolvingKeepsFit(s: State, s': State, thread: Thread)
    requires Evolves(s, s') && ObjectFits(s) && ThreadFits(s, thread)
    ensures ThreadFits(s', thread)
  {
  }

  function Actor(a: Action): Option<nat> { if a.Tick? then None else Some(a.t) }

  lemma OthersStand(s: State, a: Action, t: nat)
    requires Enabled(s, a) && Actor(a) != Some(t)
    ensures t in Do(s, a).threads <==> t in s.threads
    ensures t in s.threads ==> Do(s, a).threads[t] == s.threads[t]
  {
  }

  /** What the acting thread does next fits the state before the server changed. */
  lemma ActorFitted(s: State, a: Action)
    requires Enabled(s, a) && Sound(s) && !a.Tick? && a.t in Do(s, a).threads
    ensures ThreadFits(s, Do(s, a).threads[a.t])
  {
    if a.t in s.threads { assert ThreadFits(s, s.threads[a.t]); }
  }

  lemma ObjectStaysSound(s: State, a: Action)
    requires Enabled(s, a) && Sound(s)
    ensures ObjectFits(Do(s, a)) && (StrippedByCleaner(Do(s, a)) ==> !Young(Do(s, a)))
  {
    if a.CleanStrip? { assert ThreadFits(s, s.threads[a.t]); }
  }

  lemma ActionKeepsSound(s: State, a: Action)
    requires Enabled(s, a) && Sound(s)
    ensures Sound(Do(s, a))
  {
    var s' := Do(s, a);
    ActionEvolves(s, a);
    ObjectStaysSound(s, a);
    forall t | t in s'.threads ensures ThreadFits(s', s'.threads[t]) {
      if Actor(a) == Some(t) {
        ActorFitted(s, a);
      } else {
        OthersStand(s, a, t);
      }
      EvolvingKeepsFit(s, s', s'.threads[t]);
    }
  }

  lemma {:induction false} SoundInEveryInterleaving(states: seq<State>, actions: seq<Action>, i: nat)
    requires IsRun(states, actions) && i < |states|
    ensures Sound(states[i])
  {
    if i > 0 {
      SoundInEveryInterleaving(states, actions, i - 1);
      ActionKeepsSound(states[i - 1], actions[i - 1]);
    }
  }

  // ---- What the cleanup may touch ----

  /** The cleanup's update only ever reaches the very version it listed, which had outlived its TTL. */
  lemma CleanupStripsOnlyWhatItListed(s: State, t: nat, o: Outcome)
    requires Sound(s) && Enabled(s, CleanStrip(t, o))
    ensures Do(s, CleanStrip(t, o)).obj != s.obj ==> s.obj == Some(s.threads[t].item) && !Young(s)
  {
    assert ThreadFits(s, s.threads[t]);
  }

  /** Its delete reaches an object within the TTL exactly when the name has passed to another object since
      the listing and the call still changes that one; the turn itself is taken to be shorter than the TTL. */
  lemma CleanupHitsYoungExactly(s: State, t: nat, o: Outcome)
    requires Sound(s) && Enabled(s, CleanDelete(t, o)) && s.now - s.threads[t].at <= RESERVATION_TTL
    ensures Young(s) && Do(s, CleanDelete(t, o)).obj != s.obj <==>
            && s.obj.Some? && s.obj.value.uid != s.threads[t].item.uid
            && o != NoEffect && !(s.obj.value.protection == Protected && s.obj.value.deleting)
  {
    assert ThreadFits(s, s.threads[t]);
  }

  /** In every interleaving: what a cleanup call changes had outlived its TTL or was made after the listing,
      and what it removes had outlived its TTL or had been stripped by a PostBind of the completed gang. */
  lemma CleanupInEveryInterleaving(states: seq<State>, actions: seq<Action>, i: nat)
    requires IsRun(states, actions) && i < |actions| && (actions[i].CleanStrip? || actions[i].CleanDelete?)
    requires states[i + 1].obj != states[i].obj && Young(states[i])
    ensures var item, at := states[i].threads[actions[i].t].item, states[i].threads[actions[i].t].at;
            && actions[i].CleanDelete?
            && states[i].obj.value.uid != item.uid && states[i].obj.value.created >= at
            && (states[i + 1].obj.None? ==> states[i].obj.value.protection == StrippedByBinder)
  {
    SoundInEveryInterleaving(states, actions, i);
    assert ThreadFits(states[i], states[i].threads[actions[i].t]);
  }

  // ---- What PostBind may touch ----

  /** PostBind's delete goes by name as well: it changes an object other than the one listed exactly when the
      name has changed hands and the call still takes effect; that object was made after the listing, and if it
      is still protected it is only marked. */
  lemma PostBindHitsAnotherExactly(s: State, t: nat, o: Outcome)
    requires Sound(s) && Enabled(s, BindDelete(t, o))
    ensures var s', item, at := Do(s, BindDelete(t, o)), s.threads[t].item, s.threads[t].at;
            var another := s.obj.Some? && s.obj.value.uid != item.uid;
            && (another && s'.obj != s.obj <==>
                  another && o != NoEffect && !(s.obj.value.protection == Protected && s.obj.value.deleting))
            && (another ==> s.obj.value.created >= at)
            && (another && s.obj.value.protection == Protected ==> s'.obj.Some?)
  {
    assert ThreadFits(s, s.threads[t]);
  }

  /** Its update, in contrast, only ever reaches the very version it listed. */
  lemma PostBindStripsOnlyWhatItListed(s: State, t: nat, o: Outcome)
    requires Sound(s) && Enabled(s, BindStrip(t, o))
    ensures Do(s, BindStrip(t, o)).obj != s.obj ==> s.obj == Some(s.threads[t].item)
  {
    assert ThreadFits(s, s.threads[t]);
  }

  // ---- Marks and objects ----

  /** On its way to create the object, or to take the mark off. */
  predicate OnItsWay(thread: Thread) {
    thread.Creates? || thread.Fetches? || thread.BinderStrips? || thread.BinderDeletes? || thread.Unmarks?
  }

  ghost predicate Tended(s: State) {
    exists t :: t in s.threads && OnItsWay(s.threads[t])
  }

  /** The promise under concurrency: a marked gang has its object, or somebody is seeing to it. */
  ghost predicate Promise(s: State) {
    s.marked && s.obj.None? ==> Tended(s)
  }

  /** With nobody else under way, the cleanup removes a marked gang's object without a delete reporting it. */
  ghost predicate StrandsTheMark(s: State, a: Action)
    requires Enabled(s, a)
  {
    && s.marked && s.obj.Some? && !Tended(s)
    && match a
       case CleanStrip(t, o) =>
         o != NoEffect && s.obj.value.version == s.threads[t].item.version && s.obj.value.deleting
       case CleanDelete(t, o) => o == LostReply && s.obj.value.protection != Protected
       case _ => false
  }

  lemma OthersKeepTending(s: State, a: Action, t: nat)
    requires Enabled(s, a) && t in s.threads && OnItsWay(s.threads[t]) && Actor(a) != Some(t)
    ensures Tended(Do(s, a))
  {
    OthersStand(s, a, t);
  }

  /** An action of a thread that is not on its way never leaves the gang marked and untended without an
      object, unless it strands the mark. */
  lemma UntendedActionKeepsPromiseExactly(s: State, a: Action)
    requires Enabled(s, a) && Promise(s) && !Tended(s)
    ensures Promise(Do(s, a)) <==> !StrandsTheMark(s, a)
  {
    var s' := Do(s, a);
    if StrandsTheMark(s, a) {
      forall t | t in s'.threads ensures !OnItsWay(s'.threads[t]) {
        if Actor(a) != Some(t) { OthersStand(s, a, t); }
      }
    } else if s'.marked && s'.obj.None? && !a.Tick? {
      assert a.t in s'.threads && OnItsWay(s'.threads[a.t]);
    }
  }

  lemma ActorKeepsPromise(s: State, a: Action)
    requires Enabled(s, a) && !a.Tick? && a.t in s.threads && OnItsWay(s.threads[a.t])
    ensures Promise(Do(s, a))
  {
    var s' := Do(s, a);
    if s'.marked && s'.obj.None? { assert a.t in s'.threads && OnItsWay(s'.threads[a.t]); }
  }

  lemma ActionKeepsPromiseExactly(s: State, a: Action)
    requires Enabled(s, a) && Promise(s)
    ensures Promise(Do(s, a)) <==> !StrandsTheMark(s, a)
  {
    if Tended(s) {
      var t :| t in s.threads && OnItsWay(s.threads[t]);
      if Actor(a) == Some(t) { ActorKeepsPromise(s, a); } else { OthersKeepTending(s, a, t); }
    } else {
      UntendedActionKeepsPromiseExactly(s, a);
    }
  }

  /** The law of interleaved runs: the promise has held up to state n exactly when no action before n
      stranded a mark. */
  lemma PromiseHoldsExactly(states: seq<State>, actions: seq<Action>, n: nat)
    requires IsRun(states, actions) && n < |states|
    ensures (forall i :: 0 <= i <= n ==> Promise(states[i])) <==>
            (forall j :: 0 <= j < n ==> !StrandsTheMark(states[j], actions[j]))
  {
    var kept := i requires 0 <= i < |states| => Promise(states[i]);
    var broken := j requires 0 <= j < |actions| && Enabled(states[j], actions[j]) => StrandsTheMark(states[j], actions[j]);
    forall k | 0 <= k < n && kept(k) ensures kept(k + 1) <==> !broken(k) {
      ActionKeepsPromiseExactly(states[k], actions[k]);
    }
    KeptUntilBroken(kept, broken, n);
    assert forall i :: 0 <= i <= n ==> (kept(i) <==> Promise(states[i]));
    assert forall j :: 0 <= j < n ==> (broken(j) <==> StrandsTheMark(states[j], actions[j]));
  }

  // ---- Both can go wrong although every call is served and answered ----

  const EMPTY := State(false, None, 0, 0, map[])

  predicate Served(a: Action) {
    match a
    case Create(_, o) => o == Works
    case Fetch(_, ok) => ok
    case BindStrip(_, o) => o == Works
    case BindDelete(_, o) => o == Works
    case CleanStrip(_, o) => o == Works
    case CleanDelete(_, o) => o == Works
    case _ => true
  }

  ghost predicate WorkingRun(states: seq<State>, actions: seq<Action>) {
    && IsRun(states, actions) && states[0] == EMPTY
    && forall i :: 0 <= i < |actions| ==> Served(actions[i])
  }

  /** Reached from nothing by a run in which every call is served and answered. */
  ghost predicate Reached(s: State) {
    exists states, actions :: WorkingRun(states, actions) && states[|actions|] == s
  }

  lemma EmptyIsReached()
    ensures Reached(EMPTY)
  {
    var none: seq<Action> := [];
    assert WorkingRun([EMPTY], none) && [EMPTY][|none|] == EMPTY;
  }

  lemma Extend(s: State, a: Action)
    requires Reached(s) && Enabled(s, a) && Served(a)
    ensures Reached(Do(s, a))
  {
    var states, actions :| WorkingRun(states, actions) && states[|actions|] == s;
    var states', actions' := states + [Do(s, a)], actions + [a];
    assert WorkingRun(states', actions') && states'[|actions'|] == Do(s, a);
  }

  lemma ReachedIsSound(s: State)
    requires Reached(s)
    ensures Sound(s)
  {
    var states, actions :| WorkingRun(states, actions) && states[|actions|] == s;
    SoundInEveryInterleaving(states, actions, |actions|);
  }

  /** PreFilter, start to end, where there is no object. */
  lemma PreFilterCreates(s: State, t: nat) returns (s': State)
    requires Reached(s) && t !in s.threads && !s.marked && s.obj.None?
    ensures Reached(s') && s' == Created(s).(marked := true)
  {
    Extend(s, Mark(t));
    var s1 := Do(s, Mark(t));
    Extend(s1, Create(t, Works));
    s' := Do(s1, Create(t, Works));
    assert s'.threads == s.threads;
  }

  /** PreFilter, start to end, where an object is there. */
  lemma PreFilterFetches(s: State, t: nat) returns (s': State)
    requires Reached(s) && t !in s.threads && !s.marked && s.obj.Some?
    ensures Reached(s') && s' == s.(marked := true)
  {
    Extend(s, Mark(t));
    var s1 := Do(s, Mark(t));
    Extend(s1, Create(t, Works));
    var s2 := Do(s1, Create(t, Works));
    Extend(s2, Fetch(t, true));
    s' := Do(s2, Fetch(t, true));
    assert s'.threads == s.threads;
  }

  lemma PostBindStrips(s: State, t: nat) returns (s': State)
    requires Reached(s) && t !in s.threads && s.obj.Some?
    requires s.obj.value.protection == Protected && !s.obj.value.deleting
    ensures Reached(s') && s'.obj.Some? && s'.obj.value.protection == StrippedByBinder
    ensures s' == s.(obj := s'.obj, next := s.next + 1).Go(t, BinderDeletes(s.obj.value, s.now))
  {
    Extend(s, BindList(t));
    var s1 := Do(s, BindList(t));
    Extend(s1, BindStrip(t, Works));
    s' := Do(s1, BindStrip(t, Works));
    assert s'.threads == s.threads[t := BinderDeletes(s.obj.value, s.now)];
  }

  /** PostBind of the completed gang, start to end. */
  lemma PostBindClears(s: State, t: nat) returns (s': State)
    requires Reached(s) && t !in s.threads && s.obj.Some?
    requires s.obj.value.protection == Protected && !s.obj.value.deleting
    ensures Reached(s') && s' == s.(marked := false, obj := None, next := s.next + 1)
  {
    var s2 := PostBindStrips(s, t);
    Extend(s2, BindDelete(t, Works));
    var s3 := Do(s2, BindDelete(t, Works));
    Extend(s3, Unmark(t));
    s' := Do(s3, Unmark(t));
    assert s'.threads == s.threads;
  }

  /** A cleanup turn up to its first call on the object. */
  lemma CleanupBegins(s: State, t: nat) returns (s': State)
    requires Reached(s) && t !in s.threads && s.marked && s.obj.Some?
    requires s.obj.value.protection == Protected && !Young(s)
    ensures Reached(s') && s' == s.Go(t, CleanerStrips(s.obj.value, s.now))
  {
    Extend(s, CleanVisit(t));
    var s1 := Do(s, CleanVisit(t));
    Extend(s1, CleanList(t));
    var s2 := Do(s1, CleanList(t));
    Extend(s2, CleanCheck(t, true));
    s' := Do(s2, CleanCheck(t, true));
    assert s'.threads == s.threads[t := CleanerStrips(s.obj.value, s.now)];
  }

  /** The cleanup lists the old object; PostBind deletes it; PreFilter creates another under the same name. */
  lemma ReplacedUnderCleanup() returns (s: State)
    ensures Reached(s) && s.marked && Young(s)
    ensures s.obj.value.protection == Protected && !s.obj.value.deleting
    ensures 1 in s.threads && s.threads.Keys == {1} && s.threads[1].CleanerStrips?
    ensures s.threads[1].item.version < s.obj.value.version
  {
    EmptyIsReached();
    var s1 := PreFilterCreates(EMPTY, 0);
    Extend(s1, Tick(RESERVATION_TTL + CLEANUP_INTERVAL));
    var s2 := CleanupBegins(Do(s1, Tick(RESERVATION_TTL + CLEANUP_INTERVAL)), 1);
    var s3 := PostBindClears(s2, 2);
    s := PreFilterCreates(s3, 2);
  }

  /** The cleanup's update is then turned down, and its delete hits the new object, well within its TTL. */
  lemma CleanupCanHitAReplacement() returns (s: State, t: nat)
    ensures Reached(s) && Enabled(s, CleanDelete(t, Works)) && s.threads.Keys == {t}
    ensures s.marked && Young(s) && s.obj.value.protection == Protected && !s.obj.value.deleting
    ensures Do(s, CleanDelete(t, Works)).obj.Some? && Do(s, CleanDelete(t, Works)).obj.value.deleting
  {
    var s1 := ReplacedUnderCleanup();
    t := 1;
    Extend(s1, CleanStrip(1, Works));
    s := Do(s1, CleanStrip(1, Works));
  }

  /** And so a mark can be stranded with no call lost: PreFilter next finds the dying object, and when
      that has outlived its TTL the update of the next cleanup removes it before the delete. */
  lemma MarkCanBeStrandedWithNoCallLost() returns (s: State)
    ensures Reached(s) && s.marked && s.obj.None? && s.threads == map[]
  {
    var s1, t := CleanupCanHitAReplacement();
    Extend(s1, CleanDelete(t, Works));
    var s2 := Do(s1, CleanDelete(t, Works));
    Extend(s2, Unmark(t));
    var s3 := PreFilterFetches(Do(s2, Unmark(t)), t);
    ReachedIsSound(s3);
    Extend(s3, Tick(RESERVATION_TTL + CLEANUP_INTERVAL));
    var s4 := CleanupBegins(Do(s3, Tick(RESERVATION_TTL + CLEANUP_INTERVAL)), t);
    s := LastCleanup(s4, t);
  }

  lemma LastCleanup(s: State, t: nat) returns (s': State)
    requires Reached(s) && s.marked && s.obj.Some? && s.obj.value.deleting
    requires t in s.threads && s.threads.Keys == {t} && s.threads[t].CleanerStrips? && s.threads[t].item == s.obj.value
    ensures Reached(s') && s'.marked && s'.obj.None? && s'.threads == map[]
  {
    Extend(s, CleanStrip(t, Works));
    var s1 := Do(s, CleanStrip(t, Works));
    Extend(s1, CleanDelete(t, Works));
    s' := Do(s1, CleanDelete(t, Works));
    assert s'.threads.Keys == {};
  }

  /** Two PostBinds of the completed gang: the slower one's delete hits the object of the PreFilter that came
      after the faster one, which is marked in between and left dying and unmarked. */
  lemma PostBindCanHitAReplacement() returns (s: State, t: nat)
    ensures Reached(s) && Enabled(s, BindDelete(t, Works))
    ensures s.marked && s.obj.Some? && s.obj.value.protection == Protected && !s.obj.value.deleting
    ensures s.obj.value.uid != s.threads[t].item.uid && s.threads.Keys == {t}
    ensures Do(s, BindDelete(t, Works)).obj.Some? && Do(s, BindDelete(t, Works)).obj.value.deleting
  {
    EmptyIsReached();
    var s1 := PreFilterCreates(EMPTY, 0);
    var s2 := PostBindStrips(s1, 0);
    var s3 := LatePostBindClears(s2, 1);
    s := PreFilterCreates(s3, 1);
    t := 0;
  }

  /** PostBind, start to end, where another has stripped the object. */
  lemma LatePostBindClears(s: State, t: nat) returns (s': State)
    requires Reached(s) && t !in s.threads && s.obj.Some? && s.obj.value.protection != Protected
    ensures Reached(s') && s' == s.(marked := false, obj := None)
  {
    Extend(s, BindList(t));
    var s1 := Do(s, BindList(t));
    Extend(s1, BindDelete(t, Works));
    var s2 := Do(s1, BindDelete(t, Works));
    Extend(s2, Unmark(t));
    s' := Do(s2, Unmark(t));
    assert s'.threads == s.threads;
  }

  // ---- Undisturbed, the actions of a call are the step of the coarse model ----

  function AsReservation(g: string, r: Object): Reservation {
    Reservation(g, if r.protection == Protected then [OurFinalizer] else [], r.created, r.deleting)
  }

  /** One gang's part of the coarse state. */
  function Coarse(s: State, ns: Namespace, g: string): ProtocolState {
    ProtocolState(if s.marked then {GangKey(ns, g)} else {},
                  if s.obj.Some? then map[IdOf(ns, g) := AsReservation(g, s.obj.value)] else map[])
  }

  /** PreFilter alone: mark, create, perhaps fetch, and unmark after an error. */
  function PreFilterTurn(s: State, t: nat, faults: Faults): State
    requires t !in s.threads
  {
    if s.marked then s
    else
      var s1 := Do(Do(s, Mark(t)), Create(t, faults.create));
      var s2 := if t in s1.threads && s1.threads[t].Fetches? then Do(s1, Fetch(t, !faults.get)) else s1;
      if t in s2.threads && s2.threads[t].Unmarks? then Do(s2, Unmark(t)) else s2
  }

  lemma UndisturbedPreFilterIsStep(s: State, t: nat, ns: Namespace, m: Membership, faults: Faults)
    requires t !in s.threads && m.IsGang()
    ensures PreFilterTurn(s, t, faults).threads == s.threads
    ensures Coarse(PreFilterTurn(s, t, faults), ns, m.name) == PreFilterStep(Coarse(s, ns, m.name), ns, m, faults, s.now)
  {
  }

  /** The two calls on an object just listed: update unless our finalizer is off already, then delete. */
  function StripAndDelete(s: State, stripper: Protection, faults: Faults, id: ObjectId): State
    requires s.obj.Some?
  {
    var stripped := if s.obj.value.protection == Protected then Strip(s, s.obj.value, stripper, faults.Update(id)) else s;
    Delete(stripped, faults.Delete(id))
  }

  lemma OthersOfOurs()
    ensures |Others([OurFinalizer], OurFinalizer)| == 0
  {
  }

  /** What the coarse model leaves of a protected object, and of one without finalizers. */
  lemma RemoveByProtection(r: Reservation, id: ObjectId, faults: Faults)
    ensures r.finalizers == [OurFinalizer] && faults.Update(id) != NoEffect ==>
              Remove(r, id, faults) ==
                if r.deleting then Removal(None, false)
                else if faults.Delete(id) == NoEffect then Removal(Some(r.(finalizers := [])), false)
                else Removal(None, faults.Delete(id) == Works)
    ensures r.finalizers == [OurFinalizer] && faults.Update(id) == NoEffect ==>
              Remove(r, id, faults) ==
                if faults.Delete(id) == NoEffect then Removal(Some(r), false)
                else Removal(Some(r.(deleting := true)), faults.Delete(id) == Works)
    ensures r.finalizers == [] ==>
              Remove(r, id, faults) ==
                if faults.Delete(id) == NoEffect then Removal(Some(r), false) else Removal(None, faults.Delete(id) == Works)
  {
    OthersOfOurs();
  }

  /** They leave what the coarse model says, and the delete reports what it says. */
  lemma UndisturbedRemovalIsRemove(s: State, stripper: Protection, g: string, faults: Faults, id: ObjectId)
    requires s.obj.Some? && stripper != Protected
    ensures var s', coarse := StripAndDelete(s, stripper, faults, id), Remove(AsReservation(g, s.obj.value), id, faults);
            && coarse.left == (if s'.obj.Some? then Some(AsReservation(g, s'.obj.value)) else None)
            && (coarse.reported <==> DeleteReports(s.obj.value, faults, id))
            && s'.marked == s.marked && s'.threads == s.threads
  {
    RemoveByProtection(AsReservation(g, s.obj.value), id, faults);
  }

  /** PostBind of the completed gang alone: list, strip and delete what is there, unmark. */
  function PostBindTurn(s: State, t: nat, faults: Faults, id: ObjectId): State
    requires t !in s.threads
  {
    PostBindRest(Do(s, BindList(t)), t, faults, id)
  }

  predicate MayUnmark(s: State, t: nat) {
    t in s.threads && (s.threads[t].BinderStrips? || s.threads[t].BinderDeletes? || s.threads[t].Unmarks?)
  }

  function PostBindRest(s: State, t: nat, faults: Faults, id: ObjectId): State
    requires MayUnmark(s, t)
  {
    var s1 := if s.threads[t].BinderStrips? then Do(s, BindStrip(t, faults.Update(id))) else s;
    var s2 := if s1.threads[t].BinderDeletes? then Do(s1, BindDelete(t, faults.Delete(id))) else s1;
    Do(s2, Unmark(t))
  }

  lemma PostBindRestIsRemoval(s: State, t: nat, faults: Faults, id: ObjectId)
    requires MayUnmark(s, t) && (s.obj.None? <==> s.threads[t].Unmarks?)
    requires s.obj.Some? && s.threads[t].BinderStrips? ==>
               s.threads[t].item == s.obj.value && s.obj.value.protection == Protected
    requires s.obj.Some? && s.threads[t].BinderDeletes? ==> s.obj.value.protection != Protected
    ensures var s' := PostBindRest(s, t, faults, id);
            && !s'.marked && s'.threads == s.threads - {t}
            && s'.obj == if s.obj.Some? then StripAndDelete(s, StrippedByBinder, faults, id).obj else None
  {
  }

  lemma PostBindTurnIsRemoval(s: State, t: nat, faults: Faults, id: ObjectId)
    requires t !in s.threads
    ensures PostBindTurn(s, t, faults, id).threads == s.threads && !PostBindTurn(s, t, faults, id).marked
    ensures PostBindTurn(s, t, faults, id).obj ==
            if s.obj.Some? then StripAndDelete(s, StrippedByBinder, faults, id).obj else None
  {
    var s1 := Do(s, BindList(t));
    PostBindRestIsRemoval(s1, t, faults, id);
    assert s1.threads - {t} == s.threads;
  }

  lemma UndisturbedPostBindIsStep(s: State, t: nat, ns: Namespace, m: Membership, listing: Option<seq<Pod>>, faults: Faults)
    requires t !in s.threads && m.IsGang() && '/' !in m.name
    requires Complete(listing, m.name, m.minAvailable) && !faults.list
    ensures PostBindTurn(s, t, faults, IdOf(ns, m.name)).threads == s.threads
    ensures PostBindStep(Coarse(s, ns, m.name), ns, m, listing, faults,
                         Coarse(PostBindTurn(s, t, faults, IdOf(ns, m.name)), ns, m.name))
  {
    var id := IdOf(ns, m.name);
    PostBindTurnIsRemoval(s, t, faults, id);
    if s.obj.Some? { UndisturbedRemovalIsRemove(s, StrippedByBinder, m.name, faults, id); }
  }

  /** A cleanup turn alone, up to the end of the thread. */
  function CleanupTurn(s: State, t: nat, allRunning: bool, faults: Faults, id: ObjectId): State
    requires t !in s.threads
  {
    if !s.marked then s
    else
      var listed := Do(Do(s, CleanVisit(t)), CleanList(t));
      if t !in listed.threads then listed
      else
        var checked := Do(listed, CleanCheck(t, allRunning));
        if t !in checked.threads then checked else CleanupRest(checked, t, faults, id)
  }

  predicate MayDelete(s: State, t: nat) {
    t in s.threads && (s.threads[t].CleanerStrips? || s.threads[t].CleanerDeletes?)
  }

  function CleanupRest(s: State, t: nat, faults: Faults, id: ObjectId): State
    requires MayDelete(s, t)
  {
    var s1 := if s.threads[t].CleanerStrips? then Do(s, CleanStrip(t, faults.Update(id))) else s;
    var s2 := Do(s1, CleanDelete(t, faults.Delete(id)));
    if t in s2.threads then Do(s2, Unmark(t)) else s2
  }

  /** What the cleanup's delete reports for an object just listed. */
  predicate DeleteReports(r: Object, faults: Faults, id: ObjectId) {
    faults.Delete(id) == Works && !(r.protection == Protected && faults.Update(id) != NoEffect && r.deleting)
  }

  predicate AboutToDelete(s: State, t: nat) {
    && MayDelete(s, t) && s.obj.Some? && s.threads[t].item == s.obj.value
    && (s.threads[t].CleanerStrips? <==> s.obj.value.protection == Protected)
  }

  lemma CleanupRestIsRemoval(s: State, t: nat, faults: Faults, id: ObjectId)
    requires AboutToDelete(s, t)
    ensures CleanupRest(s, t, faults, id).obj == StripAndDelete(s, StrippedByCleanup, faults, id).obj
  {
  }

  lemma CleanupRestUnmarks(s: State, t: nat, faults: Faults, id: ObjectId)
    requires AboutToDelete(s, t)
    ensures CleanupRest(s, t, faults, id).threads == s.threads - {t}
    ensures CleanupRest(s, t, faults, id).marked == (s.marked && !DeleteReports(s.obj.value, faults, id))
  {
  }

  lemma CleanupTurnIsRemoval(s: State, t: nat, allRunning: bool, faults: Faults, id: ObjectId)
    requires t !in s.threads
    ensures var s' := CleanupTurn(s, t, allRunning, faults, id);
            && s'.threads == s.threads
            && if s.marked && s.obj.Some? && !Young(s) && allRunning
               then && s'.obj == StripAndDelete(s, StrippedByCleanup, faults, id).obj
                    && s'.marked == !DeleteReports(s.obj.value, faults, id)
               else s'.obj == s.obj && s'.marked == s.marked
  {
    if s.marked && s.obj.Some? && !Young(s) && allRunning {
      var checked := Do(Do(Do(s, CleanVisit(t)), CleanList(t)), CleanCheck(t, allRunning));
      assert checked.obj == s.obj && checked.marked && checked.next == s.next;
      CleanupRestIsRemoval(checked, t, faults, id);
      CleanupRestUnmarks(checked, t, faults, id);
      assert checked.threads - {t} == s.threads;
    }
  }

  lemma UndisturbedCleanupIsStep(s: State, t: nat, ns: Namespace, g: string, listing: Option<seq<Pod>>, faults: Faults)
    requires t !in s.threads && '/' !in g && !faults.list
    ensures var s' := CleanupTurn(s, t, AllMembersRunning(listing, g), faults, IdOf(ns, g));
            && s'.threads == s.threads
            && CleanupStep(Coarse(s, ns, g), ns, g, listing, faults, s.now, Coarse(s', ns, g))
  {
    var id := IdOf(ns, g);
    var allRunning := AllMembersRunning(listing, g);
    CleanupTurnIsRemoval(s, t, allRunning, faults, id);
    if s.marked && s.obj.Some? && !Young(s) && allRunning {
      UndisturbedRemovalIsRemove(s, StrippedByCleanup, g, faults, id);
      assert ExpiredItemsOf(Coarse(s, ns, g).store, ns, g, s.now) == {id};
    } else {
      assert ExpiredItemsOf(Coarse(s, ns, g).store, ns, g, s.now) == {} || !s.marked || !allRunning;
    }
  }
}
