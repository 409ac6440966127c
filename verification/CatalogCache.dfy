/** The tool-catalog cache of the native gateway: a 30-second TTL, one refresh at a
    time, stale answers while it runs, and explicit invalidation.  Any number of
    threads call `currentToolCatalog`; each critical section of `mutex_` is one step,
    and the collection between the two sections is open to every other step. */
module CatalogCache {
  import opened Basics

  const TTL_SECONDS: nat := 30

  // One run of collectToolCatalog: its number, and the step at which it began.
  datatype Flight = Flight(number: nat, began: nat)

  // What a caller got: a cached catalog within its TTL, whatever the cache held while
  // another refresh ran, the empty catalog of an unattached bridge, its own fresh
  // collection, or the collection's exception.
  datatype Answer<+C> = Hit(catalog: C) | Stale(catalog: C) | Unattached | Fresh(catalog: C, flight: Flight) | Threw

  datatype Pc<+C> = Idle | Collecting(flight: Flight) | Collected(flight: Flight, catalog: C) | Done(answer: Answer<C>)

  // Which thread runs which flight.
  datatype Refresh = Refresh(thread: nat, flight: Flight)

  // History: `airborne` is the refresh now running, `cachedBy` is the flight that published
  // the cache, `publishedAt` the clock when that happened; `invalidatedAt` is
  // the step of the last invalidation and `racing` the refresh then running.
  datatype State<C> = State(
    now: nat,
    validUntil: nat,
    cache: C,
    inFlight: bool,
    attached: bool,
    threads: seq<Pc<C>>,
    step: nat,
    flights: nat,
    cachedBy: Option<Flight>,
    publishedAt: nat,
    invalidatedAt: nat,
    racing: Option<Refresh>,
    airborne: Option<Refresh>)

  datatype Event<C> =
    | Tick(seconds: nat)
    | Attach
    | Invalidate
    | Call(i: nat)
    | Collect(i: nat, catalog: C)
    | CollectThrows(i: nat)
    | Publish(i: nat)
    | Return(i: nat)

  predicate Initial<C(==)>(s: State<C>, empty: C) {
    && s.validUntil == 0 && s.cache == empty && !s.inFlight
    && s.step == 0 && s.flights == 0 && s.cachedBy == None && s.publishedAt == 0
    && s.invalidatedAt == 0 && s.racing == None && s.airborne == None
    && forall i :: 0 <= i < |s.threads| ==> s.threads[i] == Idle
  }

  predicate Enabled<C(==)>(s: State<C>, e: Event<C>) {
    match e
    case Tick(_) => true
    case Attach => true
    case Invalidate => true
    case Call(i) => i < |s.threads| && s.threads[i].Idle?
    case Collect(i, _) => i < |s.threads| && s.threads[i].Collecting?
    case CollectThrows(i) => i < |s.threads| && s.threads[i].Collecting?
    case Publish(i) => i < |s.threads| && s.threads[i].Collected?
    case Return(i) => i < |s.threads| && s.threads[i].Done?
  }

  function To<C>(s: State<C>, i: nat, pc: Pc<C>): State<C>
    requires i < |s.threads|
  {
    s.(threads := s.threads[i := pc])
  }

  // First critical section of currentToolCatalog.
  function Enter<C>(s: State<C>, i: nat, empty: C): State<C>
    requires i < |s.threads|
  {
    if s.now < s.validUntil then To(s, i, Done(Hit(s.cache)))
    else if !s.attached then
      To(s, i, Done(Unattached)).(cache := empty, validUntil := s.now + TTL_SECONDS,
                                  cachedBy := Some(Flight(s.flights, s.step)), flights := s.flights + 1,
                                  publishedAt := s.now)
    else if s.inFlight then To(s, i, Done(Stale(s.cache)))
    else To(s, i, Collecting(Flight(s.flights, s.step)))
         .(inFlight := true, flights := s.flights + 1, airborne := Some(Refresh(i, Flight(s.flights, s.step))))
  }

  function After<C(==)>(s: State<C>, e: Event<C>, empty: C): State<C>
    requires Enabled(s, e)
  {
    var t := s.(step := s.step + 1);
    match e
    case Tick(seconds) => t.(now := t.now + seconds)
    case Attach => t.(attached := true)
    case Invalidate => t.(validUntil := 0, invalidatedAt := t.step, racing := t.airborne)
    case Call(i) => Enter(t, i, empty)
    case Collect(i, catalog) => To(t, i, Collected(t.threads[i].flight, catalog))
    case CollectThrows(i) => To(t, i, Done(Threw)).(inFlight := false, airborne := None)
    case Publish(i) =>
      var flight, catalog := t.threads[i].flight, t.threads[i].catalog;
      To(t, i, Done(Fresh(catalog, flight))).(inFlight := false, airborne := None, cache := catalog,
                                              validUntil := t.now + TTL_SECONDS, cachedBy := Some(flight),
                                              publishedAt := t.now)
    case Return(i) => To(t, i, Idle)
  }

  ghost predicate IsRun<C>(states: seq<State<C>>, events: seq<Event<C>>, empty: C) {
    && |states| == |events| + 1
    && Initial(states[0], empty)
    && forall j :: 0 <= j < |events| ==>
         Enabled(states[j], events[j]) && states[j + 1] == After(states[j], events[j], empty)
  }

  // ---- Invariant ----

  predicate Flying<C>(pc: Pc<C>) {
    pc.Collecting? || pc.Collected?
  }

  // toolCatalogRefreshInFlight_ says that exactly one thread is between its two sections.
  ghost predicate SingleFlight<C>(s: State<C>) {
    && (s.inFlight <==> s.airborne.Some?)
    && (s.airborne.Some? ==> s.airborne.value.thread < |s.threads|)
    && (forall i: nat :: i < |s.threads| ==>
          if Flying(s.threads[i]) then s.airborne == Some(Refresh(i, s.threads[i].flight))
          else s.airborne.Some? ==> s.airborne.value.thread != i)
  }

  predicate Known<C>(s: State<C>, flight: Flight) {
    flight.number < s.flights && flight.began <= s.step
  }

  predicate Dated<C>(s: State<C>) {
    && s.invalidatedAt <= s.step
    && (s.airborne.Some? ==> Known(s, s.airborne.value.flight))
    && (s.cachedBy.Some? ==> Known(s, s.cachedBy.value))
    && (s.racing.Some? ==> Known(s, s.racing.value.flight))
  }

  // A flight began before the last invalidation exactly when it was running at it.
  predicate Tracks<C>(s: State<C>, flight: Flight) {
    flight.began < s.invalidatedAt <==> s.racing.Some? && s.racing.value.flight == flight
  }

  // Nothing was published since the last invalidation while validUntil_ is still zero.
  predicate Tracked<C>(s: State<C>) {
    && (s.airborne.Some? ==> Tracks(s, s.airborne.value.flight))
    && (s.validUntil != 0 ==>
          && s.cachedBy.Some? && Tracks(s, s.cachedBy.value)
          && s.publishedAt <= s.now && s.validUntil == s.publishedAt + TTL_SECONDS)
    && (s.validUntil == 0 && s.cachedBy.Some? ==> s.cachedBy.value.began < s.invalidatedAt)
  }

  ghost predicate Inv<C>(s: State<C>) {
    SingleFlight(s) && Dated(s) && Tracked(s)
  }

  lemma {:induction false} CallKeepsInv<C>(s: State<C>, i: nat, empty: C)
    requires Inv(s) && Enabled(s, Call(i))
    ensures Inv(After(s, Call(i), empty))
  {
  }

  lemma {:induction false} CollectKeepsInv<C>(s: State<C>, i: nat, catalog: C, empty: C)
    requires Inv(s) && Enabled(s, Collect(i, catalog))
    ensures Inv(After(s, Collect(i, catalog), empty))
  {
  }

  lemma {:induction false} ThrowKeepsInv<C>(s: State<C>, i: nat, empty: C)
    requires Inv(s) && Enabled(s, CollectThrows(i))
    ensures Inv(After(s, CollectThrows(i), empty))
  {
  }

  lemma {:induction false} PublishKeepsInv<C>(s: State<C>, i: nat, empty: C)
    requires Inv(s) && Enabled(s, Publish(i))
    ensures Inv(After(s, Publish(i), empty))
  {
  }

  lemma {:induction false} ReturnKeepsInv<C>(s: State<C>, i: nat, empty: C)
    requires Inv(s) && Enabled(s, Return(i))
    ensures Inv(After(s, Return(i), empty))
  {
  }

  // Time passing, attaching and invalidating move no thread.
  lemma {:induction false} OutsideKeepsInv<C>(s: State<C>, e: Event<C>, empty: C)
    requires Inv(s) && Enabled(s, e) && (e.Tick? || e.Attach? || e.Invalidate?)
    ensures Inv(After(s, e, empty))
  {
  }

  lemma {:induction false} EveryStepKeepsInv<C>(s: State<C>, e: Event<C>, empty: C)
    requires Inv(s) && Enabled(s, e)
    ensures Inv(After(s, e, empty))
  {
    hide Inv, After, Enabled;
    match e
    case Call(i) => CallKeepsInv(s, i, empty);
    case Collect(i, catalog) => CollectKeepsInv(s, i, catalog, empty);
    case CollectThrows(i) => ThrowKeepsInv(s, i, empty);
    case Publish(i) => PublishKeepsInv(s, i, empty);
    case Return(i) => ReturnKeepsInv(s, i, empty);
    case _ => OutsideKeepsInv(s, e, empty);
  }

  lemma {:induction false} EveryRunIsSafe<C>(states: seq<State<C>>, events: seq<Event<C>>, empty: C, j: nat)
    requires IsRun(states, events, empty) && j < |states|
    ensures Inv(states[j])
  {
    if 0 < j {
      EveryRunIsSafe(states, events, empty, j - 1);
      EveryStepKeepsInv(states[j - 1], events[j - 1], empty);
    }
  }

  // ---- What callers see ----

  // A cached answer is younger than the TTL; it was collected from before the last
  // invalidation if and only if its refresh was already running when that came.
  lemma {:induction false} HitsAreYoung<C>(states: seq<State<C>>, events: seq<Event<C>>, empty: C, j: nat, i: nat)
    requires IsRun(states, events, empty) && j < |events| && events[j] == Call(i)
    requires states[j + 1].threads[i].Done? && states[j + 1].threads[i].answer.Hit?
    ensures var s := states[j];
            && states[j + 1].threads[i].answer.catalog == s.cache
            && s.now - s.publishedAt < TTL_SECONDS
            && s.cachedBy.Some?
            && (s.cachedBy.value.began < s.invalidatedAt <==>
                s.racing.Some? && s.racing.value.flight == s.cachedBy.value)
  {
    EveryRunIsSafe(states, events, empty, j);
  }

  // The flight that follows an invalidation which found none running collects after
  // it; so does every cached answer, until the next invalidation.
  lemma {:induction false} QuietInvalidationIsHonoured<C>(
      states: seq<State<C>>, events: seq<Event<C>>, empty: C, j: nat, i: nat)
    requires IsRun(states, events, empty) && j < |events| && states[j].racing == None
    requires events[j] == Call(i) || events[j] == Publish(i)
    ensures var s, pc := states[j], states[j + 1].threads[i];
            && (pc.Done? && pc.answer.Hit? ==> s.cachedBy.Some? && s.invalidatedAt <= s.cachedBy.value.began)
            && (pc.Done? && pc.answer.Fresh? ==> s.invalidatedAt <= pc.answer.flight.began)
  {
    EveryRunIsSafe(states, events, empty, j);
  }

  // A caller that must not wait gets Stale only while another thread refreshes.
  lemma {:induction false} StaleMeansRefreshing<C>(s: State<C>, i: nat, empty: C)
    requires Inv(s) && Enabled(s, Call(i))
    requires After(s, Call(i), empty).threads[i] == Done(Stale(s.cache))
    ensures s.airborne.Some? && s.airborne.value.thread != i && Flying(s.threads[s.airborne.value.thread])
    ensures s.validUntil <= s.now
  {
  }

  // What a thread publishes is what it collected.
  lemma {:induction false} PublishedWasCollected<C>(
      states: seq<State<C>>, events: seq<Event<C>>, empty: C, j: nat, i: nat)
    requires IsRun(states, events, empty) && j < |states| && i < |states[j].threads| && states[j].threads[i].Collected?
    ensures exists m :: 0 <= m < j && events[m] == Collect(i, states[j].threads[i].catalog)
  {
    var s, e := states[j - 1], events[j - 1];
    if e != Collect(i, states[j].threads[i].catalog) { PublishedWasCollected(states, events, empty, j - 1, i); }
  }

  // A caller that collected gets its own collection.
  lemma {:induction false} FreshIsOwnCollection<C>(
      states: seq<State<C>>, events: seq<Event<C>>, empty: C, j: nat, i: nat)
    requires IsRun(states, events, empty) && j < |states| && i < |states[j].threads|
    requires states[j].threads[i].Done? && states[j].threads[i].answer.Fresh?
    ensures exists m :: 0 <= m < j && events[m] == Collect(i, states[j].threads[i].answer.catalog)
  {
    var s, e := states[j - 1], events[j - 1];
    RunSteps(states, events, empty, j - 1);
    if e == Publish(i) {
      PublishedWasCollected(states, events, empty, j - 1, i);
    } else {
      OthersLeaveFresh(s, e, empty, i);
      FreshIsOwnCollection(states, events, empty, j - 1, i);
    }
  }

  lemma OthersLeaveFresh<C>(s: State<C>, e: Event<C>, empty: C, i: nat)
    requires Enabled(s, e) && e != Publish(i) && i < |After(s, e, empty).threads|
    requires After(s, e, empty).threads[i].Done? && After(s, e, empty).threads[i].answer.Fresh?
    ensures i < |s.threads| && s.threads[i] == After(s, e, empty).threads[i]
  {
  }

  // Without a bridge a caller is told so exactly where it would have refreshed: the cache is emptied, no refresh
  // starts, and the next callers get the empty catalog.
  lemma {:induction false} UnattachedEmpties<C>(s: State<C>, i: nat, j: nat, empty: C)
    requires Inv(s) && Enabled(s, Call(i)) && Enabled(s, Call(j)) && i != j && !s.attached
    requires s.cachedBy == None || s.publishedAt + TTL_SECONDS <= s.now
    ensures var first := After(s, Call(i), empty);
      && first.threads[i] == Done(Unattached) && first.airborne == s.airborne && first.inFlight == s.inFlight
      && After(first, Call(j), empty).threads[j] == Done(Hit(empty))
  {
  }

  lemma {:induction false} OnlyTheUnattachedAreTold<C>(s: State<C>, i: nat, empty: C)
    requires Enabled(s, Call(i)) && After(s, Call(i), empty).threads[i] == Done(Unattached)
    ensures !s.attached
  {
  }

  // Between the publication and state j nothing invalidated the cache, and less than its lifetime has passed.
  ghost predicate Young<C>(states: seq<State<C>>, events: seq<Event<C>>, k: nat, j: nat)
    requires |states| == |events| + 1 && k < j <= |events|
  {
    && (forall m :: k < m < j ==> events[m] != Invalidate)
    && states[j].now < states[k].now + TTL_SECONDS
  }

  lemma {:induction false} TimePasses<C>(s: State<C>, e: Event<C>, empty: C)
    requires Enabled(s, e)
    ensures s.now <= After(s, e, empty).now
  {
  }

  lemma {:induction false} YoungStays<C>(s: State<C>, e: Event<C>, empty: C)
    requires Inv(s) && Enabled(s, e) && e != Invalidate && s.airborne == None
    requires After(s, e, empty).now < s.validUntil
    ensures var s' := After(s, e, empty);
      s'.cache == s.cache && s'.validUntil == s.validUntil && s'.airborne == None
  {
  }

  lemma {:induction false} PublishSets<C>(s: State<C>, t: nat, empty: C)
    requires Enabled(s, Publish(t))
    ensures var s' := After(s, Publish(t), empty);
      s'.cache == s.threads[t].catalog && s'.airborne == None && s'.validUntil == s.now + TTL_SECONDS
  {
  }

  lemma {:induction false} PublishedStays<C>(
      states: seq<State<C>>, events: seq<Event<C>>, empty: C, k: nat, t: nat, j: nat)
    requires IsRun(states, events, empty) && k < j <= |events| && events[k] == Publish(t)
    requires Young(states, events, k, j) && Enabled(states[k], Publish(t))
    ensures states[j].cache == states[k].threads[t].catalog && states[j].airborne == None
    ensures states[j].validUntil == states[k].now + TTL_SECONDS
  {
    hide After, Enabled, Inv, Young;
    RunSteps(states, events, empty, j - 1);
    if k == j - 1 {
      PublishSets(states[k], t, empty);
    } else {
      YoungBefore(states, events, empty, k, j);
      PublishedStays(states, events, empty, k, t, j - 1);
      EveryRunIsSafe(states, events, empty, j - 1);
      YoungStays(states[j - 1], events[j - 1], empty);
    }
  }

  lemma RunSteps<C>(states: seq<State<C>>, events: seq<Event<C>>, empty: C, j: nat)
    requires IsRun(states, events, empty) && j < |events|
    ensures Enabled(states[j], events[j]) && states[j + 1] == After(states[j], events[j], empty)
  {
  }

  lemma YoungBefore<C>(states: seq<State<C>>, events: seq<Event<C>>, empty: C, k: nat, j: nat)
    requires IsRun(states, events, empty) && k < j - 1 && j <= |events| && Young(states, events, k, j)
    ensures Young(states, events, k, j - 1) && events[j - 1] != Invalidate
    ensures states[j].now < states[k].now + TTL_SECONDS
  {
    hide After, Enabled;
    TimePasses(states[j - 1], events[j - 1], empty);
  }

  // For its lifetime, until the next invalidation, every caller gets the catalog published, and none refreshes.
  lemma {:induction false} PublishedIsServed<C>(
      states: seq<State<C>>, events: seq<Event<C>>, empty: C, k: nat, t: nat, j: nat, i: nat)
    requires IsRun(states, events, empty) && k < j < |events| && events[k] == Publish(t)
    requires Young(states, events, k, j) && events[j] == Call(i)
    ensures states[j + 1].threads[i] == Done(Hit(states[k].threads[t].catalog))
    ensures states[j + 1].airborne == None && states[j + 1].flights == states[j].flights
  {
    PublishedStays(states, events, empty, k, t, j);
  }

  lemma {:induction false} InvalidStays<C>(states: seq<State<C>>, events: seq<Event<C>>, empty: C, k: nat, j: nat)
    requires IsRun(states, events, empty) && k < j <= |events| && events[k] == Invalidate
    requires forall m :: k < m < j ==> !events[m].Publish? && (events[m].Call? ==> states[m].attached)
    ensures states[j].validUntil == 0
  {
    if k < j - 1 { InvalidStays(states, events, empty, k, j - 1); }
  }

  // A caller that finds the catalog invalidated and not published since, or its lifetime over, refreshes it if
  // nobody does.
  lemma {:induction false} OldIsRefreshed<C>(
      states: seq<State<C>>, events: seq<Event<C>>, empty: C, k: nat, j: nat, i: nat)
    requires IsRun(states, events, empty) && j < |events| && events[j] == Call(i)
    requires states[j].attached && states[j].airborne == None
    requires
      || states[j].cachedBy == None
      || states[j].publishedAt + TTL_SECONDS <= states[j].now
      || (k < j && events[k] == Invalidate
          && forall m :: k < m < j ==> !events[m].Publish? && (events[m].Call? ==> states[m].attached))
    ensures states[j + 1].threads[i].Collecting? && states[j + 1].airborne.Some?
            && states[j + 1].airborne.value.thread == i && states[j + 1].flights == states[j].flights + 1
  {
    EveryRunIsSafe(states, events, empty, j);
    if k < j && events[k] == Invalidate
       && forall m :: k < m < j ==> !events[m].Publish? && (events[m].Call? ==> states[m].attached) {
      InvalidStays(states, events, empty, k, j);
    }
  }

  // A stale answer is the initial empty catalog while nothing was published yet.  Any other predates the
  // last invalidation exactly when nothing was published since or the refresh that was published raced it;
  // if neither, its lifetime has run out.
  lemma {:induction false} StaleAgainstInvalidation<C>(
      states: seq<State<C>>, events: seq<Event<C>>, empty: C, j: nat, i: nat)
    requires IsRun(states, events, empty) && j < |events| && events[j] == Call(i)
    requires states[j + 1].threads[i] == Done(Stale(states[j].cache))
    ensures var s := states[j];
      if s.cachedBy == None then s.cache == empty
      else
        && (s.cachedBy.value.began < s.invalidatedAt <==>
              s.validUntil == 0 || (s.racing.Some? && s.racing.value.flight == s.cachedBy.value))
        && (s.validUntil != 0 ==> TTL_SECONDS <= s.now - s.publishedAt)
  {
    EveryRunIsSafe(states, events, empty, j);
    UnpublishedIsEmpty(states, events, empty, j);
  }

  lemma {:induction false} UnpublishedIsEmpty<C>(states: seq<State<C>>, events: seq<Event<C>>, empty: C, j: nat)
    requires IsRun(states, events, empty) && j < |states|
    ensures states[j].cachedBy == None ==> states[j].cache == empty
  {
    if 0 < j {
      UnpublishedIsEmpty(states, events, empty, j - 1);
      CachingIsRecorded(states[j - 1], events[j - 1], empty);
    }
  }

  lemma CachingIsRecorded<C>(s: State<C>, e: Event<C>, empty: C)
    requires Enabled(s, e)
    ensures var s' := After(s, e, empty);
      s'.cachedBy.Some? || (s'.cachedBy == s.cachedBy && s'.cache == s.cache)
  {
  }

  // The race that QuietInvalidationIsHonoured leaves open: whatever an invalidation during a refresh
  // meant to drop is published after it and served to the next caller.
  lemma {:induction false} RacingInvalidationIsLost<C>(s: State<C>, i: nat, j: nat, empty: C)
    requires Inv(s) && Enabled(s, Publish(i)) && Enabled(s, Call(j))
    ensures var invalidated := After(s, Invalidate, empty);
            var published := After(invalidated, Publish(i), empty);
            var answered := After(published, Call(j), empty);
            && answered.threads[j] == Done(Hit(s.threads[i].catalog))
            && s.threads[i].flight.began < answered.invalidatedAt
  {
    assert s.airborne == Some(Refresh(i, s.threads[i].flight));
  }
}
