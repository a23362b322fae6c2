// Reorganisations after runs in which requests are registered and blocks are seen in any order.
module ClaimReorgRuns {
  import opened Common
  import opened Packages
  import opened ClaimState
  import opened ClaimInvariant
  import opened ClaimSpend
  import opened ClaimMature
  import opened ClaimReorg
  import opened ClaimTheorems
  import opened ClaimRegister
  import opened ClaimRuns

  // ---- Runs above a height ----

  // Blocks above `height` are seen in which nothing matures, and requests are registered from then on.
  ghost predicate StepAbove(s: State, step: Step, height: nat) {
    match step
    case Registering(reqs, confHeight, curHeight, oracle) =>
      height <= curHeight && CanRegister(s, reqs, confHeight, curHeight, oracle)
    case Seeing(b, oracle) => SpendsAbove(s, [b], height, oracle)
    case _ => false
  }

  ghost predicate StepsAbove(s: State, steps: seq<Step>, height: nat)
    decreases steps
  {
    steps == [] ||
    (StepAbove(s, steps[0], height)
     && (Apply(s, steps[0]).Some? ==> StepsAbove(Apply(s, steps[0]).value, steps[1..], height)))
  }

  // No claim is built for the package that holds `o`: it is dropped.
  ghost predicate Dropped(s: State, ready: seq<Package>, confHeight: nat, curHeight: nat, oracle: Oracle, o: OutPoint)
    decreases ready
  {
    ready != [] &&
    ((GenerateClaim(s, ready[0], curHeight, oracle).None? && Holds(ready[0], o))
     || Dropped(RegisterOne(s, ready[0], confHeight, curHeight, oracle), ready[1..], confHeight, curHeight, oracle, o))
  }

  // Registering adds what is requested and is no duplicate, and drops that for which no claim is built.
  ghost predicate StandsAfter(s: State, step: Step, was: bool, o: OutPoint) {
    match step
    case Registering(reqs, confHeight, curHeight, oracle) =>
      var (ready, queue) := Preprocess(s, reqs, curHeight);
      && (was || o in GroupBag(DropDuplicates(s, reqs)))
      && !Dropped(s.(locktimed := queue), ready, confHeight, curHeight, oracle, o)
    case _ => was
  }

  // Whether `o` is looked after once the steps are done, if it was before (`was`).
  ghost predicate StandsIn(s: State, steps: seq<Step>, was: bool, o: OutPoint)
    decreases steps
  {
    if steps == [] then was
    else match Apply(s, steps[0])
      case None => false
      case Some(t) => StandsIn(t, steps[1..], StandsAfter(s, steps[0], was, o), o)
  }

  // Links stay, events up to `height` stay, and what no request tracks keeps its locktime ahead.
  ghost predicate Continues(s: State, t: State, height: nat) {
    && Below(t.events, height) == Below(s.events, height)
    && (forall o :: o in s.claimable ==> o in t.claimable && t.claimable[o] == s.claimable[o])
    && (High(s, height) ==> High(t, height))
  }

  lemma ContinuesOn(s: State, t: State, u: State, height: nat)
    requires Continues(s, t, height) && Continues(t, u, height)
    ensures Continues(s, u, height)
  {
    hide High, Below;
  }

  // ---- Registering ----

  lemma {:induction false} DroppedWasHanded(s: State, ready: seq<Package>, confHeight: nat, curHeight: nat,
                                            oracle: Oracle, o: OutPoint)
    ensures Dropped(s, ready, confHeight, curHeight, oracle, o) ==> o in GroupBag(ready)
    decreases ready
  {
    hide GenerateClaim, RegisterOne;
    if ready != [] {
      BagOuts(ready[0].inputs);
      GroupBagCons(ready);
      DroppedWasHanded(RegisterOne(s, ready[0], confHeight, curHeight, oracle), ready[1..], confHeight, curHeight,
          oracle, o);
    }
  }

  lemma RegisterOneStands(s: State, req: Package, confHeight: nat, curHeight: nat, oracle: Oracle, o: OutPoint,
                          height: nat)
    requires Inv(s) && NewOuts(Outs(req.inputs), s) && NewId(s, req, curHeight, oracle)
    ensures
      var t := RegisterOne(s, req, confHeight, curHeight, oracle);
      && (Standing(t, o, height) <==>
            Standing(s, o, height) || (GenerateClaim(s, req, curHeight, oracle).Some? && Holds(req, o)))
      && (o in s.claimable ==> o in t.claimable && t.claimable[o] == s.claimable[o])
  {
    hide QueueBag, ContestedAbove, Records, FormedQueue, FormedRequests, GenerateClaim, Link, QueueApart, SameHeight;
    match GenerateClaim(s, req, curHeight, oracle)
    case None =>
    case Some(c) => LinkIs(s.claimable, req.inputs, c.id, confHeight);
  }

  lemma {:induction false} RegisterAllStands(s: State, ready: seq<Package>, confHeight: nat, curHeight: nat,
                                             oracle: Oracle, o: OutPoint, height: nat)
    requires Inv(s) && FormedGroup(ready) && NewIds(s, ready, confHeight, curHeight, oracle)
    requires NewBag(GroupBag(ready), s.claimable, QueueBag(s.locktimed), Contested(s.events))
    ensures
      var t := RegisterAll(s, ready, confHeight, curHeight, oracle);
      && (Standing(t, o, height) <==>
            Standing(s, o, height)
            || (o in GroupBag(ready) && !Dropped(s, ready, confHeight, curHeight, oracle, o)))
      && (o in s.claimable ==> o in t.claimable && t.claimable[o] == s.claimable[o])
    decreases ready
  {
    hide Inv, QueueBag, Contested, WellFormed, RegisterOne, NewId, GroupBag, NewBag, NewOuts, Standing, GenerateClaim;
    if ready == [] {
      NoGroup();
    } else {
      var req, rest := ready[0], ready[1..];
      assert req in ready;
      FirstIsNew(s, ready);
      RegisterOneKeepsInv(s, req, confHeight, curHeight, oracle);
      RegisterOneStands(s, req, confHeight, curHeight, oracle, o, height);
      var t := RegisterOne(s, req, confHeight, curHeight, oracle);
      RegisterOneLinks(s, req, confHeight, curHeight, oracle);
      RestIsNew(s, t, ready);
      RegisterAllStands(t, rest, confHeight, curHeight, oracle, o, height);
      DroppedWasHanded(t, rest, confHeight, curHeight, oracle, o);
      HandedOnce(s, ready, o, height);
    }
  }

  // What is handed over stands nowhere yet, and is in one package only.
  lemma HandedOnce(s: State, ready: seq<Package>, o: OutPoint, height: nat)
    requires ready != [] && NewBag(GroupBag(ready), s.claimable, QueueBag(s.locktimed), Contested(s.events))
    ensures o in GroupBag(ready) <==> Holds(ready[0], o) || o in GroupBag(ready[1..])
    ensures !(Holds(ready[0], o) && o in GroupBag(ready[1..]))
    ensures o in GroupBag(ready) ==> !Standing(s, o, height)
  {
    hide QueueBag, GroupBag;
    GroupBagCons(ready);
    BagOuts(ready[0].inputs);
    ContestedMore(s.events, height);
    assert GroupBag(ready)[o] == Bag(ready[0].inputs)[o] + GroupBag(ready[1..])[o];
  }

  lemma {:induction false} ContestedMore(events: seq<Entry>, height: nat)
    ensures ContestedAbove(events, height) <= Contested(events)
    decreases events
  {
    if events != [] {
      ContestedMore(events[..|events| - 1], height);
    }
  }

  lemma RegisterStands(s: State, reqs: seq<Piece>, confHeight: nat, curHeight: nat, oracle: Oracle, o: OutPoint,
                       height: nat)
    requires Consistent(s) && CanRegister(s, reqs, confHeight, curHeight, oracle)
    ensures
      var t := Register(s, reqs, confHeight, curHeight, oracle);
      && (Standing(t, o, height) <==>
            StandsAfter(s, Registering(reqs, confHeight, curHeight, oracle), Standing(s, o, height), o))
      && (o in s.claimable ==> o in t.claimable && t.claimable[o] == s.claimable[o])
  {
    hide Inv, Preprocess, GroupBag, QueueBag, NewBag, NewIds, DueBy, KeysAbove, CanRequest, FormedGroup, FormedQueue,
      DropDuplicates, Dropped, ContestedAbove, QueueApart, RegisterAll, Tracked;
    var (ready, queue) := Preprocess(s, reqs, curHeight);
    var u := s.(locktimed := queue);
    NewIsPlaced(s, reqs, curHeight);
    QueueKeepsInv(s, queue);
    RegisterAllStands(u, ready, confHeight, curHeight, oracle, o, height);
    DroppedWasHanded(u, ready, confHeight, curHeight, oracle, o);
    RegisterConserves(s, reqs, curHeight);
    InEither(GroupBag(ready), QueueBag(queue), GroupBag(DropDuplicates(s, reqs)), QueueBag(s.locktimed), o);
    if ready != [] { HandedOnce(u, ready, o, height); } else { NoGroup(); }
  }

  lemma InEither(a: multiset<OutPoint>, b: multiset<OutPoint>, c: multiset<OutPoint>, d: multiset<OutPoint>,
                 o: OutPoint)
    requires a + b == c + d
    ensures o in a || o in b <==> o in c || o in d
  {
    assert o in a + b <==> o in c + d;
  }

  lemma QueueKeepsInv(s: State, queue: Queue)
    requires Inv(s) && FormedQueue(queue) && QueueApart(QueueBag(queue), s.claimable, Contested(s.events))
    ensures Inv(s.(locktimed := queue))
  {
    hide Live, Owned, SameHeight, OneSpend, FormedEvents, Matching, Ordered, FormedQueue, QueueApart, FormedRequests,
      QueueBag, ContestedAbove;
  }

  lemma RegisterContinues(s: State, reqs: seq<Piece>, confHeight: nat, curHeight: nat, oracle: Oracle, height: nat)
    requires Consistent(s) && CanRegister(s, reqs, confHeight, curHeight, oracle) && height <= curHeight
    ensures Continues(s, Register(s, reqs, confHeight, curHeight, oracle), height)
  {
    hide Register, Inv, CanRegister, Below, HighGroup;
    var t := Register(s, reqs, confHeight, curHeight, oracle);
    RegisterPreparesReorg(s, reqs, confHeight, curHeight, oracle);
    HigherQueue(t.locktimed, curHeight, height);
    forall o | o in s.claimable ensures o in t.claimable && t.claimable[o] == s.claimable[o] {
      RegisterStands(s, reqs, confHeight, curHeight, oracle, o, height);
    }
  }

  lemma HigherQueue(q: Queue, high: nat, height: nat)
    requires HighQueue(q, high) && height <= high
    ensures HighQueue(q, height)
  {
  }

  // ---- Whole runs ----

  lemma SeeingContinues(s: State, b: Block, oracle: Oracle, height: nat)
    requires Consistent(s) && SpendsAbove(s, [b], height, oracle)
    ensures
      var m := Apply(s, Seeing(b, oracle));
      && m.Some? && Consistent(m.value) && Continues(s, m.value, height)
      && forall o :: Standing(m.value, o, height) <==> Standing(s, o, height)
  {
    hide Consistent, SpendsAbove, Matched, Ripe, High, Accounted;
    MatchedSpends(s, b, height, oracle);
  }

  lemma StepContinues(s: State, step: Step, height: nat)
    requires Consistent(s) && StepAbove(s, step, height)
    ensures Apply(s, step).Some? && Consistent(Apply(s, step).value) && Continues(s, Apply(s, step).value, height)
    ensures forall o ::
              Standing(Apply(s, step).value, o, height) <==> StandsAfter(s, step, Standing(s, o, height), o)
  {
    hide Consistent, CanRegister, SpendsAbove, Register, Matched, Continues, Standing;
    match step
    case Registering(reqs, confHeight, curHeight, oracle) =>
      RegisterKeepsConsistent(s, reqs, confHeight, curHeight, oracle);
      RegisterContinues(s, reqs, confHeight, curHeight, oracle, height);
      forall o
        ensures Standing(Apply(s, step).value, o, height) <==> StandsAfter(s, step, Standing(s, o, height), o)
      {
        RegisterStands(s, reqs, confHeight, curHeight, oracle, o, height);
      }
    case Seeing(b, oracle) =>
      SeeingContinues(s, b, oracle, height);
  }

  lemma {:induction false} RunContinues(s: State, steps: seq<Step>, height: nat)
    requires Consistent(s) && StepsAbove(s, steps, height)
    ensures
      var m := Run(s, steps);
      && m.Some? && Consistent(m.value) && Continues(s, m.value, height)
      && forall o :: Standing(m.value, o, height) <==> StandsIn(s, steps, Standing(s, o, height), o)
    decreases steps
  {
    hide Consistent, StepAbove, Apply, Continues, Standing, StandsAfter;
    if steps == [] {
      ContinuesItself(s, height);
    } else {
      StepContinues(s, steps[0], height);
      var t := Apply(s, steps[0]).value;
      RunContinues(t, steps[1..], height);
      ContinuesOn(s, t, Run(t, steps[1..]).value, height);
    }
  }

  lemma ContinuesItself(s: State, height: nat)
    ensures Continues(s, s, height)
  {
  }

  // ---- A reorganisation after such a run ----

  // From a consistent tracker at `height`, whose timelocked packages ask for more: after any run of
  // registered requests and seen blocks above `height` in which no event matures, disconnecting down
  // to `height` panics exactly when some undone spend does not fit its request. Otherwise events are as
  // before, the links are those of outputs created by `height`, and of these and of what is not
  // linked exactly that is watched which was before or has been requested since, but for what a claim
  // was not built for. The tracker is consistent again exactly when nothing goes back to the queue that
  // stays linked; then what is linked is watched by its own request, and the rest by the queue.
  lemma ReorgUndoesRun(s: State, steps: seq<Step>, height: nat, oracle: Oracle)
    requires Consistent(s) && EventsUpTo(s.events, height) && HighQueue(s.locktimed, height)
    requires StepsAbove(s, steps, height)
    ensures Run(s, steps).Some?
    ensures
      var m := Run(s, steps).value;
      && (forall o :: o in s.claimable ==> o in m.claimable && m.claimable[o] == s.claimable[o])
      && var v := Disconnect(m, height, oracle);
      && (v.Some? <==> AllFit(m.pending, m.claimable, m.events, height))
      && (v.Some? ==>
            && v.value.events == s.events
            && v.value.claimable == Low(m.claimable, height)
            && (forall o :: CreatedBy(m, o, height) ==>
                  (Watched(v.value, o) <==> StandsIn(s, steps, Watched(s, o), o)))
            && (Consistent(v.value) <==> NoneReturns(m.claimable, m.events, height))
            && (Consistent(v.value) ==>
                  && (forall o :: o in v.value.claimable ==>
                        (Tracked(v.value.pending, v.value.claimable, o) <==> StandsIn(s, steps, Watched(s, o), o)))
                  && (forall o :: o !in m.claimable ==>
                        (o in QueueBag(v.value.locktimed) <==> StandsIn(s, steps, Watched(s, o), o)))))
  {
    hide Inv, Disconnect, StepsAbove, Run, Watched, Standing, StandsIn, HighQueue, HighEvents, NoDup, EventsUpTo, Below,
      Low, AllFit, NoneReturns, Regained, QueueBag, Tracked;
    RunContinues(s, steps, height);
    var m := Run(s, steps).value;
    StandingIsWatched(s, height);
    forall o ensures Standing(m, o, height) <==> StandsIn(s, steps, Watched(s, o), o) {
      assert Standing(s, o, height) <==> Watched(s, o);
    }
    DisconnectPanicsExactlyWhen(m, height, oracle);
    if Disconnect(m, height, oracle).Some? {
      DisconnectWatches(m, height, oracle);
      BelowAll(s.events, height);
      DisconnectKeepsConsistentExactlyWhen(m, height, oracle);
      var v := Disconnect(m, height, oracle).value;
      if Consistent(v) { InItsPlace(m, v, height); }
    }
  }

  // What a reorganisation does to any tracker.
  lemma DisconnectWatches(m: State, height: nat, oracle: Oracle)
    requires Consistent(m) && High(m, height) && Disconnect(m, height, oracle).Some?
    ensures
      var v := Disconnect(m, height, oracle).value;
      && v.events == Below(m.events, height)
      && v.claimable == Low(m.claimable, height)
      && forall o :: CreatedBy(m, o, height) ==> (Watched(v, o) <==> Standing(m, o, height))
  {
    hide Inv, Undo, Restore, Erase, Regained, Watched, Core, LowPlaces, NoneReturns, NoDup, Below, Low, Alike, Standing,
      High;
    UndoneIs(m, height, oracle);
    UndoneRegained(m, height);
    var (t, bumps) := Undone(m, height).value;
    RegainedWatches(m, t, height);
    RegainedEvents(m, t, height);
    RestoreAlike(t, bumps, height, oracle);
    ConsistentHeights(m);
    ErasedWatches(t, Restore(t, bumps, height, oracle), height);
  }

  lemma InItsPlace(m: State, v: State, height: nat)
    requires Consistent(v) && v.claimable == Low(m.claimable, height)
    ensures forall o :: o in v.claimable ==>
              CreatedBy(m, o, height) && (Watched(v, o) <==> Tracked(v.pending, v.claimable, o))
    ensures forall o :: o !in m.claimable ==>
              CreatedBy(m, o, height) && (Watched(v, o) <==> o in QueueBag(v.locktimed))
  {
    hide QueueBag, Records, NoDup, FormedRequests, FormedQueue, Live, Owned, SameHeight;
  }
}
