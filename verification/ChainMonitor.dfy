// The chain monitor's bookkeeping of updates being persisted, and of the events it hands out.
module ChainMonitors {

  type ChannelId = nat
  type UpdateId = nat

  datatype Event = Completed(channel: ChannelId, updateId: UpdateId) | Other(tag: nat)

  datatype Status = InProgress | Persisted | UnrecoverableError

  // The parts of a channel monitor that matter here: its latest update, and events of its own.
  datatype Monitor = Monitor(latestUpdateId: UpdateId, events: seq<Event>)

  datatype Holder = Holder(monitor: Monitor, pendingUpdates: seq<UpdateId>)

  datatype Bundle = Bundle(channel: ChannelId, events: seq<Event>)

  // What happened so far: an update left in progress, or an acknowledgement taken.
  datatype Action = Registered(channel: ChannelId, id: UpdateId) | Acknowledged(channel: ChannelId, id: UpdateId)

  // An update was registered and has not been acknowledged since.
  predicate Outstanding(log: seq<Action>, channel: ChannelId, id: UpdateId) {
    log != [] &&
    var last := log[|log| - 1];
    last == Registered(channel, id)
    || (last != Acknowledged(channel, id) && Outstanding(log[..|log| - 1], channel, id))
  }

  // The same said of the whole log.
  lemma {:induction false} OutstandingMeans(log: seq<Action>, channel: ChannelId, id: UpdateId)
    ensures Outstanding(log, channel, id) <==>
              exists i :: RegisteredAt(log, i, channel, id) && forall j :: i < j < |log| ==>
                  log[j] != Acknowledged(channel, id)
    decreases log
  {
    if log != [] {
      var last, before := log[|log| - 1], log[..|log| - 1];
      OutstandingMeans(before, channel, id);
      if last == Registered(channel, id) {
        assert RegisteredAt(log, |log| - 1, channel, id);
      } else if Outstanding(log, channel, id) {
        var i :| RegisteredAt(before, i, channel, id) && forall j :: i < j < |before| ==>
            before[j] != Acknowledged(channel, id);
        assert RegisteredAt(log, i, channel, id);
      } else if i :| RegisteredAt(log, i, channel, id) && forall j :: i < j < |log| ==>
          log[j] != Acknowledged(channel, id) {
        assert RegisteredAt(before, i, channel, id);
      }
    }
  }

  predicate RegisteredAt(log: seq<Action>, i: int, channel: ChannelId, id: UpdateId) {
    0 <= i < |log| && log[i] == Registered(channel, id)
  }

  function Without(ids: seq<UpdateId>, id: UpdateId): seq<UpdateId> {
    if ids == [] then []
    else if ids[0] == id then Without(ids[1..], id)
    else [ids[0]] + Without(ids[1..], id)
  }

  lemma {:induction false} WithoutMembers(ids: seq<UpdateId>, id: UpdateId)
    ensures forall x :: x in Without(ids, id) <==> x in ids && x != id
  {
    if ids != [] {
      WithoutMembers(ids[1..], id);
    }
  }

  type Monitors = map<ChannelId, Holder>

  // The ids held for a channel are exactly the outstanding ones.
  ghost predicate Tracks(monitors: Monitors, log: seq<Action>) {
    forall channel, id :: Holds(monitors, channel, id) <==> Outstanding(log, channel, id)
  }

  // What one more action asks of the ids held.
  lemma TracksAction(before: Monitors, after: Monitors, log: seq<Action>, a: Action)
    requires Tracks(before, log)
    requires forall c, id :: Holds(after, c, id) <==>
               a == Registered(c, id) || (Holds(before, c, id) && a != Acknowledged(c, id))
    ensures Tracks(after, log + [a])
  {
    assert (log + [a])[..|log|] == log;
  }

  predicate Holds(monitors: Monitors, channel: ChannelId, id: UpdateId) {
    channel in monitors && id in monitors[channel].pendingUpdates
  }

  lemma TracksRegistered(monitors: Monitors, after: Monitors, log: seq<Action>, c: ChannelId, id: UpdateId)
    requires Tracks(monitors, log) && c in after
    requires forall x :: x != c ==> (x in monitors <==> x in after)
    requires after[c].pendingUpdates == (if c in monitors then monitors[c].pendingUpdates else []) + [id]
    requires forall x :: x in after && x != c ==> after[x].pendingUpdates == monitors[x].pendingUpdates
    ensures Tracks(after, log + [Registered(c, id)])
  {
    hide Tracks;
    forall x, i ensures Holds(after, x, i) <==> (x == c && i == id) || Holds(monitors, x, i) {
    }
    TracksAction(monitors, after, log, Registered(c, id));
  }

  lemma TracksAcknowledged(monitors: Monitors, log: seq<Action>, c: ChannelId, id: UpdateId)
    requires Tracks(monitors, log) && c in monitors
    ensures var after := monitors[c := monitors[c].(pendingUpdates := Without(monitors[c].pendingUpdates, id))];
            Tracks(after, log + [Acknowledged(c, id)])
  {
    WithoutMembers(monitors[c].pendingUpdates, id);
    TracksAction(monitors, monitors[c := monitors[c].(pendingUpdates := Without(monitors[c].pendingUpdates, id))], log,
                 Acknowledged(c, id));
  }

  // Every update ever registered for the channel has since been acknowledged.
  ghost predicate AllAcknowledged(log: seq<Action>, channel: ChannelId) {
    forall id :: !Outstanding(log, channel, id)
  }

  // Nothing is held for a channel exactly when all is acknowledged.
  lemma NothingHeld(monitors: Monitors, log: seq<Action>, c: ChannelId)
    requires Tracks(monitors, log) && c in monitors
    ensures monitors[c].pendingUpdates == [] <==> AllAcknowledged(log, c)
  {
    hide Outstanding;
    if monitors[c].pendingUpdates != [] {
      assert Holds(monitors, c, monitors[c].pendingUpdates[0]);
      assert Outstanding(log, c, monitors[c].pendingUpdates[0]);
    } else {
      forall id ensures !Outstanding(log, c, id) {
        assert !Holds(monitors, c, id);
      }
    }
  }

  // The channels' monitors are at the same updates.
  predicate SameUpdateIds(before: Monitors, after: Monitors) {
    before.Keys == after.Keys &&
    forall c :: c in after ==> after[c].monitor.latestUpdateId == before[c].monitor.latestUpdateId
  }

  // Events of a channel's own monitor: what was raised is what was released and what still waits.
  ghost predicate Kept(monitors: Monitors, raised: map<ChannelId, seq<Event>>, released: map<ChannelId, seq<Event>>) {
    && raised.Keys == released.Keys == monitors.Keys
    && forall c :: c in monitors ==> raised[c] == released[c] + monitors[c].monitor.events
  }

  class ChainMonitor {
    var monitors: Monitors
    var pendingEvents: seq<Bundle>
    ghost var log: seq<Action>
    // Everything ever queued here and by the monitors, and everything released.
    ghost var queued: seq<Bundle>
    ghost var released: seq<Bundle>
    ghost var raised: map<ChannelId, seq<Event>>
    ghost var handedOut: map<ChannelId, seq<Event>>

    ghost predicate Valid()
      reads this
    {
      && Tracks(monitors, log)
      && queued == released + pendingEvents
      && Kept(monitors, raised, handedOut)
    }

    constructor ()
      ensures Valid() && monitors == map[] && pendingEvents == [] && log == []
    {
      monitors, pendingEvents, log := map[], [], [];
      queued, released, raised, handedOut := [], [], map[], map[];
    }

    // Start watching a channel. An unrecoverable persistence error panics.
    method WatchChannel(channel: ChannelId, monitor: Monitor, persisted: Status) returns (ok: bool, panicked: bool)
      requires Valid()
      modifies this
      ensures Valid() && pendingEvents == old(pendingEvents)
      ensures panicked <==> channel !in old(monitors) && persisted.UnrecoverableError?
      ensures ok <==> channel !in old(monitors) && !panicked
      ensures queued == old(queued) && released == old(released)
      ensures !ok ==> monitors == old(monitors) && log == old(log)
      ensures !ok ==> raised == old(raised) && handedOut == old(handedOut)
      ensures ok ==>
                && channel in monitors && monitors[channel].monitor == monitor && monitors - {channel} == old(monitors)
                && raised == old(raised)[channel := monitor.events] && handedOut == old(handedOut)[channel := []]
                && log == old(log)
                          + (if persisted.InProgress? then [Registered(channel, monitor.latestUpdateId)] else [])
    {
      hide Tracks, Kept;
      if channel in monitors { return false, false; }
      var pending := [];
      match persisted {
        case InProgress =>
          pending := pending + [monitor.latestUpdateId];
          TracksRegistered(monitors, monitors[channel := Holder(monitor, pending)], log, channel,
              monitor.latestUpdateId);
          log := log + [Registered(channel, monitor.latestUpdateId)];
        case Persisted =>
          TracksSame(monitors, monitors[channel := Holder(monitor, pending)], log);
        case UnrecoverableError => return false, true;
      }
      assert monitors[channel := Holder(monitor, pending)] - {channel} == monitors;
      KeptNew(monitors, raised, handedOut, channel, Holder(monitor, pending));
      monitors := monitors[channel := Holder(monitor, pending)];
      raised := raised[channel := monitor.events];
      handedOut := handedOut[channel := []];
      return true, false;
    }

    // Apply an update. `after` is the monitor afterwards, `fails` whether applying reported an error;
    // then the caller is told the update is in progress whatever became of persisting it. An unknown
    // channel panics in a debug build and otherwise changes nothing.
    method UpdateChannel(channel: ChannelId, id: UpdateId, after: Monitor, fails: bool, persisted: Status, debug: bool)
      returns (status: Status, panicked: bool)
      requires Valid()
      requires channel in monitors ==> monitors[channel].monitor.events <= after.events
      modifies this
      ensures Valid() && pendingEvents == old(pendingEvents)
      ensures panicked <==> if channel in old(monitors) then persisted.UnrecoverableError? else debug
      ensures !panicked ==> status == if channel !in old(monitors) || fails then InProgress else persisted
      ensures monitors.Keys == old(monitors).Keys && queued == old(queued) && released == old(released)
      ensures handedOut == old(handedOut)
      ensures channel !in old(monitors) ==> log == old(log) && raised == old(raised)
      ensures forall c :: c in monitors && c != channel ==> monitors[c] == old(monitors)[c]
      ensures forall c :: c in raised && c != channel ==> c in old(raised) && raised[c] == old(raised)[c]
      ensures channel in old(monitors) ==>
                && monitors[channel].monitor == after
                && log == old(log) + (if persisted.InProgress? then [Registered(channel, id)] else [])
                && channel in old(raised) && channel in raised && old(raised)[channel] <= raised[channel]
    {
      hide Tracks, Kept;
      if channel !in monitors { return InProgress, debug; }
      var holder := monitors[channel].(monitor := after);
      TracksSame(monitors, monitors[channel := holder], log);
      KeptUpdated(monitors, raised, handedOut, channel, holder);
      raised := raised[channel := handedOut[channel] + after.events];
      monitors := monitors[channel := holder];
      match persisted {
        case InProgress => AddPending(channel, id);
        case Persisted =>
        case UnrecoverableError => return persisted, true;
      }
      return if fails then InProgress else persisted, false;
    }

    method AddPending(channel: ChannelId, id: UpdateId)
      requires Valid() && channel in monitors
      modifies this`monitors, this`log
      ensures Valid() && log == old(log) + [Registered(channel, id)]
      ensures var h := old(monitors)[channel];
              monitors == old(monitors)[channel := h.(pendingUpdates := h.pendingUpdates + [id])]
    {
      hide Tracks, Kept;
      ghost var before := monitors;
      var holder := monitors[channel];
      monitors := monitors[channel := holder.(pendingUpdates := holder.pendingUpdates + [id])];
      TracksRegistered(before, monitors, log, channel, id);
      KeptSame(before, monitors, raised, handedOut);
      log := log + [Registered(channel, id)];
    }

    // An update is persisted everywhere. `Completed` is queued exactly when now every update ever
    // registered for the channel is acknowledged.
    method ChannelMonitorUpdated(channel: ChannelId, id: UpdateId) returns (ok: bool)
      requires Valid()
      modifies this
      ensures Valid() && ok == (channel in old(monitors)) && monitors.Keys == old(monitors).Keys
      ensures raised == old(raised) && handedOut == old(handedOut) && released == old(released)
      ensures forall c :: c in monitors ==> monitors[c].monitor == old(monitors)[c].monitor
      ensures forall c :: c in monitors && c != channel ==> monitors[c] == old(monitors)[c]
      ensures !ok ==> pendingEvents == old(pendingEvents) && log == old(log) && queued == old(queued)
      ensures ok ==> log == old(log) + [Acknowledged(channel, id)]
      ensures ok ==>
                var event := Bundle(channel, [Completed(channel, monitors[channel].monitor.latestUpdateId)]);
                if AllAcknowledged(log, channel) then
                  pendingEvents == old(pendingEvents) + [event] && queued == old(queued) + [event]
                else pendingEvents == old(pendingEvents) && queued == old(queued)
    {
      hide Tracks, Kept, AllAcknowledged;
      if channel !in monitors { return false; }
      var holder := monitors[channel];
      ghost var before := monitors;
      TracksAcknowledged(monitors, log, channel, id);
      var pending := RetainOthers(holder.pendingUpdates, id);
      monitors := monitors[channel := holder.(pendingUpdates := pending)];
      log := log + [Acknowledged(channel, id)];
      KeptSame(before, monitors, raised, handedOut);
      NothingHeld(monitors, log, channel);
      if pending != [] { return true; }
      var event := Bundle(channel, [Completed(channel, holder.monitor.latestUpdateId)]);
      pendingEvents := pendingEvents + [event];
      queued := queued + [event];
      return true;
    }

    static method RetainOthers(ids: seq<UpdateId>, id: UpdateId) returns (kept: seq<UpdateId>)
      ensures kept == Without(ids, id)
    {
      kept := [];
      var i := 0;
      assert ids[0..] == ids;
      while i < |ids|
        invariant i <= |ids|
        invariant kept + Without(ids[i..], id) == Without(ids, id)
      {
        assert ids[i..][0] == ids[i] && ids[i..][1..] == ids[i + 1..];
        if ids[i] != id { kept := kept + [ids[i]]; }
        i := i + 1;
      }
      assert kept + [] == kept;
    }

    // Take the acknowledgements the persister has gathered, then hand out every waiting event: the
    // ones queued here, and those of each monitor.
    method ReleasePendingMonitorEvents(completed: seq<(ChannelId, UpdateId)>)
      returns (r: seq<Bundle>, ghost shared: seq<Bundle>, ghost own: seq<Bundle>)
      requires Valid()
      modifies this
      ensures Valid() && pendingEvents == [] && monitors.Keys == old(monitors).Keys
      ensures forall c :: c in monitors ==> monitors[c].monitor.events == []
      ensures SameUpdateIds(old(monitors), monitors)
      ensures log == old(log) + Acknowledgements(old(monitors).Keys, completed) && raised == old(raised)
      ensures shared == old(pendingEvents) + Completions(old(monitors), old(log), completed)
      ensures r == shared + own && released == old(released) + shared && queued == released
      ensures OwnBundles(own, old(monitors))
    {
      hide Tracks, OwnBundles;
      TakeAcknowledgements(completed);
      ghost var before := monitors;
      r, shared := pendingEvents, pendingEvents;
      released := released + pendingEvents;
      pendingEvents := [];
      assert released + [] == released;
      var bundles := DrainMonitors();
      own := bundles;
      SameEvents(own, before, old(monitors));
      r := r + bundles;
    }

    // Take the events of one channel's own monitor.
    method ClearEvents(c: ChannelId) returns (events: seq<Event>)
      requires Valid() && c in monitors
      modifies this`monitors, this`handedOut
      ensures Valid() && events == old(monitors)[c].monitor.events
      ensures var h := old(monitors)[c];
              monitors == old(monitors)[c := h.(monitor := h.monitor.(events := []))]
    {
      hide Tracks, Kept;
      events := monitors[c].monitor.events;
      Drained(monitors, raised, handedOut, c);
      TracksSame(monitors, monitors[c := monitors[c].(monitor := monitors[c].monitor.(events := []))], log);
      KeptKeys(monitors, raised, handedOut);
      monitors := monitors[c := monitors[c].(monitor := monitors[c].monitor.(events := []))];
      handedOut := handedOut[c := handedOut[c] + events];
    }

    method DrainMonitors() returns (own: seq<Bundle>)
      requires Valid()
      modifies this`monitors, this`handedOut
      ensures Valid() && monitors.Keys == old(monitors).Keys
      ensures forall c :: c in monitors ==> monitors[c].monitor.events == []
      ensures SameUpdateIds(old(monitors), monitors)
      ensures OwnBundles(own, old(monitors))
    {
      hide Tracks, OwnBundles, Kept;
      own := [];
      var todo := monitors.Keys;
      NothingOwn(monitors);
      while todo != {}
        invariant todo <= monitors.Keys == old(monitors).Keys && Valid()
        invariant OwnBundles(own, old(monitors) - todo)
        invariant forall c :: c in todo ==> monitors[c] == old(monitors)[c]
        invariant forall c :: c in monitors ==>
            monitors[c].monitor.latestUpdateId == old(monitors)[c].monitor.latestUpdateId
        invariant forall c :: c in monitors && c !in todo ==> monitors[c].monitor.events == []
        decreases todo
      {
        var c :| c in todo;
        OwnOneMore(own, old(monitors), todo, c);
        todo := todo - {c};
        var events := ClearEvents(c);
        if |events| > 0 { own := own + [Bundle(c, events)]; }
      }
      assert old(monitors) - todo == old(monitors);
    }

    method TakeAcknowledgements(completed: seq<(ChannelId, UpdateId)>)
      requires Valid()
      modifies this
      ensures Valid() && monitors.Keys == old(monitors).Keys && released == old(released)
      ensures raised == old(raised) && handedOut == old(handedOut)
      ensures forall c :: c in monitors ==> monitors[c].monitor == old(monitors)[c].monitor
      ensures log == old(log) + Acknowledgements(old(monitors).Keys, completed)
      ensures queued == old(queued) + Completions(old(monitors), old(log), completed)
      ensures pendingEvents == old(pendingEvents) + Completions(old(monitors), old(log), completed)
    {
      hide Tracks, Kept, AllAcknowledged, Completions, Acknowledgements;
      ghost var all := Completions(monitors, log, completed);
      var i := 0;
      assert completed[0..] == completed;
      while i < |completed|
        invariant i <= |completed| && Valid() && monitors.Keys == old(monitors).Keys && released == old(released)
        invariant raised == old(raised) && handedOut == old(handedOut)
        invariant forall c :: c in monitors ==> monitors[c].monitor == old(monitors)[c].monitor
        invariant log + Acknowledgements(old(monitors).Keys, completed[i..])
               == old(log) + Acknowledgements(old(monitors).Keys, completed)
        invariant queued + Completions(old(monitors), log, completed[i..]) == old(queued) + all
        invariant pendingEvents + Completions(old(monitors), log, completed[i..]) == old(pendingEvents) + all
      {
        OneMoreAcknowledged(old(monitors).Keys, log, completed, i);
        OneMoreCompleted(old(monitors), log, completed, i, queued);
        OneMoreCompleted(old(monitors), log, completed, i, pendingEvents);
        var (channel, id) := completed[i];
        var ok := ChannelMonitorUpdated(channel, id);
        i := i + 1;
      }
      NothingTaken(old(monitors), log, completed[i..]);
      assert log + [] == log && queued + [] == queued && pendingEvents + [] == pendingEvents;
    }
  }

  // The `Completed` events that acknowledgements queue, one after the other: one for each that leaves
  // nothing outstanding for its channel.
  ghost function Completions(monitors: Monitors, log: seq<Action>, completed: seq<(ChannelId, UpdateId)>): seq<Bundle>
    decreases completed
  {
    if completed == [] then []
    else
      var (c, id) := completed[0];
      if c !in monitors then Completions(monitors, log, completed[1..])
      else
        var now := log + [Acknowledged(c, id)];
        (if AllAcknowledged(now, c) then [Bundle(c, [Completed(c, monitors[c].monitor.latestUpdateId)])] else [])
        + Completions(monitors, now, completed[1..])
  }

  lemma NothingTaken(monitors: Monitors, log: seq<Action>, completed: seq<(ChannelId, UpdateId)>)
    requires completed == []
    ensures Completions(monitors, log, completed) == [] && Acknowledgements(monitors.Keys, completed) == []
  {
  }

  lemma OneMoreAcknowledged(known: set<ChannelId>, log: seq<Action>, completed: seq<(ChannelId, UpdateId)>, i: nat)
    requires i < |completed|
    ensures var (c, id) := completed[i];
            log + Acknowledgements(known, completed[i..])
            == (if c in known then log + [Acknowledged(c, id)] else log) + Acknowledgements(known, completed[i + 1..])
  {
    var (c, id) := completed[i];
    assert completed[i..][0] == completed[i] && completed[i..][1..] == completed[i + 1..];
    var rest := Acknowledgements(known, completed[i + 1..]);
    assert log + ([Acknowledged(c, id)] + rest) == log + [Acknowledged(c, id)] + rest && [] + rest == rest;
  }

  lemma OneMoreCompleted(monitors: Monitors, log: seq<Action>, completed: seq<(ChannelId, UpdateId)>, i: nat,
                         queue: seq<Bundle>)
    requires i < |completed|
    ensures var (c, id) := completed[i];
            var now := log + [Acknowledged(c, id)];
            queue + Completions(monitors, log, completed[i..]) ==
              if c !in monitors then queue + Completions(monitors, log, completed[i + 1..])
              else
                (if AllAcknowledged(now, c) then
                   queue + [Bundle(c, [Completed(c, monitors[c].monitor.latestUpdateId)])]
                 else queue)
                + Completions(monitors, now, completed[i + 1..])
  {
    hide AllAcknowledged;
    var (c, id) := completed[i];
    assert completed[i..][0] == completed[i] && completed[i..][1..] == completed[i + 1..];
    if c in monitors {
      var later := Completions(monitors, log + [Acknowledged(c, id)], completed[i + 1..]);
      var event := Bundle(c, [Completed(c, monitors[c].monitor.latestUpdateId)]);
      assert queue + ([event] + later) == queue + [event] + later && [] + later == later;
    }
  }

  // Only the ids held matter.
  lemma TracksSame(before: Monitors, after: Monitors, log: seq<Action>)
    requires Tracks(before, log)
    requires forall c :: c in before ==> c in after && after[c].pendingUpdates == before[c].pendingUpdates
    requires forall c :: c in after && c !in before ==> after[c].pendingUpdates == []
    ensures Tracks(after, log)
  {
    forall c, id ensures Holds(after, c, id) <==> Holds(before, c, id) {
    }
  }

  function Acknowledgements(known: set<ChannelId>, completed: seq<(ChannelId, UpdateId)>): seq<Action> {
    if completed == [] then []
    else (if completed[0].0 in known then [Acknowledged(completed[0].0, completed[0].1)] else [])
         + Acknowledgements(known, completed[1..])
  }

  // Each monitor with events of its own is listed once, with all of them.
  ghost predicate OwnBundles(own: seq<Bundle>, monitors: Monitors) {
    && (forall i :: 0 <= i < |own| ==>
          own[i].channel in monitors && own[i].events == monitors[own[i].channel].monitor.events != [])
    && (forall i, j :: 0 <= i < j < |own| ==> own[i].channel != own[j].channel)
    && (forall c :: c in monitors && monitors[c].monitor.events != [] ==> Bundle(c, monitors[c].monitor.events) in own)
  }

  lemma NothingOwn(monitors: Monitors)
    ensures OwnBundles([], monitors - monitors.Keys)
  {
  }

  lemma KeptNew(monitors: Monitors, raised: map<ChannelId, seq<Event>>, released: map<ChannelId, seq<Event>>,
                c: ChannelId, h: Holder)
    requires Kept(monitors, raised, released) && c !in monitors
    ensures Kept(monitors[c := h], raised[c := h.monitor.events], released[c := []])
  {
    assert [] + h.monitor.events == h.monitor.events;
  }

  lemma KeptUpdated(monitors: Monitors, raised: map<ChannelId, seq<Event>>, released: map<ChannelId, seq<Event>>,
                    c: ChannelId, h: Holder)
    requires Kept(monitors, raised, released) && c in monitors && monitors[c].monitor.events <= h.monitor.events
    ensures c in raised && c in released && raised[c] <= released[c] + h.monitor.events
    ensures Kept(monitors[c := h], raised[c := released[c] + h.monitor.events], released)
  {
  }

  lemma KeptSame(before: Monitors, after: Monitors, raised: map<ChannelId, seq<Event>>,
                 released: map<ChannelId, seq<Event>>)
    requires Kept(before, raised, released) && before.Keys == after.Keys
    requires forall c :: c in before ==> after[c].monitor == before[c].monitor
    ensures Kept(after, raised, released)
  {
  }

  lemma KeptKeys(monitors: Monitors, raised: map<ChannelId, seq<Event>>, released: map<ChannelId, seq<Event>>)
    requires Kept(monitors, raised, released)
    ensures released.Keys == monitors.Keys
  {
  }

  lemma OwnOneMore(own: seq<Bundle>, monitors: Monitors, todo: set<ChannelId>, c: ChannelId)
    requires OwnBundles(own, monitors - todo) && c in todo && todo <= monitors.Keys
    ensures var events := monitors[c].monitor.events;
            OwnBundles(if events == [] then own else own + [Bundle(c, events)], monitors - (todo - {c}))
  {
    var events, after := monitors[c].monitor.events, monitors - (todo - {c});
    var more := if events == [] then own else own + [Bundle(c, events)];
    forall x | x in after && after[x].monitor.events != [] ensures Bundle(x, after[x].monitor.events) in more {
      if x != c {
        assert Bundle(x, (monitors - todo)[x].monitor.events) in own;
      } else {
        assert more[|own|] == Bundle(c, events);
      }
    }
  }

  lemma SameEvents(own: seq<Bundle>, a: Monitors, b: Monitors)
    requires OwnBundles(own, a) && a.Keys == b.Keys && forall c :: c in a ==> a[c].monitor == b[c].monitor
    ensures OwnBundles(own, b)
  {
  }

  lemma Drained(monitors: Monitors, raised: map<ChannelId, seq<Event>>, released: map<ChannelId, seq<Event>>,
                c: ChannelId)
    requires Kept(monitors, raised, released) && c in monitors
    ensures Kept(monitors[c := monitors[c].(monitor := monitors[c].monitor.(events := []))], raised,
                 released[c := released[c] + monitors[c].monitor.events])
  {
    assert raised[c] + [] == raised[c];
  }
}
