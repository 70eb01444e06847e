/** The event watcher for one council: at-least-once delivery from an in-memory cursor, mirrored into
    the membership status and the channel states, and why replaying ends where a single pass would. */
module EventWatcher {
  import opened Wrappers
  import opened ScVals

  const EVENT_LIMIT: nat := 100

  datatype Event = Event(topics: seq<ScVal>, value: ScVal, ledger: nat)

  datatype MembershipStatus = Pending | Active | Rejected

  datatype ChannelRow = ChannelRow(disabled: bool, lastEventLedger: Option<nat>)

  /** The council's membership row and the channel table. */
  datatype Mirror = Mirror(status: MembershipStatus, channels: map<seq<byte>, ChannelRow>)

  // ---- one event ----

  /** What an event asks for. */
  datatype Effect =
    | SetStatus(status: MembershipStatus)
    | SetChannel(channel: seq<byte>, disabled: bool, ledger: Option<nat>)
    | Nothing

  function EffectOf(e: Event): Effect {
    if e.topics == [] || !e.topics[0].ScSymbol? then Nothing
    else
      match e.topics[0].sym
      case "provider_added" => SetStatus(Active)
      case "provider_removed" => SetStatus(Rejected)
      case "channel_state_changed" =>
        if |e.topics| < 2 || !e.topics[1].ScAddr? || !e.topics[1].address.Contract? then Nothing
        else
          var enabled := if e.value.ScBool? then e.value.b else true;
          var ledger := if e.ledger < 0x8000_0000_0000_0000 then Some(e.ledger) else None;
          SetChannel(e.topics[1].address.hash, !enabled, ledger)
      case _ => Nothing
  }

  function LedgerOf(m: Mirror, channel: seq<byte>): Option<nat> {
    if channel in m.channels then m.channels[channel].lastEventLedger else None
  }

  /** INSERT ... ON CONFLICT DO UPDATE, keeping the old ledger when there is no new one. */
  function ApplyState(m: Mirror, channel: seq<byte>, disabled: bool, ledger: Option<nat>): Mirror {
    m.(channels := m.channels[channel := ChannelRow(disabled, if ledger.Some? then ledger else LedgerOf(m, channel))])
  }

  function Apply(m: Mirror, e: Event): Mirror {
    match EffectOf(e)
    case SetStatus(status) => m.(status := status)
    case SetChannel(channel, disabled, ledger) => ApplyState(m, channel, disabled, ledger)
    case Nothing => m
  }

  /** The event's name, and for a change of a channel the channel. */
  predicate Named(e: Event, name: string) { e.topics != [] && e.topics[0] == ScSymbol(name) }

  predicate ChangesChannel(e: Event, channel: seq<byte>) {
    Named(e, "channel_state_changed") && |e.topics| >= 2 && e.topics[1] == ScAddr(ScAddress.Contract(channel))
  }

  /** What an event does to the tables. A provider added is ACTIVE, one removed REJECTED. A channel is disabled
      exactly by the value false, with the ledger of the change if that fits the column, and no other
      channel is touched. Nothing else has an effect. */
  lemma EventsMean(m: Mirror, e: Event)
    ensures Named(e, "provider_added") ==> Apply(m, e) == m.(status := Active)
    ensures Named(e, "provider_removed") ==> Apply(m, e) == m.(status := Rejected)
    ensures forall c :: ChangesChannel(e, c) ==>
              && Apply(m, e).status == m.status && Apply(m, e).channels.Keys == m.channels.Keys + {c}
              && (forall d :: d in m.channels && d != c ==> Apply(m, e).channels[d] == m.channels[d])
              && (Apply(m, e).channels[c].disabled <==> e.value == ScBool(false))
              && Apply(m, e).channels[c].lastEventLedger
                 == if e.ledger < 0x8000_0000_0000_0000 then Some(e.ledger)
                    else if c in m.channels then m.channels[c].lastEventLedger else None
    ensures !Named(e, "provider_added") && !Named(e, "provider_removed") && (forall c :: !ChangesChannel(e, c)) ==>
              Apply(m, e) == m
  {
    assert "provider_added" != "provider_removed" by { assert |"provider_added"| != |"provider_removed"|; }
    assert "provider_added"[0] == 'p' && "provider_removed"[0] == 'p' && "channel_state_changed"[0] == 'c';
    if Named(e, "channel_state_changed") && |e.topics| >= 2 && e.topics[1].ScAddr? && e.topics[1].address.Contract? {
      assert ChangesChannel(e, e.topics[1].address.hash);
    }
  }

  function Fold(m: Mirror, events: seq<Event>): Mirror
    decreases |events|
  {
    if events == [] then m else Fold(Apply(m, events[0]), events[1..])
  }

  lemma {:induction false} FoldConcat(m: Mirror, a: seq<Event>, b: seq<Event>)
    ensures Fold(m, a + b) == Fold(Fold(m, a), b)
    decreases |a|
  {
    if a == [] {
      assert a + b == b;
    } else {
      assert (a + b)[1..] == a[1..] + b;
      FoldConcat(Apply(m, a[0]), a[1..], b);
    }
  }

  // ---- what events overwrite ----

  predicate WritesStatus(events: seq<Event>) { exists e :: e in events && EffectOf(e).SetStatus? }

  predicate WritesChannel(events: seq<Event>, channel: seq<byte>) {
    exists e :: e in events && EffectOf(e).SetChannel? && EffectOf(e).channel == channel
  }

  predicate WritesLedger(events: seq<Event>, channel: seq<byte>) {
    exists e :: e in events && EffectOf(e).SetChannel? && EffectOf(e).channel == channel && EffectOf(e).ledger.Some?
  }

  function DisabledOf(m: Mirror, channel: seq<byte>): Option<bool> {
    if channel in m.channels then Some(m.channels[channel].disabled) else None
  }

  /** The mirrors agree on everything the events do not write. */
  ghost predicate AgreeOutside(m: Mirror, n: Mirror, events: seq<Event>) {
    && (m.status == n.status || WritesStatus(events))
    && forall c :: AgreeOn(m, n, events, c)
  }

  ghost predicate AgreeOn(m: Mirror, n: Mirror, events: seq<Event>, c: seq<byte>) {
    && (DisabledOf(m, c) == DisabledOf(n, c) || WritesChannel(events, c))
    && (LedgerOf(m, c) == LedgerOf(n, c) || WritesLedger(events, c))
  }

  lemma AgreementIsEquality(m: Mirror, n: Mirror)
    requires AgreeOutside(m, n, [])
    ensures m == n
  {
    forall c ensures (c in m.channels <==> c in n.channels) && (c in m.channels ==> m.channels[c] == n.channels[c]) {
      assert AgreeOn(m, n, [], c);
    }
  }

  lemma AgreementAdvances(m: Mirror, n: Mirror, events: seq<Event>)
    requires events != [] && AgreeOutside(m, n, events)
    ensures AgreeOutside(Apply(m, events[0]), Apply(n, events[0]), events[1..])
  {
    var e, rest := events[0], events[1..];
    assert forall x :: x in events <==> x == e || x in rest;
    forall c ensures AgreeOn(Apply(m, e), Apply(n, e), rest, c) {
      assert AgreeOn(m, n, events, c);
    }
  }

  /** Events bring mirrors together that agree on everything they do not write. */
  lemma {:induction false} FoldForgets(m: Mirror, n: Mirror, events: seq<Event>)
    requires AgreeOutside(m, n, events)
    ensures Fold(m, events) == Fold(n, events)
    decreases |events|
  {
    if events == [] {
      AgreementIsEquality(m, n);
    } else {
      AgreementAdvances(m, n, events);
      FoldForgets(Apply(m, events[0]), Apply(n, events[0]), events[1..]);
    }
  }

  lemma AgreementWidens(m: Mirror, n: Mirror, few: seq<Event>, many: seq<Event>)
    requires AgreeOutside(m, n, few) && forall e :: e in few ==> e in many
    ensures AgreeOutside(m, n, many)
  {
    forall c ensures AgreeOn(m, n, many, c) { assert AgreeOn(m, n, few, c); }
  }

  lemma ApplyWritesOnly(m: Mirror, n: Mirror, e: Event, events: seq<Event>)
    requires AgreeOutside(m, n, events) && e in events
    ensures AgreeOutside(Apply(m, e), n, events)
  {
    forall c ensures AgreeOn(Apply(m, e), n, events, c) { assert AgreeOn(m, n, events, c); }
  }

  /** Applying some of the events changes only what they write. */
  lemma {:induction false} FoldWritesOnly(m: Mirror, n: Mirror, some: seq<Event>, events: seq<Event>)
    requires AgreeOutside(m, n, events) && forall e :: e in some ==> e in events
    ensures AgreeOutside(Fold(m, some), n, events)
    decreases |some|
  {
    if some != [] {
      ApplyWritesOnly(m, n, some[0], events);
      FoldWritesOnly(Apply(m, some[0]), n, some[1..], events);
    }
  }

  /** Applying a batch again after a prefix of it is the same as applying the batch. */
  lemma ReplayAfterPrefix(m: Mirror, batch: seq<Event>, k: nat)
    requires k <= |batch|
    ensures Fold(Fold(m, batch[..k]), batch) == Fold(m, batch)
  {
    FoldWritesOnly(m, m, batch[..k], batch);
    FoldForgets(Fold(m, batch[..k]), m, batch);
  }

  /** The last event to write something decides it; a change without a ledger leaves the ledger. */
  lemma LastWriteStands(m: Mirror, before: seq<Event>, e: Event, after: seq<Event>)
    ensures var end := Fold(m, before + [e] + after);
      match EffectOf(e)
      case SetStatus(status) => !WritesStatus(after) ==> end.status == status
      case SetChannel(c, disabled, ledger) =>
        && (!WritesChannel(after, c) ==> DisabledOf(end, c) == Some(disabled))
        && (!WritesLedger(after, c) ==>
              LedgerOf(end, c) == if ledger.Some? then ledger else LedgerOf(Fold(m, before), c))
      case Nothing => true
  {
    var mid := Fold(m, before + [e]);
    FoldConcat(m, before, [e]);
    FoldConcat(m, before + [e], after);
    FoldWritesOnly(mid, mid, after, after);
    if EffectOf(e).SetChannel? { assert AgreeOn(Fold(mid, after), mid, after, EffectOf(e).channel); }
  }

  // ---- ticks ----

  /** `cursor` is the position to read from, none being the oldest event; `reach` records how far
      events have ever been applied. */
  datatype State = State(cursor: Option<nat>, mirror: Mirror, reach: nat)

  function Position(s: State): nat { if s.cursor.Some? then s.cursor.value else 0 }

  /** What one tick meets: no answer; a page of `size` events of which the first `applied` are written
      before a write fails; a whole page, with or without a new cursor; or the process starts over. */
  datatype Happening = NoAnswer | Partial(size: nat, applied: nat) | Whole(size: nat, newCursor: bool) | Restart

  predicate Possible(stream: seq<Event>, s: State, h: Happening) {
    match h
    case Partial(size, applied) => applied < size <= EVENT_LIMIT && Position(s) + size <= |stream|
    case Whole(size, _) => size <= EVENT_LIMIT && Position(s) + size <= |stream|
    case _ => true
  }

  function Max(a: nat, b: nat): nat { if a < b then b else a }

  function Next(stream: seq<Event>, s: State, h: Happening): State
    requires Possible(stream, s, h)
  {
    var p := Position(s);
    match h
    case NoAnswer => s
    case Restart => s.(cursor := None)
    case Partial(_, applied) => State(s.cursor, Fold(s.mirror, stream[p..p + applied]), Max(s.reach, p + applied))
    case Whole(size, newCursor) =>
      State(if newCursor then Some(p + size) else s.cursor, Fold(s.mirror, stream[p..p + size]), Max(s.reach, p + size))
  }

  lemma SliceOfSlice(stream: seq<Event>, from: nat, size: nat, count: nat)
    requires count <= size && from + size <= |stream|
    ensures stream[from..from + size][..count] == stream[from..from + count]
  {}

  /** The watcher's own state: its cursor and the tables it writes. */
  class Watcher {
    const stream: seq<Event>
    var cursor: Option<nat>
    var mirror: Mirror
    ghost var reach: nat

    ghost function View(): State
      reads this
    {
      State(cursor, mirror, reach)
    }

    constructor (stream: seq<Event>, mirror: Mirror)
      ensures this.stream == stream && View() == State(None, mirror, 0)
    {
      this.stream, this.cursor, this.mirror, this.reach := stream, None, mirror, 0;
    }

    /** `h` is what the RPC and the database do during the tick. */
    method RunTick(h: Happening)
      requires !h.Restart? && Possible(stream, View(), h)
      modifies this
      ensures View() == Next(stream, old(View()), h)
    {
      if h.NoAnswer? {
        return;
      }
      var from := if cursor.Some? then cursor.value else 0;
      var events := stream[from..from + h.size];
      var count := if h.Partial? then h.applied else h.size;
      ghost var start := mirror;
      for i := 0 to count
        invariant cursor == old(cursor) && reach == old(reach)
        invariant mirror == Fold(start, events[..i])
      {
        FoldConcat(start, events[..i], [events[i]]);
        assert events[..i + 1] == events[..i] + [events[i]];
        mirror := Apply(mirror, events[i]);
      }
      SliceOfSlice(stream, from, h.size, count);
      reach := Max(reach, from + count);
      if h.Partial? {
        return;
      }
      if h.newCursor {
        cursor := Some(from + h.size);
      }
    }

    method StartOver()
      modifies this`cursor
      ensures View() == Next(stream, old(View()), Restart)
    {
      cursor := None;
    }
  }

  // ---- whole runs ----

  function Run(stream: seq<Event>, start: Mirror, hs: seq<Happening>): Option<State> {
    if hs == [] then Some(State(None, start, 0))
    else
      match Run(stream, start, hs[..|hs| - 1])
      case None => None
      case Some(s) =>
        if Possible(stream, s, hs[|hs| - 1]) then Some(Next(stream, s, hs[|hs| - 1])) else None
  }

  /** Reading on from the cursor to any point not before the furthest applied event gives what one
      pass from the start to that point gives. */
  ghost predicate Replays(stream: seq<Event>, start: Mirror, s: State) {
    && Position(s) <= s.reach <= |stream|
    && AgreeOutside(s.mirror, start, stream[..s.reach])
    && forall k :: s.reach <= k <= |stream| ==> Catches(stream, start, s, k)
  }

  ghost predicate Catches(stream: seq<Event>, start: Mirror, s: State, k: nat)
    requires Position(s) <= k <= |stream|
  {
    Fold(s.mirror, stream[Position(s)..k]) == Fold(start, stream[..k])
  }

  lemma AppliedAgrees(stream: seq<Event>, start: Mirror, s: State, p: nat, q: nat)
    requires s.reach <= |stream| && AgreeOutside(s.mirror, start, stream[..s.reach]) && p <= q <= |stream|
    ensures AgreeOutside(Fold(s.mirror, stream[p..q]), start, stream[..Max(s.reach, q)])
  {
    var all := stream[..Max(s.reach, q)];
    AgreementWidens(s.mirror, start, stream[..s.reach], all);
    forall e | e in stream[p..q] ensures e in all {
      var i :| 0 <= i < |stream[p..q]| && stream[p..q][i] == e;
      assert all[p + i] == e;
    }
    FoldWritesOnly(s.mirror, start, stream[p..q], all);
  }

  /** Events applied without moving the cursor are applied again, to the same effect. */
  lemma AppliedWithoutMoving(stream: seq<Event>, start: Mirror, s: State, q: nat)
    requires Replays(stream, start, s) && Position(s) <= q <= |stream|
    ensures Replays(stream, start, State(s.cursor, Fold(s.mirror, stream[Position(s)..q]), Max(s.reach, q)))
  {
    var p := Position(s);
    var t := State(s.cursor, Fold(s.mirror, stream[p..q]), Max(s.reach, q));
    AppliedAgrees(stream, start, s, p, q);
    forall k | t.reach <= k <= |stream| ensures Catches(stream, start, t, k) {
      assert Catches(stream, start, s, k);
      assert stream[p..k][..q - p] == stream[p..q];
      ReplayAfterPrefix(s.mirror, stream[p..k], q - p);
    }
  }

  lemma SliceSplits(stream: seq<Event>, p: nat, q: nat, k: nat)
    requires p <= q <= k <= |stream|
    ensures stream[p..k] == stream[p..q] + stream[q..k]
  {}

  /** Events applied with the cursor moved past them leave the rest to apply. */
  lemma AppliedAndMoved(stream: seq<Event>, start: Mirror, s: State, q: nat)
    requires Replays(stream, start, s) && Position(s) <= q <= |stream|
    ensures Replays(stream, start, State(Some(q), Fold(s.mirror, stream[Position(s)..q]), Max(s.reach, q)))
  {
    var p := Position(s);
    var t := State(Some(q), Fold(s.mirror, stream[p..q]), Max(s.reach, q));
    AppliedAgrees(stream, start, s, p, q);
    forall k | t.reach <= k <= |stream| ensures Catches(stream, start, t, k) {
      assert Catches(stream, start, s, k);
      SliceSplits(stream, p, q, k);
      FoldConcat(s.mirror, stream[p..q], stream[q..k]);
    }
  }

  /** Losing the cursor costs nothing but time. */
  lemma StartedOver(stream: seq<Event>, start: Mirror, s: State)
    requires Replays(stream, start, s)
    ensures Replays(stream, start, s.(cursor := None))
  {
    var t := s.(cursor := None);
    forall k | t.reach <= k <= |stream| ensures Catches(stream, start, t, k) {
      assert stream[0..k] == stream[..k];
      forall e | e in stream[..s.reach] ensures e in stream[..k] {
        var i :| 0 <= i < s.reach && stream[..s.reach][i] == e;
        assert stream[..k][i] == e;
      }
      AgreementWidens(s.mirror, start, stream[..s.reach], stream[..k]);
      FoldForgets(s.mirror, start, stream[..k]);
    }
  }

  lemma TickReplays(stream: seq<Event>, start: Mirror, s: State, h: Happening)
    requires Replays(stream, start, s) && Possible(stream, s, h)
    ensures Replays(stream, start, Next(stream, s, h))
  {
    var p, t := Position(s), Next(stream, s, h);
    if h.Restart? {
      StartedOver(stream, start, s);
    } else if !h.NoAnswer? {
      var q := p + if h.Partial? then h.applied else h.size;
      if h.Whole? && h.newCursor {
        AppliedAndMoved(stream, start, s, q);
        assert t == State(Some(q), Fold(s.mirror, stream[p..q]), Max(s.reach, q));
      } else {
        AppliedWithoutMoving(stream, start, s, q);
        assert t == State(s.cursor, Fold(s.mirror, stream[p..q]), Max(s.reach, q));
      }
    }
  }

  lemma {:induction false} RunsReplay(stream: seq<Event>, start: Mirror, hs: seq<Happening>)
    requires Run(stream, start, hs).Some?
    ensures Replays(stream, start, Run(stream, start, hs).value)
  {
    if hs == [] {
      forall k | 0 <= k <= |stream| ensures Catches(stream, start, State(None, start, 0), k) {
        assert stream[0..k] == stream[..k];
      }
    } else {
      var s := Run(stream, start, hs[..|hs| - 1]).value;
      RunsReplay(stream, start, hs[..|hs| - 1]);
      TickReplays(stream, start, s, hs[|hs| - 1]);
    }
  }

  /** At least once comes to exactly once: whatever the pages, aborts and restarts, whenever the cursor
      stands at the furthest event ever applied, the tables are those of one pass in order over the
      stream up to it; in particular once the whole stream is consumed. */
  lemma ReplayIsOnePass(stream: seq<Event>, start: Mirror, hs: seq<Happening>)
    requires Run(stream, start, hs).Some?
        && Position(Run(stream, start, hs).value) >= Run(stream, start, hs).value.reach
    ensures var s := Run(stream, start, hs).value;
      s.reach <= |stream| && s.mirror == Fold(start, stream[..s.reach])
  {
    RunsReplay(stream, start, hs);
    var s := Run(stream, start, hs).value;
    assert Catches(stream, start, s, s.reach);
    assert stream[s.reach..s.reach] == [];
  }

  /** Once the cursor stands at the end of the stream, nothing is missing. */
  lemma ConsumedIsOnePass(stream: seq<Event>, start: Mirror, hs: seq<Happening>)
    requires Run(stream, start, hs).Some? && Position(Run(stream, start, hs).value) == |stream|
    ensures Run(stream, start, hs).value.mirror == Fold(start, stream)
  {
    RunsReplay(stream, start, hs);
    ReplayIsOnePass(stream, start, hs);
    assert stream[..|stream|] == stream;
  }
}
