/**
 The relay goroutine of Count as a sequential state machine. The select
 statement is replaced by an explicit sequence of events: a tick of the
 report ticker, an element received from the input channel, or the receive
 that finds the input channel closed.
 */
module Relay {

  datatype Event<T> = Tick | Item(e: T) | Close

  /**
   What the relay has done so far: the count of forwarded elements, the
   elements sent on the output channel, how many times the output channel
   was closed, and the report lines written to the report sink.
   */
  datatype RelayState<T> = RelayState(count: nat, out: seq<T>, closes: nat, reports: seq<string>)

  function Initial<T>(): RelayState<T> {
    RelayState(0, [], 0, [])
  }

  /** The count is the number of elements forwarded, and the output is closed at most once. */
  predicate Valid<T>(s: RelayState<T>) {
    s.count == |s.out| && s.closes <= 1
  }

  /**
   One pass of the select loop. The relay does not look inside a report
   line: render gives the line that shows a count.
   */
  function Next<T>(s: RelayState<T>, ev: Event<T>, render: nat -> string): RelayState<T> {
    match ev
    case Tick => s.(reports := s.reports + [render(s.count)])
    case Item(e) => s.(out := s.out + [e], count := s.count + 1)
    case Close => s.(closes := s.closes + 1)
  }

  /** The relay handles events until the output is closed; the goroutine has returned after that. */
  function Run<T>(s: RelayState<T>, evs: seq<Event<T>>, render: nat -> string): RelayState<T>
    decreases |evs|
  {
    if evs == [] || s.closes > 0 then s
    else Run(Next(s, evs[0], render), evs[1..], render)
  }

  /** The position of the first Close, or |evs| when there is none. */
  function FirstClose<T>(evs: seq<Event<T>>): (k: nat)
    ensures k <= |evs|
    ensures forall i :: 0 <= i < k ==> !evs[i].Close?
    ensures k < |evs| ==> evs[k].Close?
    decreases |evs|
  {
    if evs == [] || evs[0].Close? then 0 else 1 + FirstClose(evs[1..])
  }

  /** The events the relay handles before the input turns out closed. */
  function UntilClose<T>(evs: seq<Event<T>>): seq<Event<T>> {
    evs[..FirstClose(evs)]
  }

  /** The elements among evs, in order. */
  function Items<T>(evs: seq<Event<T>>): seq<T>
    decreases |evs|
  {
    if evs == [] then []
    else (if evs[0].Item? then [evs[0].e] else []) + Items(evs[1..])
  }

  /** The number of ticks among evs. */
  function Ticks<T>(evs: seq<Event<T>>): nat
    decreases |evs|
  {
    if evs == [] then 0 else (if evs[0].Tick? then 1 else 0) + Ticks(evs[1..])
  }

  /**
   The count that each tick before the first Close reads, when the count
   stands at c at the start of evs.
   */
  function Snapshots<T>(c: nat, evs: seq<Event<T>>): seq<nat>
    decreases |evs|
  {
    if evs == [] then []
    else match evs[0]
      case Tick => [c] + Snapshots(c, evs[1..])
      case Item(_) => Snapshots(c + 1, evs[1..])
      case Close => []
  }

  /** The report lines for a series of counts. */
  function Lines(render: nat -> string, counts: seq<nat>): (lines: seq<string>)
    ensures |lines| == |counts|
    ensures forall i :: 0 <= i < |counts| ==> lines[i] == render(counts[i])
    decreases |counts|
  {
    if counts == [] then [] else [render(counts[0])] + Lines(render, counts[1..])
  }

  lemma UntilCloseCons<T>(evs: seq<Event<T>>)
    requires evs != [] && !evs[0].Close?
    ensures UntilClose(evs) == [evs[0]] + UntilClose(evs[1..])
  {
  }

  lemma ItemsCons<T>(ev: Event<T>, evs: seq<Event<T>>)
    ensures Items([ev] + evs) == (if ev.Item? then [ev.e] else []) + Items(evs)
    ensures Ticks([ev] + evs) == (if ev.Tick? then 1 else 0) + Ticks(evs)
  {
  }

  /** One step keeps the relay's invariant, never lowers the count and only appends to the output and the reports. */
  lemma NextKeepsValid<T>(s: RelayState<T>, ev: Event<T>, render: nat -> string)
    requires Valid(s) && s.closes == 0
    ensures var t := Next(s, ev, render);
            Valid(t) && s.count <= t.count && s.out <= t.out && s.reports <= t.reports
  {
  }

  /** The elements received before the input turns out closed, in order. */
  function Forwarded<T>(evs: seq<Event<T>>): seq<T>
    decreases |evs|
  {
    if evs == [] then []
    else match evs[0]
      case Tick => Forwarded(evs[1..])
      case Item(e) => [e] + Forwarded(evs[1..])
      case Close => []
  }

  /** The elements forwarded are exactly the elements among the events before the first Close. */
  lemma {:induction false} ForwardedIsItemsUntilClose<T>(evs: seq<Event<T>>)
    ensures Forwarded(evs) == Items(UntilClose(evs))
    decreases |evs|
  {
    if evs == [] || evs[0].Close? {
      assert UntilClose(evs) == [];
    } else {
      UntilCloseCons(evs);
      ItemsCons(evs[0], UntilClose(evs[1..]));
      ForwardedIsItemsUntilClose(evs[1..]);
    }
  }

  /**
   What a run of the relay forwards: the output gains exactly the elements
   received before the input closed, in order, the count grows by their
   number, and the output is closed once if and only if the input closed.
   */
  lemma {:induction false} RunForwards<T>(s: RelayState<T>, evs: seq<Event<T>>, render: nat -> string)
    requires s.closes == 0
    ensures var r := Run(s, evs, render);
            && r.out == s.out + Forwarded(evs)
            && r.count == s.count + |Forwarded(evs)|
            && r.closes == (if FirstClose(evs) < |evs| then 1 else 0)
            && (Valid(s) ==> Valid(r))
    decreases |evs|
  {
    if evs != [] {
      var ev, rest := evs[0], evs[1..];
      var t := Next(s, ev, render);
      assert Run(s, evs, render) == Run(t, rest, render);
      match ev
      case Close =>
        assert Run(t, rest, render) == t;
      case Tick =>
        RunForwards(t, rest, render);
      case Item(e) =>
        RunForwards(t, rest, render);
        assert Forwarded(evs) == [e] + Forwarded(rest);
        assert (s.out + [e]) + Forwarded(rest) == s.out + ([e] + Forwarded(rest));
    }
  }

  lemma LinesCons(render: nat -> string, c: nat, counts: seq<nat>, before: seq<string>)
    ensures (before + [render(c)]) + Lines(render, counts)
         == before + Lines(render, [c] + counts)
  {
  }

  /**
   What a run of the relay reports: one line per tick handled before the
   input closed, each showing the count at that tick; Close adds none.
   */
  lemma {:induction false} RunReports<T>(s: RelayState<T>, evs: seq<Event<T>>, render: nat -> string)
    requires s.closes == 0
    ensures Run(s, evs, render).reports == s.reports + Lines(render, Snapshots(s.count, evs))
    decreases |evs|
  {
    if evs == [] {
      assert Lines(render, []) == [];
      assert s.reports + [] == s.reports;
    } else {
      var ev, rest := evs[0], evs[1..];
      var t := Next(s, ev, render);
      assert Run(s, evs, render) == Run(t, rest, render);
      match ev
      case Close =>
        assert Run(t, rest, render) == t;
        assert Snapshots(s.count, evs) == [];
        assert s.reports + Lines(render, []) == s.reports;
      case Tick =>
        RunReports(t, rest, render);
        var snaps := Snapshots(s.count, rest);
        assert Snapshots(s.count, evs) == [s.count] + snaps;
        LinesCons(render, s.count, snaps, s.reports);
      case Item(e) =>
        RunReports(t, rest, render);
        assert Snapshots(s.count, evs) == Snapshots(s.count + 1, rest);
    }
  }

  /**
   The counts shown in successive reports never decrease, and each lies
   between the count at the start and the count after the last element.
   There is one for each tick handled.
   */
  lemma {:induction false} SnapshotsMonotone<T>(c: nat, evs: seq<Event<T>>)
    ensures var snaps := Snapshots(c, evs);
            && |snaps| == Ticks(UntilClose(evs))
            && (forall i :: 0 <= i < |snaps| ==> c <= snaps[i] <= c + |Items(UntilClose(evs))|)
            && (forall i, j :: 0 <= i <= j < |snaps| ==> snaps[i] <= snaps[j])
    decreases |evs|
  {
    if evs == [] {
      assert UntilClose(evs) == [];
    } else {
      var ev, rest := evs[0], evs[1..];
      match ev
      case Close =>
        assert UntilClose(evs) == [];
      case Tick =>
        UntilCloseCons(evs);
        ItemsCons(ev, UntilClose(rest));
        SnapshotsMonotone(c, rest);
      case Item(_) =>
        UntilCloseCons(evs);
        ItemsCons(ev, UntilClose(rest));
        SnapshotsMonotone(c + 1, rest);
    }
  }

  /** Events after the first Close are never handled: the goroutine has returned. */
  lemma {:induction false} IgnoredAfterClose<T>(s: RelayState<T>, evs: seq<Event<T>>, render: nat -> string)
    requires s.closes == 0 && FirstClose(evs) < |evs|
    ensures Run(s, evs, render) == Run(s, evs[..FirstClose(evs) + 1], render)
    decreases |evs|
  {
    var ev, rest := evs[0], evs[1..];
    var t := Next(s, ev, render);
    var k := FirstClose(evs);
    if ev.Close? {
      assert Run(t, rest, render) == t;
      assert evs[..1] == [ev] && evs[..1][1..] == [];
    } else {
      IgnoredAfterClose(t, rest, render);
      assert evs[..k + 1][1..] == rest[..FirstClose(rest) + 1];
    }
  }

  lemma {:induction false} FirstCloseAtEnd<T>(evs: seq<Event<T>>)
    requires forall i :: 0 <= i < |evs| ==> !evs[i].Close?
    ensures FirstClose(evs + [Close]) == |evs|
    decreases |evs|
  {
    if evs == [] {
      assert evs + [Close] == [Close];
    } else {
      assert (evs + [Close])[1..] == evs[1..] + [Close];
      FirstCloseAtEnd(evs[1..]);
    }
  }

  /**
   The whole life of a relay over an input of elements that is then closed,
   with ticks anywhere in between: the output is the input, the final count
   is the number of elements, the output is closed exactly once, and the
   reports are one per tick.
   */
  lemma RelayLifetime<T>(evs: seq<Event<T>>, render: nat -> string)
    requires forall i :: 0 <= i < |evs| ==> !evs[i].Close?
    ensures var r := Run(Initial(), evs + [Close], render);
            && r.out == Items(evs)
            && r.count == |Items(evs)|
            && r.closes == 1
            && |r.reports| == Ticks(evs)
  {
    var all := evs + [Close];
    FirstCloseAtEnd(evs);
    assert UntilClose(all) == evs;
    RunForwards(Initial(), all, render);
    ForwardedIsItemsUntilClose(all);
    RunReports(Initial(), all, render);
    SnapshotsMonotone(0, all);
  }

  /**
   Elements 1 and 2, a tick, element 3, the close, and an element that
   arrives too late: the tick reports a count of 2, and 4 is never forwarded.
   */
  lemma RelayExample(render: nat -> string)
    ensures var r := Run(Initial(), [Item(1), Item(2), Tick, Item(3), Close, Item(4)], render);
            r == RelayState(3, [1, 2, 3], 1, [render(2)])
  {
  }
}
