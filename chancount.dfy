/**
 The counter itself: newChanCounter builds it from the defaults and the
 options, Count runs the relay loop over the events the goroutine sees, and
 report writes one status line. The output channel that Count makes is kept
 as the sequence of elements sent on it and the number of times it was
 closed; the report sink is kept as the sequence of lines written to it.
 */
module ChanCount {
  import opened Options
  import opened Report
  import opened Relay

  /** time.Time, as far as this model needs it: an opaque instant. */
  datatype Instant = Instant(unixNano: int)

  /** time.Time.Format: renders an instant with a layout. The layout engine is not modelled. */
  type Formatter = (Instant, string) -> string

  /** The report line for each count, given the label and the formatted start time. */
  function Reporter(name: string, stamp: string): nat -> string {
    (c: nat) => ReportLine(name, c, stamp)
  }

  class ChanCounter<T> {
    var name: string
    var freq: Duration
    var w: Writer
    var count: nat
    var timeFormat: string

    // The output channel of Count: what was sent on it and how often it was closed.
    var out: seq<T>
    var closes: nat
    // The lines written to w.
    var written: seq<string>

    function Settings(): Config
      reads this
    {
      Config(name, freq, w, timeFormat)
    }

    function State(): RelayState<T>
      reads this
    {
      RelayState(count, out, closes, written)
    }

    /** newChanCounter: the defaults, then every option in the order given. */
    constructor (opts: seq<CounterOption>)
      ensures Settings() == Resolve(opts)
      ensures State() == Initial()
    {
      name, freq, w, timeFormat := "", Second, Stdout, TimeOnly;
      count, out, closes, written := 0, [], 0, [];
      new;
      for i := 0 to |opts|
        invariant Settings() == ApplyAll(DefaultConfig(), opts[..i])
        invariant State() == Initial()
      {
        ApplyAllAppend(DefaultConfig(), opts[..i], [opts[i]]);
        assert opts[..i + 1] == opts[..i] + [opts[i]];
        assert ApplyAll(Settings(), [opts[i]]) == ApplyOption(Settings(), opts[i]);
        Apply(opts[i]);
      }
      assert opts[..|opts|] == opts;
    }

    /** Running one option: it overwrites its own setting and nothing else. */
    method Apply(o: CounterOption)
      modifies this
      ensures Settings() == ApplyOption(old(Settings()), o)
      ensures State() == old(State())
    {
      match o
      case WithName(n) => name := n;
      case WithFrequency(f) => freq := f;
      case WithOutput(sink) => w := sink;
      case WithTimeFormat(layout) => timeFormat := layout;
    }

    /** The source's report: write one line with the current count and the start time in the configured layout. */
    method WriteReport(start: Instant, format: Formatter)
      modifies this
      ensures written == old(written) + [ReportLine(name, count, format(start, timeFormat))]
      ensures Settings() == old(Settings())
      ensures count == old(count) && out == old(out) && closes == old(closes)
    {
      var line := ReportLine(name, count, format(start, timeFormat));
      written := written + [line];
    }

    /** One pass of the select loop, while the goroutine still runs. */
    method Step(ev: Event<T>, start: Instant, format: Formatter)
      requires closes == 0
      modifies this
      ensures State() == Next(old(State()), ev, Reporter(name, format(start, timeFormat)))
      ensures Settings() == old(Settings())
      ensures ev.Item? ==> out == old(out) + [ev.e] && count == old(count) + 1
                           && written == old(written) && closes == 0
      ensures ev.Tick? ==> out == old(out) && count == old(count) && closes == 0
                           && written == old(written) + [ReportLine(name, count, format(start, timeFormat))]
      ensures ev.Close? ==> closes == 1 && out == old(out) && count == old(count) && written == old(written)
    {
      match ev
      case Tick =>
        WriteReport(start, format);
      case Item(e) =>
        out := out + [e];
        count := count + 1;
      case Close =>
        closes := closes + 1;
    }

    /**
     The relay goroutine of Count, over the events it sees in order. It
     returns how many events it handled: none after the input turns out closed.
     */
    method Count(events: seq<Event<T>>, start: Instant, format: Formatter) returns (handled: nat)
      requires closes == 0
      modifies this
      ensures Settings() == old(Settings())
      ensures State() == Run(old(State()), events, Reporter(name, format(start, timeFormat)))
      ensures Valid(old(State())) ==> Valid(State())
      ensures handled == if FirstClose(events) < |events| then FirstClose(events) + 1 else |events|
    {
      ghost var render := Reporter(name, format(start, timeFormat));
      var i := 0;
      while i < |events| && closes == 0
        invariant 0 <= i <= |events|
        invariant Settings() == old(Settings())
        invariant Run(State(), events[i..], render) == Run(old(State()), events, render)
        invariant closes == 0 ==> i <= FirstClose(events)
        invariant closes != 0 ==> closes == 1 && i == FirstClose(events) + 1
      {
        assert events[i..][1..] == events[i + 1..];
        Step(events[i], start, format);
        i := i + 1;
      }
      handled := i;
      RunForwards(old(State()), events, render);
    }
  }

  /**
   Elems: build a counter with the options and relay the events. The result
   is what the consumer of the returned channel sees, whether that channel
   was closed, the sink the reports went to, and the lines written there.
   */
  method Elems<T>(events: seq<Event<T>>, opts: seq<CounterOption>, start: Instant, format: Formatter)
    returns (out: seq<T>, closed: bool, sink: Writer, reports: seq<string>)
    ensures out == Items(UntilClose(events))
    ensures closed <==> FirstClose(events) < |events|
    ensures sink == Resolve(opts).w
    ensures reports == Lines(Reporter(Resolve(opts).name, format(start, Resolve(opts).timeFormat)), Snapshots(0, events))
    ensures |reports| == Ticks(UntilClose(events))
  {
    var c := new ChanCounter<T>(opts);
    var handled := c.Count(events, start, format);
    ghost var render := Reporter(Resolve(opts).name, format(start, Resolve(opts).timeFormat));
    RunForwards(Initial(), events, render);
    RunReports(Initial(), events, render);
    ForwardedIsItemsUntilClose(events);
    SnapshotsMonotone(0, events);
    out, closed, sink, reports := c.out, c.closes == 1, c.w, c.written;
  }
}
