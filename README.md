# chancount, modelled in Dafny

`chancount` wraps a Go receive-only channel: `Elems(ch, opts...)` returns a new
channel that delivers every element of `ch` unchanged and in order, and a
single relay goroutine counts the elements as it forwards them. On every tick
of a ticker it writes a status line such as

    orders channel received 3 elements since 15:04:05

to a writer. Functional options set the label (`WithName`), the tick interval
(`WithFrequency`), the writer (`WithOutput`) and the time layout
(`WithTimeFormat`). The defaults are one second, standard output, `time.TimeOnly`
and no label.

The model has five parts, all in one Dafny project:

- `report.dfy`, module `Report`: the text of a status line as a pure function of
  the label, the count and the formatted start time. `%d` is modelled by
  `Decimal`, and its inverse `DecimalValue` proves the rendering faithful.
- `wrappers.dfy`, module `Wrappers`: the `Option` datatype that `Report` and
  `Options` share.
- `options.dfy`, module `Options`: the settings record `Config`, the four
  options as a datatype `CounterOption`, and the left-to-right fold `ApplyAll`
  that `newChanCounter` performs over the defaults. `LastOf` is an independent
  "last option of each kind" reference definition, used to state that the last
  option wins.
- `relay.dfy`, module `Relay`: the body of the goroutine's `for`/`select` loop as
  a state machine over events `Tick`, `Item(e)` and `Close`. `Close` is the
  receive that finds the input channel closed. The state holds the count, the
  elements sent on the output channel, how many times the output channel was
  closed, and the lines written to the writer. `Run` handles events until the
  first `Close`. `Forwarded`/`Items`, `FirstClose` and `Snapshots` are reference
  definitions for what a run must produce.
- `chancount.dfy`, module `ChanCount`: the `chanCounter` struct as the class
  `ChanCounter`. Its constructor is `newChanCounter` and loops over the options.
  `Apply` is the closure an option returns. `WriteReport` is `report`. `Step` is one
  pass of the `select`, and `Count` is the relay loop. `Elems` puts them together.
  Each method's `ensures` ties the new state to the functions above.

`cmd/example.go:16-17` calls a two-argument `Elems(&count, ch)` with an
`atomic.Uint64`; `chancount.go` does not define it, so it is left out.

## Model

| member | source | states |
|---|---|---|
| `Report.Decimal` | chancount.go:129-130 | `%d` of a count is non-empty and all decimal digits, with no leading zero except for the count 0 itself |
| `Report.DecimalRoundTrip` | chancount.go:129-130 | reading the rendered digits back gives the count: `DecimalValue(Decimal(n)) == n` |
| `Report.Noun` | chancount.go:124-127 | the noun is "element" if and only if the count is 1, and "elements" if and only if it is not (0 included) |
| `Report.Label` | chancount.go:119-122 | no prefix for an empty name; otherwise the name followed by one space |
| `Report.ReportLineShape` | chancount.go:119-134 | a line ends with the newline Fprintln adds; it starts with `name + " "` exactly when the name is non-empty, and with "channel received " when it is empty; it ends with `" since " + start + "\n"` |
| `Report.CountReadBack` | chancount.go:129-134 | parsing a report line (the label and "channel received ", then the run of digits read as a number) gives back the count the line was written with |
| `Report.ReportLineDeterminesCount` | chancount.go:129-134 | two lines with the same label and start time are equal only when their counts are equal |
| `Report.UnnamedSingularExample` | chancount.go:119-134 | with no name and a count of 1, the line is exactly "channel received 1 element since 15:04:05" and a newline |
| `Report.NamedPluralExample` | chancount.go:119-134 | with the name "in" and a count of 2, the line is exactly "in channel received 2 elements since T" and a newline |
| `Options.ApplyOption` | chancount.go:34-59 | an option gives its own setting the option's value and leaves every other setting unchanged |
| `Options.ApplyAllAppend` | chancount.go:79-81 | options run in the order supplied: applying `a + b` is applying `a`, then `b` |
| `Options.LastOf` | chancount.go:79-81 | the last option in the sequence that targets a setting: it is in the sequence, targets that setting, and no later option does; none exactly when no option targets it |
| `Options.LastOptionWins` | chancount.go:79-81 | for every setting, the last option of that kind decides its value; a setting no option names keeps its starting value |
| `Options.DefaultsKept` | chancount.go:71-77 | a setting no option names keeps its default: empty name, one second, standard output, `time.TimeOnly` |
| `Options.LaterOptionOverrides` | chancount.go:34-59 | two options for the same setting in a row give the same settings as the second option alone |
| `ChanCount.ChanCounter.constructor` | chancount.go:70-84 | the settings are the defaults with every option applied in order; the count is 0, nothing has been sent or written, and the output is open |
| `ChanCount.ChanCounter.Apply` | chancount.go:79-81 | running one option changes the settings exactly as `ApplyOption` does; the count, output and written lines do not change |
| `ChanCount.ChanCounter.WriteReport` | chancount.go:114-135 | appends exactly one line, built from the current label, the current count and the start time in the configured layout; nothing else changes |
| `ChanCount.ChanCounter.Step` | chancount.go:96-108 | `Item(e)` appends `e` to the output and adds 1 to the count; `Tick` leaves count and output alone and appends one report line; `Close` closes the output once and writes no report |
| `ChanCount.ChanCounter.Count` | chancount.go:86-112 | the new state is `Run` of the old state over the events; settings do not change; the invariant holds; the number of events handled stops right after the first `Close` |
| `ChanCount.Elems` | chancount.go:65-68 | the consumer receives the elements received before the input closed, in order; the output is closed exactly when the input closed; reports go to the configured writer, one per tick, each showing the count at that tick |
| `Relay.FirstClose` | chancount.go:100-103 | the index of the first `Close`: no `Close` comes before it, and it is a `Close` unless it equals the length |
| `Relay.Lines` | chancount.go:98-99 | one report line per count, in the same order |
| `Relay.NextKeepsValid` | chancount.go:96-108 | one step keeps the count equal to the number of elements sent and the output closed at most once; it never lowers the count and only appends to the output and the report lines |
| `Relay.ForwardedIsItemsUntilClose` | chancount.go:100-104 | the forwarded elements are exactly the `Item` payloads before the first `Close` |
| `Relay.RunForwards` | chancount.go:96-108 | over any events, the output gains exactly the elements received before the input closed, in order; the count grows by their number; the output is closed once if the input closed and never otherwise |
| `Relay.RunReports` | chancount.go:96-117 | the lines written are one per tick handled before the close, each rendering the count at that tick; `Close` adds none |
| `Relay.SnapshotsMonotone` | chancount.go:96-117 | there are as many reports as ticks handled; the reported counts never decrease and lie between the starting count and the final count |
| `Relay.IgnoredAfterClose` | chancount.go:100-103 | events after the first `Close` have no effect: the goroutine has returned |
| `Relay.RelayExample` | chancount.go:96-108 | for elements 1 and 2, a tick, element 3, the close and a late element 4: the output is [1, 2, 3], the count is 3, the output is closed once, and the single report shows the count 2 |
| `Relay.FirstCloseAtEnd` | chancount.go:100-103 | for an input of elements and ticks followed by a close, the close is found at the end |
| `Relay.RelayLifetime` | chancount.go:86-112 | for N elements with any ticks in between, then close: the output is the elements in order, the final count is N, the output is closed exactly once, and there is one report per tick |

## Left out

- Concurrency: the goroutine, the nondeterministic choice of `select`, blocking and backpressure on the channels, the `sync.RWMutex`, and the buffer size `cap(c.ch)` of the output channel. The relay is one sequential state machine over an explicit sequence of events, and `count` is a plain field.
- Wall-clock time: `time.NewTicker`, the interval `freq`, `t.Stop()` and `time.Now()`. Ticks arrive as events. The start instant is a parameter of `Count` and `Elems`. `freq` is stored and can be configured, but no tick timing depends on it.
- A nil option panics at `opt(c)` (chancount.go:80), and a nil writer set by `WithOutput(nil)` panics at the first report (chancount.go:134). The model's option and writer types have no nil value.
- A non-positive frequency makes `time.NewTicker` panic inside the goroutine. The ticker is not modelled, so neither is this panic.
- The struct field `start` set by `newChanCounter` is never read; reports use the goroutine's own start time. The field is not modelled.
- `time.Time.Format`: the layout engine is a function parameter `format`, applied to the start instant and the configured `timeFormat`. Its result is an opaque string.
- Output through `io.Writer` and `fmt.Fprintln`: each line, with the newline Fprintln adds, is appended to `written`. Fprintln's error is ignored in the source and is not modelled. A writer is an opaque identity (`Stdout` or `Custom(id)`).
- Integer widths: `count` (Go `int`) is an unbounded `nat`, so wrap-around after the largest Go `int` (2^63 - 1 on 64-bit targets) is not modelled. `time.Duration` (int64) is an unbounded `int`.
- `Count`: requires that the output is still open. In the source, every call makes a fresh output channel and starts another goroutine on the same input. Only the single call that `Elems` makes is modelled.
- cmd/example.go is not part of this model. It is a demonstration program, and it calls a two-argument `Elems(&count, ch)` that chancount.go does not define.
