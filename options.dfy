/**
 The counter's settings and the functional options that change them. Every
 option overwrites one setting; options are applied left to right over the
 defaults, so for each setting the last option that names it wins.
 */
module Options {
  import opened Wrappers

  /** time.Duration: a signed count of nanoseconds. */
  type Duration = int

  /** time.Second. */
  const Second: Duration := 1_000_000_000

  /** time.TimeOnly, the layout "15:04:05". */
  const TimeOnly: string := "15:04:05"

  /** Where reports are written: the process's standard output, or a writer the caller supplies. */
  datatype Writer = Stdout | Custom(id: nat)

  /** The settings of a counter that options can change. */
  datatype Config = Config(name: string, freq: Duration, w: Writer, timeFormat: string)

  datatype CounterOption =
    | WithName(name: string)
    | WithFrequency(freq: Duration)
    | WithOutput(w: Writer)
    | WithTimeFormat(layout: string)

  /** The four settings, as the targets of options. */
  datatype Field = NameField | FrequencyField | OutputField | TimeFormatField

  function FieldOf(o: CounterOption): Field {
    match o
    case WithName(_) => NameField
    case WithFrequency(_) => FrequencyField
    case WithOutput(_) => OutputField
    case WithTimeFormat(_) => TimeFormatField
  }

  /** The settings a new counter starts from. */
  function DefaultConfig(): Config {
    Config(name := "", freq := Second, w := Stdout, timeFormat := TimeOnly)
  }

  /** The setting that option o targets holds o's value in c. */
  predicate Holds(c: Config, o: CounterOption) {
    match o
    case WithName(n) => c.name == n
    case WithFrequency(f) => c.freq == f
    case WithOutput(w) => c.w == w
    case WithTimeFormat(layout) => c.timeFormat == layout
  }

  /** The settings in which c and d differ. */
  function Changed(c: Config, d: Config): set<Field> {
    (if c.name != d.name then {NameField} else {})
    + (if c.freq != d.freq then {FrequencyField} else {})
    + (if c.w != d.w then {OutputField} else {})
    + (if c.timeFormat != d.timeFormat then {TimeFormatField} else {})
  }

  /** Running one option on the counter: its setting takes the option's value, nothing else changes. */
  function ApplyOption(c: Config, o: CounterOption): (r: Config)
    ensures Holds(r, o)
    ensures Changed(c, r) <= {FieldOf(o)}
  {
    match o
    case WithName(n) => c.(name := n)
    case WithFrequency(f) => c.(freq := f)
    case WithOutput(w) => c.(w := w)
    case WithTimeFormat(layout) => c.(timeFormat := layout)
  }

  /** Running the options in the order given. */
  function ApplyAll(c: Config, opts: seq<CounterOption>): Config
    decreases |opts|
  {
    if opts == [] then c else ApplyAll(ApplyOption(c, opts[0]), opts[1..])
  }

  /** The settings of a counter built with opts. */
  function Resolve(opts: seq<CounterOption>): Config {
    ApplyAll(DefaultConfig(), opts)
  }

  /** The last option in opts that targets setting f, if any. */
  function LastOf(opts: seq<CounterOption>, f: Field): (last: Option<CounterOption>)
    ensures last.Some? ==> exists i :: 0 <= i < |opts| && opts[i] == last.value && FieldOf(opts[i]) == f
                                 && forall j :: i < j < |opts| ==> FieldOf(opts[j]) != f
    ensures last.None? <==> forall i :: 0 <= i < |opts| ==> FieldOf(opts[i]) != f
    decreases |opts|
  {
    if opts == [] then None
    else if FieldOf(opts[|opts| - 1]) == f then Some(opts[|opts| - 1])
    else LastOf(opts[..|opts| - 1], f)
  }

  /** Options run in sequence: running a then b is running a + b. */
  lemma {:induction false} ApplyAllAppend(c: Config, a: seq<CounterOption>, b: seq<CounterOption>)
    ensures ApplyAll(c, a + b) == ApplyAll(ApplyAll(c, a), b)
    decreases |a|
  {
    if a == [] {
      assert a + b == b;
    } else {
      assert (a + b)[0] == a[0];
      assert (a + b)[1..] == a[1..] + b;
      ApplyAllAppend(ApplyOption(c, a[0]), a[1..], b);
    }
  }

  /**
   For every setting, the last option that targets it decides its value; a
   setting no option targets keeps the value it started with.
   */
  lemma {:induction false} LastOptionWins(c: Config, opts: seq<CounterOption>)
    ensures forall f: Field :: LastOf(opts, f).None? ==> f !in Changed(c, ApplyAll(c, opts))
    ensures forall f: Field :: LastOf(opts, f).Some? ==> Holds(ApplyAll(c, opts), LastOf(opts, f).value)
    decreases |opts|
  {
    if opts != [] {
      var init, o := opts[..|opts| - 1], opts[|opts| - 1];
      assert opts == init + [o];
      ApplyAllAppend(c, init, [o]);
      var m := ApplyAll(c, init);
      assert ApplyAll(c, opts) == ApplyOption(m, o);
      LastOptionWins(c, init);
    }
  }

  /** Settings no option names keep their defaults. */
  lemma DefaultsKept(opts: seq<CounterOption>)
    ensures LastOf(opts, NameField).None? ==> Resolve(opts).name == ""
    ensures LastOf(opts, FrequencyField).None? ==> Resolve(opts).freq == Second
    ensures LastOf(opts, OutputField).None? ==> Resolve(opts).w == Stdout
    ensures LastOf(opts, TimeFormatField).None? ==> Resolve(opts).timeFormat == TimeOnly
  {
    LastOptionWins(DefaultConfig(), opts);
  }

  /** Two options for the same setting: the second one's value is in effect. */
  lemma LaterOptionOverrides(c: Config, first: CounterOption, second: CounterOption)
    requires FieldOf(first) == FieldOf(second)
    ensures ApplyAll(c, [first, second]) == ApplyOption(c, second)
  {
    var m := ApplyOption(c, first);
    assert [first, second][1..] == [second];
    assert ApplyAll(c, [first, second]) == ApplyAll(m, [second]);
    assert [second][1..] == [];
    assert ApplyAll(m, [second]) == ApplyOption(m, second);
  }
}
