/**
 The text of one status report of the counter: an optional "<name> " label,
 then "channel received <count> <element|elements> since <start>", then the
 newline that Fprintln adds. The start time arrives already formatted with
 the configured layout; this module treats it as an opaque string.
 */
module Report {
  import opened Wrappers

  /** The fixed words that follow the optional label. */
  const Received: string := "channel received "

  predicate IsDigit(ch: char) {
    '0' <= ch <= '9'
  }

  predicate AllDigits(s: string) {
    forall i :: 0 <= i < |s| ==> IsDigit(s[i])
  }

  predicate StartsWith(s: string, prefix: string) {
    |prefix| <= |s| && s[..|prefix|] == prefix
  }

  predicate EndsWith(s: string, suffix: string) {
    |suffix| <= |s| && s[|s| - |suffix|..] == suffix
  }

  function DigitChar(d: nat): (ch: char)
    requires d < 10
    ensures IsDigit(ch)
  {
    ('0' as int + d) as char
  }

  function DigitValue(ch: char): nat
    requires IsDigit(ch)
  {
    ch as int - '0' as int
  }

  /** How the verb %d renders a non-negative integer: base ten, no sign, no leading zeros. */
  function Decimal(n: nat): (s: string)
    ensures |s| >= 1 && AllDigits(s)
    ensures s[0] == '0' ==> n == 0 && s == "0"
    decreases n
  {
    if n < 10 then [DigitChar(n)] else Decimal(n / 10) + [DigitChar(n % 10)]
  }

  /** Reads a string of decimal digits back as a number (the empty string reads as zero). */
  function DecimalValue(s: string): nat
    requires AllDigits(s)
  {
    if s == [] then 0 else DecimalValue(s[..|s| - 1]) * 10 + DigitValue(s[|s| - 1])
  }

  lemma {:induction false} DecimalRoundTrip(n: nat)
    ensures DecimalValue(Decimal(n)) == n
    decreases n
  {
    var s := Decimal(n);
    if n >= 10 {
      DecimalRoundTrip(n / 10);
      assert s[..|s| - 1] == Decimal(n / 10);
      assert DigitValue(s[|s| - 1]) == n % 10;
    } else {
      assert DigitValue(s[0]) == n;
    }
  }

  /** The longest prefix of s made of decimal digits. */
  function LeadingDigits(s: string): (d: string)
    ensures AllDigits(d) && StartsWith(s, d)
  {
    if s == [] || !IsDigit(s[0]) then [] else [s[0]] + LeadingDigits(s[1..])
  }

  lemma {:induction false} LeadingDigitsOf(d: string, rest: string)
    requires AllDigits(d)
    requires rest != [] && !IsDigit(rest[0])
    ensures LeadingDigits(d + rest) == d
  {
    if d == [] {
      assert d + rest == rest;
    } else {
      assert (d + rest)[0] == d[0];
      assert (d + rest)[1..] == d[1..] + rest;
      LeadingDigitsOf(d[1..], rest);
    }
  }

  /** The unit noun: singular for exactly one element, plural otherwise (zero included). */
  function Noun(count: nat): (noun: string)
    ensures noun == "element" <==> count == 1
    ensures noun == "elements" <==> count != 1
  {
    if count == 1 then "element" else "elements"
  }

  /** The label, followed by one space, when a label is set. */
  function Label(name: string): (prefix: string)
    ensures name == "" ==> prefix == ""
    ensures name != "" ==> prefix == name + " " && |prefix| == |name| + 1
  {
    if name != "" then name + " " else ""
  }

  lemma ConcatPrefixSuffix(a: string, b: string)
    ensures StartsWith(a + b, a) && EndsWith(a + b, b)
  {
  }

  /** What follows the fixed words: the count, the noun and the start time. */
  function Tail(count: nat, stamp: string): string {
    (Decimal(count) + " " + Noun(count)) + (" since " + stamp)
  }

  /** The report message, before the newline that Fprintln appends. */
  function Message(name: string, count: nat, stamp: string): string {
    Label(name) + (Received + Tail(count, stamp))
  }

  lemma MessageStart(name: string, count: nat, stamp: string)
    ensures name != "" <==> StartsWith(Message(name, count, stamp) + "\n", name + " ")
    ensures name == "" ==> StartsWith(Message(name, count, stamp) + "\n", Received)
  {
    var line := Message(name, count, stamp) + "\n";
    var rest := Received + Tail(count, stamp) + "\n";
    assert line == Label(name) + rest;
    ConcatPrefixSuffix(Label(name), rest);
    ConcatPrefixSuffix(Received, Tail(count, stamp) + "\n");
    assert rest == Received + (Tail(count, stamp) + "\n");
    assert line[|Label(name)|] == rest[0] == 'c';
    if name == "" && |line| >= 1 {
      assert line[..1][0] == 'c' != (name + " ")[0];
    }
  }

  lemma MessageEnd(name: string, count: nat, stamp: string)
    ensures EndsWith(Message(name, count, stamp) + "\n", " since " + stamp + "\n")
  {
  }

  /** One line as written to the report sink. */
  function ReportLine(name: string, count: nat, stamp: string): string {
    Message(name, count, stamp) + "\n"
  }

  /**
   The shape of a report line: it ends with the newline; it starts with the
   label and a space exactly when a label is set, and with the fixed words
   otherwise; the start time comes last, after " since ".
   */
  lemma ReportLineShape(name: string, count: nat, stamp: string)
    ensures var line := ReportLine(name, count, stamp);
            && |line| > 0 && line[|line| - 1] == '\n'
            && (name != "" <==> StartsWith(line, name + " "))
            && (name == "" ==> StartsWith(line, Received))
            && EndsWith(line, " since " + stamp + "\n")
  {
    MessageStart(name, count, stamp);
    MessageEnd(name, count, stamp);
  }

  lemma DigitsAfterWords(name: string, count: nat, stamp: string)
    ensures var line := Message(name, count, stamp) + "\n";
            var k := |Label(name)| + |Received|;
            k <= |line| && line[k..] == Decimal(count) + (" " + Noun(count) + (" since " + stamp) + "\n")
  {
  }

  /**
   Reads the count back out of a report line for the given label: the line
   must start with the label and the fixed words, and the count is the run
   of digits that follows them.
   */
  function ParseCount(name: string, line: string): Option<nat> {
    var head := Label(name) + Received;
    if StartsWith(line, head) then Some(DecimalValue(LeadingDigits(line[|head|..]))) else None
  }

  /** Parsing a report line gives back the count it was written with. */
  lemma CountReadBack(name: string, count: nat, stamp: string)
    ensures ParseCount(name, ReportLine(name, count, stamp)) == Some(count)
  {
    var line := ReportLine(name, count, stamp);
    var head := Label(name) + Received;
    var rest := " " + Noun(count) + (" since " + stamp) + "\n";
    DigitsAfterWords(name, count, stamp);
    assert line == head + line[|head|..];
    ConcatPrefixSuffix(head, line[|head|..]);
    assert rest[0] == ' ';
    LeadingDigitsOf(Decimal(count), rest);
    DecimalRoundTrip(count);
  }

  /** Two reports for the same label and start time differ whenever their counts differ. */
  lemma ReportLineDeterminesCount(name: string, stamp: string, c1: nat, c2: nat)
    requires ReportLine(name, c1, stamp) == ReportLine(name, c2, stamp)
    ensures c1 == c2
  {
    CountReadBack(name, c1, stamp);
    CountReadBack(name, c2, stamp);
  }

  /** The exact text for an unnamed counter at one element. */
  lemma UnnamedSingularExample()
    ensures ReportLine("", 1, "15:04:05") == "channel received 1 element since 15:04:05\n"
  {
  }

  lemma PluralWordsExample()
    ensures Received + Tail(2, "T") == "channel received 2 elements since T"
  {
    assert Tail(2, "T") == "2 elements since T";
  }

  /** The exact text for a named counter at two elements. */
  lemma NamedPluralExample()
    ensures ReportLine("in", 2, "T") == "in channel received 2 elements since T\n"
  {
    PluralWordsExample();
    assert Label("in") == "in ";
  }
}
