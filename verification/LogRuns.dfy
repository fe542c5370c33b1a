/**
 What the parser makes of the client's output: of each line, of each run, complete or cut, and of
 a log of many runs. A run is read correctly exactly when the names in it do not mislead and its
 two numbers are not negative, which the pattern for the header does not match.
 */
module LogRuns {
  import opened Options
  import opened LogText
  import opened LogParser

  // ---------- What the client prints ----------

  /** A run of the client, and how many of its five lines it got to print. */
  datatype ClientRun = ClientRun(
    transport: Name, opCount: int, workload: Name, count: int, size: int,
    tputAvg: string, tputDev: string, latAvg: string, latDev: string, printed: nat)

  predicate Completed(run: ClientRun) {
    run.printed >= 5
  }

  function Samples(run: ClientRun): nat {
    if run.opCount < 0 then 0 else run.opCount
  }

  function FullOutput(run: ClientRun): seq<string> {
    [ TransportLine(run.transport),
      HeaderLine(run.opCount, run.workload, run.count, run.size),
      StatsLine(TPUT, run.tputAvg, run.tputDev, Samples(run)),
      StatsLine(LAT, run.latAvg, run.latDev, Samples(run)),
      PASSED ]
  }

  /** How many lines there are. */
  function Lines(run: ClientRun): (n: nat)
    ensures n <= 5
  {
    if Completed(run) then 5 else run.printed
  }

  function Output(run: ClientRun): seq<string> {
    FullOutput(run)[..Lines(run)]
  }

  function Joined(outs: seq<seq<string>>): seq<string> {
    if outs == [] then [] else Joined(outs[..|outs| - 1]) + outs[|outs| - 1]
  }

  /** The outputs of the runs, one after the other. */
  function Outputs(runs: seq<ClientRun>): seq<string> {
    Joined(seq(|runs|, i requires 0 <= i < |runs| => Output(runs[i])))
  }

  /** The statistics are printed as numbers. */
  predicate Prints(run: ClientRun) {
    NumberText(run.tputAvg) && NumberText(run.tputDev) && NumberText(run.latAvg) && NumberText(run.latDev)
  }

  function FiguresOf(run: ClientRun): Figures {
    Figures(run.count, run.size, Captured(run.tputAvg, run.tputDev), Captured(run.latAvg, run.latDev))
  }

  function KeyOf(countIsKey: bool, run: ClientRun): int {
    Key(countIsKey, FiguresOf(run))
  }

  /** What a run should do to the dictionary. */
  function Entered(countIsKey: bool, run: ClientRun, stats: map<int, Figures>): map<int, Figures> {
    if Completed(run) then stats[KeyOf(countIsKey, run) := FiguresOf(run)] else stats
  }

  // ---------- What the parser finds in the client's lines ----------

  /** What the end of a run looks like to the parser, where a name contains it. */
  function PassedIn(name: string): seq<Event> {
    if HasPassed(name) then [Passed] else []
  }

  /** The run's numbers are printed as digits. */
  predicate Countable(run: ClientRun) {
    run.count >= 0 && run.size >= 0
  }

  /** The figures that a text would start, if it looks like a header. */
  function FeignedBy(text: string): Option<Figures> {
    match MatchHeader(text)
    case None => None
    case Some((count, size)) => Some(Figures(NumberOf(count), NumberOf(size), None, None))
  }

  /** The figures that the first line starts, and those that the second does. */
  function Feigned(run: ClientRun): Option<Figures> {
    FeignedBy(run.transport)
  }

  function Started(run: ClientRun): (f: Option<Figures>)
    ensures f.Some? ==> f.value.count >= 0 && f.value.size >= 0 && f.value.tput == f.value.lat == None
  {
    if Countable(run) then Some(Figures(run.count, run.size, None, None)) else FeignedBy(" " + run.workload + " ")
  }

  function StartedBy(f: Option<Figures>): seq<Event>
    requires f.Some? ==> f.value.count >= 0 && f.value.size >= 0
  {
    if f.Some? then [Header(f.value.count, f.value.size)] else []
  }

  /** What the patterns find in line k of a run. */
  function LineEvents(run: ClientRun, k: nat): seq<Event> {
    if k == 0 then HeaderEvents(run.transport) + PassedIn(run.transport)
    else if k == 1 then StartedBy(Started(run)) + PassedIn(run.workload)
    else if k == 2 then
      if Captured(run.tputAvg, run.tputDev).Some? then [Throughput(run.tputAvg, run.tputDev)] else []
    else if k == 3 then
      if Captured(run.latAvg, run.latDev).Some? then [Latency(run.latAvg, run.latDev)] else []
    else [Passed]
  }

  lemma TransportTells(run: ClientRun)
    ensures Events(FullOutput(run)[0]) == LineEvents(run, 0)
  {
    TransportLineMatches(run.transport);
  }

  lemma HeaderTells(run: ClientRun)
    ensures Events(FullOutput(run)[1]) == LineEvents(run, 1)
  {
    HeaderLineMatches(run.opCount, run.workload, run.count, run.size);
    HeaderLineIsNoStats(run.opCount, run.workload, run.count, run.size);
    HeaderLinePasses(run.opCount, run.workload, run.count, run.size);
    if Countable(run) {
      ShowRoundTrip(run.count);
      ShowRoundTrip(run.size);
    }
  }

  lemma ThroughputTells(run: ClientRun)
    requires Prints(run)
    ensures Events(FullOutput(run)[2]) == LineEvents(run, 2)
  {
    StatsLineMatches(run.tputAvg, run.tputDev, Samples(run));
    StatsLineMatchesNothingElse(TPUT, run.tputAvg, run.tputDev, Samples(run));
  }

  lemma LatencyTells(run: ClientRun)
    requires Prints(run)
    ensures Events(FullOutput(run)[3]) == LineEvents(run, 3)
  {
    StatsLineMatches(run.latAvg, run.latDev, Samples(run));
    StatsLineMatchesNothingElse(LAT, run.latAvg, run.latDev, Samples(run));
  }

  /** Which patterns find what in each of the client's lines, whatever the names. */
  lemma LineTells(run: ClientRun, k: nat)
    requires Prints(run) && k < 5
    ensures Events(FullOutput(run)[k]) == LineEvents(run, k)
  {
    if k == 0 { TransportTells(run); }
    else if k == 1 { HeaderTells(run); }
    else if k == 2 { ThroughputTells(run); }
    else if k == 3 { LatencyTells(run); }
    else { PassedLineMatches(); }
  }

  // ---------- One run, line by line ----------

  /** The state after the first `n` lines of which these are the findings. */
  function Follow(countIsKey: bool, st: State, found: seq<seq<Event>>, n: nat): Option<State>
    requires n <= |found|
  {
    if n == 0 then Some(st) else
    match Follow(countIsKey, st, found, n - 1)
    case None => None
    case Some(st') => ReactAll(countIsKey, st', found[n - 1])
  }

  function RunEvents(run: ClientRun): seq<seq<Event>> {
    seq(5, k requires 0 <= k < 5 => LineEvents(run, k))
  }

  /** The state after the first `n` lines of a run. */
  function StateAt(countIsKey: bool, st: State, run: ClientRun, n: nat): Option<State>
    requires n <= 5
  {
    Follow(countIsKey, st, RunEvents(run), n)
  }

  lemma ReadSingle(countIsKey: bool, st: State, line: string)
    ensures ReadLines(countIsKey, st, [line]) == ReactAll(countIsKey, st, Events(line))
  {
    var rest := [line][1..];
    assert rest == [];
    assert forall st': State :: ReadLines(countIsKey, st', rest) == Some(st');
  }

  lemma NextPrefix(lines: seq<string>, n: nat)
    requires n < |lines|
    ensures lines[..n + 1] == lines[..n] + [lines[n]]
  {}

  lemma ReadNextLine(countIsKey: bool, st: State, lines: seq<string>, n: nat)
    requires n < |lines|
    ensures ReadLines(countIsKey, st, lines[..n + 1]) ==
      match ReadLines(countIsKey, st, lines[..n])
      case None => None
      case Some(st') => ReactAll(countIsKey, st', Events(lines[n]))
  {
    NextPrefix(lines, n);
    ReadAppend(countIsKey, st, lines[..n], [lines[n]]);
    var before := ReadLines(countIsKey, st, lines[..n]);
    if before.Some? { ReadSingle(countIsKey, before.value, lines[n]); }
  }

  lemma {:induction false} ReadIsFollow(
    countIsKey: bool, st: State, lines: seq<string>, found: seq<seq<Event>>, n: nat)
    requires n <= |lines| == |found| && (forall k :: 0 <= k < n ==> Events(lines[k]) == found[k])
    ensures ReadLines(countIsKey, st, lines[..n]) == Follow(countIsKey, st, found, n)
  {
    if n == 0 {
      assert lines[..0] == [];
    } else {
      ReadIsFollow(countIsKey, st, lines, found, n - 1);
      ReadNextLine(countIsKey, st, lines, n - 1);
    }
  }

  lemma OutputIsStateAt(countIsKey: bool, st: State, run: ClientRun)
    requires Prints(run)
    ensures ReadLines(countIsKey, st, Output(run)) == StateAt(countIsKey, st, run, Lines(run))
  {
    forall k | 0 <= k < 5 ensures Events(FullOutput(run)[k]) == RunEvents(run)[k] { LineTells(run, k); }
    ReadIsFollow(countIsKey, st, FullOutput(run), RunEvents(run), Lines(run));
  }

  lemma {:induction false} Raised(countIsKey: bool, st: State, run: ClientRun, k: nat, n: nat)
    requires k <= n <= 5 && StateAt(countIsKey, st, run, k).None?
    ensures StateAt(countIsKey, st, run, n).None?
  {
    if k < n { Raised(countIsKey, st, run, k, n - 1); }
  }

  lemma {:induction false} KeysStay(countIsKey: bool, st: State, es: seq<Event>)
    ensures var end := ReactAll(countIsKey, st, es);
      end.Some? ==> st.stats.Keys <= end.value.stats.Keys
    decreases |es|
  {
    if es != [] && React(countIsKey, st, es[0]).Some? {
      KeysStay(countIsKey, React(countIsKey, st, es[0]).value, es[1..]);
    }
  }

  lemma {:induction false} KeysStayOver(countIsKey: bool, st: State, run: ClientRun, k: nat, n: nat)
    requires k <= n <= 5 && StateAt(countIsKey, st, run, n).Some?
    ensures StateAt(countIsKey, st, run, k).Some?
    ensures StateAt(countIsKey, st, run, k).value.stats.Keys <= StateAt(countIsKey, st, run, n).value.stats.Keys
  {
    if k < n {
      KeysStayOver(countIsKey, st, run, k, n - 1);
      KeysStay(countIsKey, StateAt(countIsKey, st, run, n - 1).value, LineEvents(run, n - 1));
    }
  }

  // ---------- What each line does ----------

  /** A line that may start figures and may look like the end of a run. */
  function AfterHeader(countIsKey: bool, st: State, started: Option<Figures>, passed: bool): Option<State> {
    var current := if started.Some? then started else st.current;
    if !passed then Some(st.(current := current))
    else if current.None? then None
    else Some(State(None, st.stats[Key(countIsKey, current.value) := current.value]))
  }

  lemma HeaderStep(countIsKey: bool, st: State, started: Option<Figures>, name: string)
    requires started.Some? ==>
      started.value.count >= 0 && started.value.size >= 0 && started.value.tput == started.value.lat == None
    ensures ReactAll(countIsKey, st, StartedBy(started) + PassedIn(name))
      == AfterHeader(countIsKey, st, started, HasPassed(name))
  {
    var a, b := StartedBy(started), PassedIn(name);
    ReactAppend(countIsKey, st, a, b);
    if a != [] { ReactOne(countIsKey, st, a[0]); }
    var middle := st.(current := if started.Some? then started else st.current);
    assert ReactAll(countIsKey, st, a) == Some(middle);
    if b != [] { ReactOne(countIsKey, middle, Passed); }
  }

  lemma TransportStep(countIsKey: bool, st: State, run: ClientRun)
    ensures StateAt(countIsKey, st, run, 1) == AfterHeader(countIsKey, st, Feigned(run), HasPassed(run.transport))
  {
    assert StateAt(countIsKey, st, run, 0) == Some(st);
    assert HeaderEvents(run.transport) == StartedBy(Feigned(run));
    HeaderStep(countIsKey, st, Feigned(run), run.transport);
  }

  lemma WorkloadStep(countIsKey: bool, st: State, run: ClientRun)
    requires StateAt(countIsKey, st, run, 1).Some?
    ensures StateAt(countIsKey, st, run, 2) ==
      AfterHeader(countIsKey, StateAt(countIsKey, st, run, 1).value, Started(run), HasPassed(run.workload))
  {
    HeaderStep(countIsKey, StateAt(countIsKey, st, run, 1).value, Started(run), run.workload);
  }

  /** `f` with what the lines from the third up to the k-th of a run put into it. */
  function Filled(f: Figures, run: ClientRun, k: nat): Figures {
    var tput, lat := Captured(run.tputAvg, run.tputDev), Captured(run.latAvg, run.latDev);
    f.(tput := if k >= 3 && tput.Some? then tput else f.tput, lat := if k >= 4 && lat.Some? then lat else f.lat)
  }

  /** A line with statistics, or the last one, read into the figures `f`. */
  lemma FillStep(countIsKey: bool, st: State, run: ClientRun, f: Figures, k: nat)
    requires 2 <= k < 5 && st.current == Some(Filled(f, run, k))
    ensures ReactAll(countIsKey, st, LineEvents(run, k)) == Some(
      if k == 4 then State(None, st.stats[Key(countIsKey, f) := Filled(f, run, 4)])
      else st.(current := Some(Filled(f, run, k + 1))))
  {
    var es := LineEvents(run, k);
    if es != [] {
      assert es == [es[0]];
      ReactOne(countIsKey, st, es[0]);
    }
  }

  lemma {:induction false} Fills(countIsKey: bool, st: State, run: ClientRun, f: Figures, n: nat)
    requires 2 <= n <= 5 && StateAt(countIsKey, st, run, 2).Some?
    requires StateAt(countIsKey, st, run, 2).value.current == Some(f)
    ensures var before := StateAt(countIsKey, st, run, 2).value;
      StateAt(countIsKey, st, run, n) == Some(
        if n == 5 then State(None, before.stats[Key(countIsKey, f) := Filled(f, run, 4)])
        else before.(current := Some(Filled(f, run, n))))
  {
    if n > 2 {
      Fills(countIsKey, st, run, f, n - 1);
      FillStep(countIsKey, StateAt(countIsKey, st, run, n - 1).value, run, f, n - 1);
    }
  }

  /** With nothing to fill, figures and the end of the run raise. */
  lemma NothingToFill(countIsKey: bool, st: State, run: ClientRun, k: nat)
    requires 2 <= k < 5 && st.current.None?
    ensures ReactAll(countIsKey, st, LineEvents(run, k)) == if LineEvents(run, k) == [] then Some(st) else None
  {
    var es := LineEvents(run, k);
    if es != [] {
      assert es == [es[0]];
      ReactOne(countIsKey, st, es[0]);
    }
  }

  /** None of the first `n` lines of the run gives anything to fill in. */
  predicate Silent(run: ClientRun, n: nat) {
    && n <= 4
    && (n >= 3 ==> Captured(run.tputAvg, run.tputDev).None?)
    && (n >= 4 ==> Captured(run.latAvg, run.latDev).None?)
  }

  lemma {:induction false} FillsNothing(countIsKey: bool, st: State, run: ClientRun, n: nat)
    requires 2 <= n <= 5 && StateAt(countIsKey, st, run, 2).Some?
    requires StateAt(countIsKey, st, run, 2).value.current == None
    ensures StateAt(countIsKey, st, run, n) == if Silent(run, n) then StateAt(countIsKey, st, run, 2) else None
  {
    if n > 2 {
      FillsNothing(countIsKey, st, run, n - 1);
      if Silent(run, n - 1) {
        NothingToFill(countIsKey, StateAt(countIsKey, st, run, n - 1).value, run, n - 1);
      }
    }
  }

  // ---------- Runs that are read correctly ----------

  /**
   The transport's name does not mislead: it does not contain the words that end a run, or the entry
   that it makes is overwritten by the run's own.
   */
  predicate TransportHarmless(countIsKey: bool, run: ClientRun) {
    HasPassed(run.transport) ==>
      && Completed(run) && Feigned(run).Some?
      && Key(countIsKey, Feigned(run).value) == KeyOf(countIsKey, run)
  }

  /** Figures have somewhere to go, if there are any. */
  predicate HasHome(run: ClientRun) {
    Feigned(run).Some? || Started(run).Some? || Silent(run, Lines(run))
  }

  /**
   Neither of the names printed misleads, and no number printed is negative. A run with a negative
   number may be cut before it prints figures, or have a name that looks like a header.
   */
  predicate Harmless(countIsKey: bool, run: ClientRun) {
    || run.printed == 0
    || (&& TransportHarmless(countIsKey, run)
        && (run.printed == 1
            || (!HasPassed(run.workload) && (Countable(run) || (!Completed(run) && HasHome(run))))))
  }

  /** After a first line that does not mislead, the run's own entry makes good what it did. */
  lemma HarmlessStep(countIsKey: bool, st: State, run: ClientRun)
    requires TransportHarmless(countIsKey, run)
    ensures var after := StateAt(countIsKey, st, run, 1);
      && after.Some?
      && Entered(countIsKey, run, after.value.stats) == Entered(countIsKey, run, st.stats)
      && (!Completed(run) ==> after.value.stats == st.stats)
      && (!Completed(run) && Feigned(run).Some? ==> after.value.current.Some?)
  {
    TransportStep(countIsKey, st, run);
  }

  lemma ReadCountable(countIsKey: bool, st: State, run: ClientRun)
    requires Countable(run) && !HasPassed(run.workload) && TransportHarmless(countIsKey, run) && run.printed >= 2
    ensures var end := StateAt(countIsKey, st, run, Lines(run));
      end.Some? && end.value.stats == Entered(countIsKey, run, st.stats)
  {
    HarmlessStep(countIsKey, st, run);
    WorkloadStep(countIsKey, st, run);
    Fills(countIsKey, st, run, Started(run).value, Lines(run));
    assert Filled(Started(run).value, run, 4) == FiguresOf(run);
  }

  lemma ReadCutShort(countIsKey: bool, st: State, run: ClientRun)
    requires !Completed(run) && HasHome(run) && run.printed >= 2
    requires !HasPassed(run.workload) && TransportHarmless(countIsKey, run)
    ensures var end := StateAt(countIsKey, st, run, Lines(run));
      end.Some? && end.value.stats == st.stats
  {
    HarmlessStep(countIsKey, st, run);
    WorkloadStep(countIsKey, st, run);
    var current := StateAt(countIsKey, st, run, 2).value.current;
    if current.Some? {
      Fills(countIsKey, st, run, current.value, Lines(run));
    } else {
      FillsNothing(countIsKey, st, run, Lines(run));
    }
  }

  /** One harmless run, complete or cut, never raises, and only a complete one adds an entry. */
  lemma ReadRun(countIsKey: bool, st: State, run: ClientRun)
    requires Prints(run) && Harmless(countIsKey, run)
    ensures var end := ReadLines(countIsKey, st, Output(run));
      end.Some? && end.value.stats == Entered(countIsKey, run, st.stats)
  {
    OutputIsStateAt(countIsKey, st, run);
    if run.printed > 0 { HarmlessStep(countIsKey, st, run); }
    if run.printed > 1 {
      if Countable(run) { ReadCountable(countIsKey, st, run); } else { ReadCutShort(countIsKey, st, run); }
    }
  }

  // ---------- Runs that are not ----------

  /** A header line that looks like the end of a run leaves nothing to fill, and the end of the run raises. */
  lemma CompleteRaises(countIsKey: bool, st: State, run: ClientRun)
    requires HasPassed(run.workload)
    ensures StateAt(countIsKey, st, run, 5).None?
  {
    if StateAt(countIsKey, st, run, 1).None? {
      Raised(countIsKey, st, run, 1, 5);
    } else {
      WorkloadStep(countIsKey, st, run);
      if StateAt(countIsKey, st, run, 2).None? {
        Raised(countIsKey, st, run, 2, 5);
      } else {
        FillsNothing(countIsKey, st, run, 5);
      }
    }
  }

  /** Unless it raises, the header line of such a workload makes an entry. */
  lemma EntryTooEarly(countIsKey: bool, st: State, run: ClientRun, n: nat)
    requires HasPassed(run.workload) && 2 <= n <= 5
    ensures var end := StateAt(countIsKey, st, run, n);
      && (end.Some? ==> end.value.stats != map[])
      && (end.Some? && Countable(run) ==> KeyOf(countIsKey, run) in end.value.stats)
      && (n >= 3 && Captured(run.tputAvg, run.tputDev).Some? ==> end == None)
  {
    if StateAt(countIsKey, st, run, 1).None? {
      Raised(countIsKey, st, run, 1, n);
    } else {
      WorkloadStep(countIsKey, st, run);
      if StateAt(countIsKey, st, run, 2).None? {
        Raised(countIsKey, st, run, 2, n);
      } else {
        var before := StateAt(countIsKey, st, run, 1).value;
        var current := if Started(run).Some? then Started(run) else before.current;
        assert Key(countIsKey, current.value) in StateAt(countIsKey, st, run, 2).value.stats;
        FillsNothing(countIsKey, st, run, n);
      }
    }
  }

  /**
   A workload whose name contains the words that end a run: the figures that follow have nothing to
   be put in, and before that an entry is made for a run that has not completed.
   */
  lemma MisleadingWorkload(countIsKey: bool, st: State, run: ClientRun)
    requires Prints(run) && HasPassed(run.workload) && run.printed >= 2
    ensures var end := ReadLines(countIsKey, st, Output(run));
      && (Captured(run.tputAvg, run.tputDev).Some? && run.printed >= 3 ==> end == None)
      && (Completed(run) ==> end == None)
      && (end.Some? ==> end.value.stats != map[])
      && (end.Some? && Countable(run) ==> KeyOf(countIsKey, run) in end.value.stats)
  {
    OutputIsStateAt(countIsKey, st, run);
    EntryTooEarly(countIsKey, st, run, Lines(run));
    if Completed(run) { CompleteRaises(countIsKey, st, run); }
  }

  /** A transport whose name misleads fails an empty parser. */
  lemma MisleadingTransport(countIsKey: bool, run: ClientRun)
    requires Prints(run) && run.printed >= 1 && !TransportHarmless(countIsKey, run)
    ensures var end := ReadLines(countIsKey, EMPTY, Output(run));
      end.None? || end.value.stats != Entered(countIsKey, run, EMPTY.stats)
  {
    OutputIsStateAt(countIsKey, EMPTY, run);
    TransportStep(countIsKey, EMPTY, run);
    var n := Lines(run);
    if StateAt(countIsKey, EMPTY, run, 1).None? {
      Raised(countIsKey, EMPTY, run, 1, n);
    } else {
      var feigned := Feigned(run).value;
      assert Key(countIsKey, feigned) in StateAt(countIsKey, EMPTY, run, 1).value.stats;
      if StateAt(countIsKey, EMPTY, run, n).Some? {
        KeysStayOver(countIsKey, EMPTY, run, 1, n);
        assert Key(countIsKey, feigned) !in Entered(countIsKey, run, EMPTY.stats);
      }
    }
  }

  /** The parser never makes figures with a negative number. */
  predicate NeverNegative(st: State) {
    && (st.current.Some? ==> st.current.value.count >= 0 && st.current.value.size >= 0)
    && forall key :: key in st.stats ==> st.stats[key].count >= 0 && st.stats[key].size >= 0
  }

  lemma {:induction false} ReactsNeverNegative(countIsKey: bool, st: State, es: seq<Event>)
    requires NeverNegative(st)
    ensures var end := ReactAll(countIsKey, st, es);
      end.Some? ==> NeverNegative(end.value)
    decreases |es|
  {
    if es != [] && React(countIsKey, st, es[0]).Some? {
      ReactsNeverNegative(countIsKey, React(countIsKey, st, es[0]).value, es[1..]);
    }
  }

  lemma {:induction false} StatesNeverNegative(countIsKey: bool, st: State, run: ClientRun, n: nat)
    requires NeverNegative(st) && n <= 5 && StateAt(countIsKey, st, run, n).Some?
    ensures NeverNegative(StateAt(countIsKey, st, run, n).value)
  {
    if n > 0 {
      StatesNeverNegative(countIsKey, st, run, n - 1);
      ReactsNeverNegative(countIsKey, StateAt(countIsKey, st, run, n - 1).value, LineEvents(run, n - 1));
    }
  }

  /** A negative number fails an empty parser: the run's own figures cannot be in what it returns. */
  lemma NegativeNumberFails(countIsKey: bool, run: ClientRun)
    requires Prints(run) && Completed(run) && !Countable(run)
    ensures var end := ReadLines(countIsKey, EMPTY, Output(run));
      end.None? || end.value.stats != Entered(countIsKey, run, EMPTY.stats)
  {
    OutputIsStateAt(countIsKey, EMPTY, run);
    if StateAt(countIsKey, EMPTY, run, 5).Some? {
      StatesNeverNegative(countIsKey, EMPTY, run, 5);
      assert Entered(countIsKey, run, EMPTY.stats)[KeyOf(countIsKey, run)] == FiguresOf(run);
    }
  }

  /** So do figures of a cut run that have nowhere to go. */
  lemma HomelessFiguresRaise(countIsKey: bool, run: ClientRun)
    requires Prints(run) && run.printed >= 2 && !HasHome(run)
    requires !HasPassed(run.transport) && !HasPassed(run.workload)
    ensures ReadLines(countIsKey, EMPTY, Output(run)) == None
  {
    OutputIsStateAt(countIsKey, EMPTY, run);
    TransportStep(countIsKey, EMPTY, run);
    WorkloadStep(countIsKey, EMPTY, run);
    FillsNothing(countIsKey, EMPTY, run, Lines(run));
  }

  /** Reading `out` never raises, and adds what `run` should add. */
  ghost predicate Adds(countIsKey: bool, out: seq<string>, run: ClientRun) {
    forall st: State ::
      var end := ReadLines(countIsKey, st, out);
      end.Some? && end.value.stats == Entered(countIsKey, run, st.stats)
  }

  /** What is not harmless fails already on an empty parser. */
  lemma HarmFails(countIsKey: bool, run: ClientRun)
    requires Prints(run) && !Harmless(countIsKey, run)
    ensures var end := ReadLines(countIsKey, EMPTY, Output(run));
      end.None? || end.value.stats != Entered(countIsKey, run, EMPTY.stats)
  {
    if !TransportHarmless(countIsKey, run) {
      MisleadingTransport(countIsKey, run);
    } else if HasPassed(run.workload) {
      MisleadingWorkload(countIsKey, EMPTY, run);
    } else if Completed(run) {
      NegativeNumberFails(countIsKey, run);
    } else {
      HomelessFiguresRaise(countIsKey, run);
    }
  }

  /** Exactly when one run's output, complete or cut, is read correctly. */
  lemma ReadsCorrectly(countIsKey: bool, run: ClientRun)
    requires Prints(run)
    ensures Adds(countIsKey, Output(run), run) <==> Harmless(countIsKey, run)
  {
    if Harmless(countIsKey, run) {
      forall st: State
        ensures ReadLines(countIsKey, st, Output(run)).Some?
        ensures ReadLines(countIsKey, st, Output(run)).value.stats == Entered(countIsKey, run, st.stats)
      {
        ReadRun(countIsKey, st, run);
      }
    } else {
      HarmFails(countIsKey, run);
    }
  }

  // ---------- Runs that go wrong ----------

  /**
   A completed run with a negative number after one that was cut behind its header: the figures of
   the one go into an entry of the other.
   */
  lemma NegativeRunMixes(countIsKey: bool, cut: ClientRun, run: ClientRun)
    requires Prints(cut) && Harmless(countIsKey, cut) && Countable(cut) && cut.printed == 2
    requires Prints(run) && Completed(run) && !Countable(run)
    requires !HasPassed(run.transport) && !HasPassed(run.workload) && Feigned(run).None? && Started(run).None?
    ensures ReadLines(countIsKey, EMPTY, Output(cut) + Output(run)) == Some(State(None,
      map[KeyOf(countIsKey, cut) := FiguresOf(run).(count := cut.count, size := cut.size)]))
  {
    OutputIsStateAt(countIsKey, EMPTY, cut);
    HarmlessStep(countIsKey, EMPTY, cut);
    WorkloadStep(countIsKey, EMPTY, cut);
    var st := StateAt(countIsKey, EMPTY, cut, 2).value;
    ReadAppend(countIsKey, EMPTY, Output(cut), Output(run));
    OutputIsStateAt(countIsKey, st, run);
    TransportStep(countIsKey, st, run);
    WorkloadStep(countIsKey, st, run);
    Fills(countIsKey, st, run, Started(cut).value, 5);
    assert Filled(Started(cut).value, run, 4) == FiguresOf(run).(count := cut.count, size := cut.size);
  }

  /** Runs as the script's own options can make them: 16 blocks of 4096 bytes, and none of -4096. */
  const CUT := ClientRun("grpc", 35, "write", 16, 4096, "1.5", "0.5", "2.5", "0.25", 2)
  const NEGATIVE := ClientRun("grpc", 35, "write", 0, -4096, "7.5", "0.5", "9.5", "0.25", 5)

  lemma PlainNames()
    ensures !HasPassed("grpc") && !HasPassed("write")
    ensures MatchHeader("grpc") == None && MatchHeader(" write ") == None
  {
    AvoidsPassed("grpc");
    AvoidsPassed("write");
    FindAvoids(HEADER, "grpc", 0);
    FindAvoids(HEADER, " write ", 0);
  }

  lemma NumbersAreDecimal(s: string, k: nat)
    requires k < |s| && s[k] == '.' && Digits(s[..k]) && Digits(s[k + 1..])
    ensures Decimal(s)
  {}

  lemma CutIsHarmless()
    ensures Prints(CUT) && Harmless(false, CUT) && Countable(CUT) && CUT.printed == 2
  {
    PlainNames();
  }

  lemma NegativeIsPlain()
    ensures Prints(NEGATIVE) && Completed(NEGATIVE) && !Countable(NEGATIVE)
    ensures !HasPassed(NEGATIVE.transport) && !HasPassed(NEGATIVE.workload)
    ensures Feigned(NEGATIVE).None? && Started(NEGATIVE).None?
  {
    PlainNames();
    assert " " + "write" + " " == " write ";
  }

  lemma NegativeFigures()
    ensures FiguresOf(NEGATIVE) == Figures(0, -4096, Some(("7.5", "0.5")), Some(("9.5", "0.25")))
  {
    NumbersAreDecimal("7.5", 1);
    NumbersAreDecimal("0.5", 1);
    NumbersAreDecimal("9.5", 1);
    NumbersAreDecimal("0.25", 1);
  }

  /** The entry for 4096 says that 16 blocks went at the rate of the other run. */
  lemma MixingHappens()
    ensures ReadLines(false, EMPTY, Output(CUT) + Output(NEGATIVE)) == Some(State(None,
      map[4096 := Figures(16, 4096, Some(("7.5", "0.5")), Some(("9.5", "0.25")))]))
  {
    CutIsHarmless();
    NegativeIsPlain();
    NegativeFigures();
    NegativeRunMixes(false, CUT, NEGATIVE);
  }

  /** By itself such a run makes the parser raise. */
  lemma NegativeRunRaises()
    ensures ReadLines(false, EMPTY, Output(NEGATIVE)) == None
  {
    NegativeIsPlain();
    HomelessFiguresRaise(false, NEGATIVE);
  }

  /** A name that misleads; the script offers no such name, the client takes it. */
  lemma MisleadingName(run: ClientRun)
    requires Prints(run) && Completed(run) && run.workload == "write Test passed"
    ensures ReadLines(true, EMPTY, Output(run)) == None && !Harmless(true, run)
  {
    assert run.workload[6..] == PASSED;
    assert HasPassed(run.workload);
    MisleadingWorkload(true, EMPTY, run);
  }

  // ---------- A log of many runs ----------

  /** Run `i` is the last completed one with this key. */
  predicate LastFor(countIsKey: bool, runs: seq<ClientRun>, key: int, i: nat) {
    && i < |runs| && Completed(runs[i]) && KeyOf(countIsKey, runs[i]) == key
    && forall j :: i < j < |runs| && Completed(runs[j]) ==> KeyOf(countIsKey, runs[j]) != key
  }

  /** An entry for exactly the keys with a completed run, each that of the last completed one. */
  ghost predicate Correct(countIsKey: bool, runs: seq<ClientRun>, stats: map<int, Figures>) {
    && (forall i :: 0 <= i < |runs| && Completed(runs[i]) ==> KeyOf(countIsKey, runs[i]) in stats)
    && (forall key :: key in stats ==>
          exists i: nat :: LastFor(countIsKey, runs, key, i) && stats[key] == FiguresOf(runs[i]))
  }

  lemma OneMoreRun(countIsKey: bool, runs: seq<ClientRun>, run: ClientRun, stats: map<int, Figures>)
    requires Correct(countIsKey, runs, stats)
    ensures Correct(countIsKey, runs + [run], Entered(countIsKey, run, stats))
  {
    var more := runs + [run];
    var last := KeyOf(countIsKey, run);
    var stats' := Entered(countIsKey, run, stats);
    forall key | key in stats'
      ensures exists i: nat :: LastFor(countIsKey, more, key, i) && stats'[key] == FiguresOf(more[i])
    {
      if Completed(run) && key == last {
        assert LastFor(countIsKey, more, key, |runs|);
      } else {
        var i: nat :| LastFor(countIsKey, runs, key, i) && stats[key] == FiguresOf(runs[i]);
        assert LastFor(countIsKey, more, key, i);
      }
    }
  }

  lemma ReadOneMore(countIsKey: bool, lines: seq<string>, runs: seq<ClientRun>, out: seq<string>, run: ClientRun)
    requires ReadLines(countIsKey, EMPTY, lines).Some?
    requires Correct(countIsKey, runs, ReadLines(countIsKey, EMPTY, lines).value.stats)
    requires Adds(countIsKey, out, run)
    ensures ReadLines(countIsKey, EMPTY, lines + out).Some?
    ensures Correct(countIsKey, runs + [run], ReadLines(countIsKey, EMPTY, lines + out).value.stats)
  {
    var st := ReadLines(countIsKey, EMPTY, lines).value;
    ReadAppend(countIsKey, EMPTY, lines, out);
    OneMoreRun(countIsKey, runs, run, st.stats);
  }

  lemma {:induction false} ReadJoined(countIsKey: bool, runs: seq<ClientRun>, outs: seq<seq<string>>)
    requires |outs| == |runs| && forall i :: 0 <= i < |runs| ==> Adds(countIsKey, outs[i], runs[i])
    ensures ReadLines(countIsKey, EMPTY, Joined(outs)).Some?
    ensures Correct(countIsKey, runs, ReadLines(countIsKey, EMPTY, Joined(outs)).value.stats)
    decreases |runs|
  {
    if runs != [] {
      var n := |runs| - 1;
      ReadJoined(countIsKey, runs[..n], outs[..n]);
      ReadOneMore(countIsKey, Joined(outs[..n]), runs[..n], outs[n], runs[n]);
      assert runs[..n] + [runs[n]] == runs;
    }
  }

  /** A log of such runs, with any lines between them in which no pattern finds anything. */
  predicate LogOf(countIsKey: bool, runs: seq<ClientRun>, log: seq<string>) {
    && (forall i :: 0 <= i < |runs| ==> Prints(runs[i]) && Harmless(countIsKey, runs[i]))
    && Telling(log) == Telling(Outputs(runs))
  }

  /**
   On any concatenation of harmless runs, each complete or cut after any line and mixed with any other
   output, parsing succeeds; it has an entry for exactly the keys with a completed run, and each
   entry is that of the last completed run, never a mixture of two.
   */
  lemma ParsesTheLastCompletedRuns(countIsKey: bool, runs: seq<ClientRun>, log: seq<string>)
    requires LogOf(countIsKey, runs, log)
    ensures ReadLines(countIsKey, EMPTY, log).Some?
    ensures Correct(countIsKey, runs, ReadLines(countIsKey, EMPTY, log).value.stats)
  {
    OnlyTellingLinesMatter(countIsKey, EMPTY, log);
    OnlyTellingLinesMatter(countIsKey, EMPTY, Outputs(runs));
    var outs := seq(|runs|, i requires 0 <= i < |runs| => Output(runs[i]));
    forall i | 0 <= i < |runs| ensures Adds(countIsKey, outs[i], runs[i]) { ReadsCorrectly(countIsKey, runs[i]); }
    ReadJoined(countIsKey, runs, outs);
    assert Outputs(runs) == Joined(outs);
  }

  lemma EntryOfLast(countIsKey: bool, runs: seq<ClientRun>, log: seq<string>, key: int, i: nat)
    requires LogOf(countIsKey, runs, log) && LastFor(countIsKey, runs, key, i)
    ensures ReadLines(countIsKey, EMPTY, log).Some?
    ensures var stats := ReadLines(countIsKey, EMPTY, log).value.stats;
      key in stats && stats[key] == FiguresOf(runs[i])
  {
    ParsesTheLastCompletedRuns(countIsKey, runs, log);
    var stats := ReadLines(countIsKey, EMPTY, log).value.stats;
    var j: nat :| LastFor(countIsKey, runs, key, j) && stats[key] == FiguresOf(runs[j]);
    assert i == j;
  }

  /**
   An entry holds the throughput as it was printed if and only if average and deviation were printed
   with a decimal point, and likewise the latency; otherwise it holds neither number.
   */
  lemma EntryIsComplete(countIsKey: bool, runs: seq<ClientRun>, log: seq<string>, key: int, i: nat)
    requires LogOf(countIsKey, runs, log) && LastFor(countIsKey, runs, key, i)
    ensures ReadLines(countIsKey, EMPTY, log).Some? && key in ReadLines(countIsKey, EMPTY, log).value.stats
    ensures var run, entry := runs[i], ReadLines(countIsKey, EMPTY, log).value.stats[key];
      && (entry.tput == Some((run.tputAvg, run.tputDev)) <==> Decimal(run.tputAvg) && Decimal(run.tputDev))
      && (entry.tput == None <==> !Decimal(run.tputAvg) || !Decimal(run.tputDev))
      && (entry.lat == Some((run.latAvg, run.latDev)) <==> Decimal(run.latAvg) && Decimal(run.latDev))
      && (entry.lat == None <==> !Decimal(run.latAvg) || !Decimal(run.latDev))
  {
    EntryOfLast(countIsKey, runs, log, key, i);
  }

  /** A deviation printed as 0, as that of a single operation is, leaves an entry without its averages. */
  lemma SingleOperationLosesFigures(countIsKey: bool, run: ClientRun)
    requires Prints(run) && Completed(run) && Harmless(countIsKey, run) && run.tputDev == "0" && run.latDev == "0"
    ensures var end := ReadLines(countIsKey, EMPTY, Output(run));
      && end.Some?
      && end.value.stats == map[KeyOf(countIsKey, run) := Figures(run.count, run.size, None, None)]
  {
    ReadRun(countIsKey, EMPTY, run);
    assert !Decimal("0");
  }

  // ---------- Keys and entries, field by field ----------

  /** A completed run of which no later completed one has the same count. */
  predicate LastWithCount(runs: seq<ClientRun>, i: nat) {
    && i < |runs| && runs[i].printed >= 5
    && forall j :: i < j < |runs| && runs[j].printed >= 5 ==> runs[j].count != runs[i].count
  }

  predicate LastWithSize(runs: seq<ClientRun>, i: nat) {
    && i < |runs| && runs[i].printed >= 5
    && forall j :: i < j < |runs| && runs[j].printed >= 5 ==> runs[j].size != runs[i].size
  }

  /** What was printed by a run, as far as the patterns take it. */
  predicate EntryOf(entry: Figures, run: ClientRun) {
    && entry.count == run.count && entry.size == run.size
    && entry.tput == (if Decimal(run.tputAvg) && Decimal(run.tputDev) then Some((run.tputAvg, run.tputDev)) else None)
    && entry.lat == (if Decimal(run.latAvg) && Decimal(run.latDev) then Some((run.latAvg, run.latDev)) else None)
  }

  /** With several counts, entries are by count: one for each count of a completed run, made by the last. */
  lemma KeyedByCount(runs: seq<ClientRun>, log: seq<string>)
    requires LogOf(true, runs, log)
    ensures ReadLines(true, EMPTY, log).Some?
    ensures var stats := ReadLines(true, EMPTY, log).value.stats;
      && (forall i :: 0 <= i < |runs| && runs[i].printed >= 5 ==> runs[i].count in stats)
      && (forall n :: n in stats ==> stats[n].count == n)
      && (forall n :: n in stats ==>
            exists i: nat :: LastWithCount(runs, i) && runs[i].count == n && EntryOf(stats[n], runs[i]))
  {
    ParsesTheLastCompletedRuns(true, runs, log);
    var stats := ReadLines(true, EMPTY, log).value.stats;
    forall i | 0 <= i < |runs| && runs[i].printed >= 5 ensures runs[i].count in stats {
      assert KeyOf(true, runs[i]) in stats;
    }
    forall n | n in stats
      ensures stats[n].count == n
      ensures exists i: nat :: LastWithCount(runs, i) && runs[i].count == n && EntryOf(stats[n], runs[i])
    {
      var i: nat :| LastFor(true, runs, n, i) && stats[n] == FiguresOf(runs[i]);
      forall j | i < j < |runs| && runs[j].printed >= 5 ensures runs[j].count != runs[i].count {
        assert KeyOf(true, runs[j]) != n;
      }
      assert LastWithCount(runs, i) && EntryOf(stats[n], runs[i]);
    }
  }

  /** Otherwise they are by size. */
  lemma KeyedBySize(runs: seq<ClientRun>, log: seq<string>)
    requires LogOf(false, runs, log)
    ensures ReadLines(false, EMPTY, log).Some?
    ensures var stats := ReadLines(false, EMPTY, log).value.stats;
      && (forall i :: 0 <= i < |runs| && runs[i].printed >= 5 ==> runs[i].size in stats)
      && (forall n :: n in stats ==> stats[n].size == n)
      && (forall n :: n in stats ==>
            exists i: nat :: LastWithSize(runs, i) && runs[i].size == n && EntryOf(stats[n], runs[i]))
  {
    ParsesTheLastCompletedRuns(false, runs, log);
    var stats := ReadLines(false, EMPTY, log).value.stats;
    forall i | 0 <= i < |runs| && runs[i].printed >= 5 ensures runs[i].size in stats {
      assert KeyOf(false, runs[i]) in stats;
    }
    forall n | n in stats
      ensures stats[n].size == n
      ensures exists i: nat :: LastWithSize(runs, i) && runs[i].size == n && EntryOf(stats[n], runs[i])
    {
      var i: nat :| LastFor(false, runs, n, i) && stats[n] == FiguresOf(runs[i]);
      forall j | i < j < |runs| && runs[j].printed >= 5 ensures runs[j].size != runs[i].size {
        assert KeyOf(false, runs[j]) != n;
      }
      assert LastWithSize(runs, i) && EntryOf(stats[n], runs[i]);
    }
  }

  /** Two runs that differ in their counts alone keep an entry each. */
  lemma TwoCountsTwoEntries(a: ClientRun, b: ClientRun, log: seq<string>)
    requires LogOf(true, [a, b], log) && a.printed >= 5 && b.printed >= 5 && a.count != b.count
    ensures ReadLines(true, EMPTY, log).Some?
    ensures var stats := ReadLines(true, EMPTY, log).value.stats;
      a.count in stats && b.count in stats && EntryOf(stats[a.count], a) && EntryOf(stats[b.count], b)
  {
    var runs := [a, b];
    KeyedByCount(runs, log);
    var stats := ReadLines(true, EMPTY, log).value.stats;
    assert runs[0].count in stats && runs[1].count in stats;
    var i: nat :| LastWithCount(runs, i) && runs[i].count == a.count && EntryOf(stats[a.count], runs[i]);
    var j: nat :| LastWithCount(runs, j) && runs[j].count == b.count && EntryOf(stats[b.count], runs[j]);
    assert i == 0 && j == 1;
  }

  /** Numbers are printed in decimal. */
  lemma ShowIsDecimal(n: nat, d: nat)
    requires d < 10
    ensures Show(d) == ["0123456789"[d]]
    ensures n > 0 ==> Show(10 * n + d) == Show(n) + ["0123456789"[d]]
  {
    assert (10 * n + d) / 10 == n && (10 * n + d) % 10 == d;
    assert "0123456789"[d] == (d + '0' as int) as char;
  }

  lemma ShowSign(n: nat, m: int)
    requires m + n == 0
    ensures ShowInt(n) == Show(n)
    ensures n > 0 ==> ShowInt(m) == "-" + Show(n)
  {}

  lemma Flat(a: string, b: string, c: string, d: string, e: string, f: string)
    ensures a + (b + (c + (d + (e + f)))) == a + b + c + d + e + f
  {}

  /** The texts of the client's lines, piece by piece. */
  lemma HeaderText(opCount: int, workload: Name, count: int, size: int)
    ensures HeaderLine(opCount, workload, count, size) ==
      "Sending " + ShowInt(opCount) + " " + workload + " op(s), each"
      + (" for " + ShowInt(count) + " blocks of size " + ShowInt(size) + " " + "bytes")
  {
    Flat(" for ", ShowInt(count), " blocks of size ", ShowInt(size), " ", "bytes");
  }

  lemma StatsText(title: string, avg: string, dev: string, n: nat)
    ensures StatsLine(title, avg, dev, n) == title + ":" + (" avg=" + avg + " dev=" + dev + " " + ("count=" + Show(n)))
  {
    Flat(" avg=", avg, " dev=", dev, " ", "count=" + Show(n));
  }

  /** A run prints these five lines in this order. */
  lemma PrintedOrder(run: ClientRun)
    requires Completed(run) && run.opCount >= 0
    ensures Output(run) ==
      [ "Transport=" + run.transport, HeaderLine(run.opCount, run.workload, run.count, run.size),
        StatsLine("Throughput (Mbps)", run.tputAvg, run.tputDev, run.opCount),
        StatsLine("Latency (ms)", run.latAvg, run.latDev, run.opCount), "Test passed" ]
  {}
}
