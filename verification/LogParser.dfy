/**
 The parser of the client's log: one pass over the lines of many runs, appended one after the
 other, some of them cut short.
 */
module LogParser {
  import opened Options
  import opened LogText

  /** The statistics are the texts that were printed. */
  datatype Figures = Figures(count: int, size: int, tput: Option<(string, string)>, lat: Option<(string, string)>)

  // ---------- The loop, line by line ----------

  /** The figures being collected, and those collected under each key. */
  datatype State = State(current: Option<Figures>, stats: map<int, Figures>)

  const EMPTY := State(None, map[])

  function Key(countIsKey: bool, f: Figures): int {
    if countIsKey then f.count else f.size
  }

  /** What one of the patterns found in a line. */
  datatype Event =
    | Header(count: nat, size: nat)
    | Throughput(avg: string, dev: string)
    | Latency(avg: string, dev: string)
    | Passed

  function HeaderEvents(line: string): seq<Event> {
    match MatchHeader(line) case None => [] case Some((count, size)) => [Header(NumberOf(count), NumberOf(size))]
  }

  function ThroughputEvents(line: string): seq<Event> {
    match MatchStats("Throughput", line) case None => [] case Some((avg, dev)) => [Throughput(avg, dev)]
  }

  function LatencyEvents(line: string): seq<Event> {
    match MatchStats("Latency", line) case None => [] case Some((avg, dev)) => [Latency(avg, dev)]
  }

  function PassedEvents(line: string): seq<Event> {
    if HasPassed(line) then [Passed] else []
  }

  /** All four patterns are tried on every line, in this order. */
  function Events(line: string): seq<Event> {
    HeaderEvents(line) + ThroughputEvents(line) + LatencyEvents(line) + PassedEvents(line)
  }

  /** `None` when Python raises, because there is nothing to put a figure in. */
  function React(countIsKey: bool, st: State, e: Event): Option<State> {
    match e
    case Header(count, size) => Some(st.(current := Some(Figures(count, size, None, None))))
    case Throughput(avg, dev) =>
      if st.current.None? then None
      else Some(st.(current := Some(st.current.value.(tput := Some((avg, dev))))))
    case Latency(avg, dev) =>
      if st.current.None? then None
      else Some(st.(current := Some(st.current.value.(lat := Some((avg, dev))))))
    case Passed =>
      if st.current.None? then None
      else Some(State(None, st.stats[Key(countIsKey, st.current.value) := st.current.value]))
  }

  function ReactAll(countIsKey: bool, st: State, es: seq<Event>): Option<State>
    decreases |es|
  {
    if es == [] then Some(st) else
    var next := React(countIsKey, st, es[0]);
    if next.None? then None else ReactAll(countIsKey, next.value, es[1..])
  }

  function ReadLines(countIsKey: bool, st: State, lines: seq<string>): Option<State>
    decreases |lines|
  {
    if lines == [] then Some(st) else
    var next := ReactAll(countIsKey, st, Events(lines[0]));
    if next.None? then None else ReadLines(countIsKey, next.value, lines[1..])
  }

  // ---------- Reading in parts ----------

  lemma ReactOne(countIsKey: bool, st: State, e: Event)
    ensures ReactAll(countIsKey, st, [e]) == React(countIsKey, st, e)
  {
    assert [e][1..] == [];
  }

  lemma {:induction false} ReactAppend(countIsKey: bool, st: State, es: seq<Event>, more: seq<Event>)
    ensures ReactAll(countIsKey, st, es + more) ==
      match ReactAll(countIsKey, st, es) case None => None case Some(st') => ReactAll(countIsKey, st', more)
    decreases |es|
  {
    if es == [] {
      assert es + more == more;
    } else {
      assert (es + more)[1..] == es[1..] + more;
      var next := React(countIsKey, st, es[0]);
      if next.Some? { ReactAppend(countIsKey, next.value, es[1..], more); }
    }
  }

  /** The lines of a log in which a pattern finds something. */
  function Telling(lines: seq<string>): seq<string> {
    if lines == [] then []
    else if Events(lines[0]) == [] then Telling(lines[1..])
    else [lines[0]] + Telling(lines[1..])
  }

  lemma {:induction false} ReadAppend(countIsKey: bool, st: State, lines: seq<string>, more: seq<string>)
    ensures ReadLines(countIsKey, st, lines + more) ==
      match ReadLines(countIsKey, st, lines) case None => None case Some(st') => ReadLines(countIsKey, st', more)
    decreases |lines|
  {
    if lines == [] {
      assert lines + more == more;
    } else {
      assert (lines + more)[1..] == lines[1..] + more;
      var next := ReactAll(countIsKey, st, Events(lines[0]));
      if next.Some? { ReadAppend(countIsKey, next.value, lines[1..], more); }
    }
  }

  lemma {:induction false} OnlyTellingLinesMatter(countIsKey: bool, st: State, lines: seq<string>)
    ensures ReadLines(countIsKey, st, lines) == ReadLines(countIsKey, st, Telling(lines))
    decreases |lines|
  {
    if lines != [] {
      var next := ReactAll(countIsKey, st, Events(lines[0]));
      if next.Some? { OnlyTellingLinesMatter(countIsKey, next.value, lines[1..]); }
      if Events(lines[0]) != [] { assert ([lines[0]] + Telling(lines[1..]))[1..] == Telling(lines[1..]); }
    }
  }

  /** Every entry is under its own count, or under its own size. */
  predicate UnderOwnKeys(countIsKey: bool, stats: map<int, Figures>) {
    forall key :: key in stats ==> key == if countIsKey then stats[key].count else stats[key].size
  }

  lemma {:induction false} ReactKeepsKeys(countIsKey: bool, st: State, es: seq<Event>)
    requires UnderOwnKeys(countIsKey, st.stats) && ReactAll(countIsKey, st, es).Some?
    ensures UnderOwnKeys(countIsKey, ReactAll(countIsKey, st, es).value.stats)
    decreases |es|
  {
    if es != [] {
      ReactKeepsKeys(countIsKey, React(countIsKey, st, es[0]).value, es[1..]);
    }
  }

  /** On any lines at all. */
  lemma {:induction false} EntriesAreUnderOwnKeys(countIsKey: bool, st: State, lines: seq<string>)
    requires UnderOwnKeys(countIsKey, st.stats) && ReadLines(countIsKey, st, lines).Some?
    ensures UnderOwnKeys(countIsKey, ReadLines(countIsKey, st, lines).value.stats)
    decreases |lines|
  {
    if lines != [] {
      ReactKeepsKeys(countIsKey, st, Events(lines[0]));
      EntriesAreUnderOwnKeys(countIsKey, ReactAll(countIsKey, st, Events(lines[0])).value, lines[1..]);
    }
  }

  // ---------- The parser's own code ----------

  /** The state after a pattern has been tried, if Python has not raised by then. */
  function After(countIsKey: bool, st: Option<State>, es: seq<Event>): Option<State> {
    match st case None => None case Some(st) => ReactAll(countIsKey, st, es)
  }

  /** A line is the four patterns one after the other. */
  lemma EventsInOrder(countIsKey: bool, st: State, line: string)
    ensures ReactAll(countIsKey, st, Events(line)) ==
      After(countIsKey,
        After(countIsKey,
          After(countIsKey, ReactAll(countIsKey, st, HeaderEvents(line)), ThroughputEvents(line)),
          LatencyEvents(line)),
        PassedEvents(line))
  {
    var a, b, c := HeaderEvents(line), ThroughputEvents(line), LatencyEvents(line);
    ReactAppend(countIsKey, st, a + b + c, PassedEvents(line));
    ReactAppend(countIsKey, st, a + b, c);
    ReactAppend(countIsKey, st, a, b);
  }

  class Stats {
    var count: nat
    var size: nat
    var tput: Option<(string, string)>
    var lat: Option<(string, string)>

    function Value(): Figures
      reads this
    {
      Figures(count, size, tput, lat)
    }

    constructor (count: nat, size: nat)
      ensures Value() == Figures(count, size, None, None)
    {
      this.count, this.size, tput, lat := count, size, None, None;
    }
  }

  /** The object being filled and the dictionary stand for the state of the pass. */
  ghost predicate Represents(s: Stats?, stats: map<int, Stats>, st: State)
    reads s, stats.Values
  {
    && st.current == (if s == null then None else Some(s.Value()))
    && stats.Keys == st.stats.Keys
    && forall key :: key in stats ==> stats[key] != s && stats[key].Value() == st.stats[key]
  }

  /** A line that starts a run gets an object of its own. */
  method TakeHeader(countIsKey: bool, line: string, s: Stats?, ghost stats: map<int, Stats>, ghost st: State)
      returns (s': Stats?)
    requires Represents(s, stats, st)
    ensures s' == s || fresh(s')
    ensures var next := ReactAll(countIsKey, st, HeaderEvents(line));
      next.Some? && Represents(s', stats, next.value)
  {
    s' := s;
    var m := MatchHeader(line);
    if m.Some? {
      ReactOne(countIsKey, st, Header(NumberOf(m.value.0), NumberOf(m.value.1)));
      s' := new Stats(NumberOf(m.value.0), NumberOf(m.value.1));
    }
  }

  /** The pass: one object is filled after the other and moves into the dictionary when its run has passed. */
  method ParseFile(countIsKey: bool, lines: seq<string>) returns (raised: bool, stats: map<int, Stats>)
    ensures raised == ReadLines(countIsKey, EMPTY, lines).None?
    ensures !raised ==>
      var expected := ReadLines(countIsKey, EMPTY, lines).value.stats;
      stats.Keys == expected.Keys && forall key :: key in stats ==> stats[key].Value() == expected[key]
    ensures !raised ==>
      forall key :: key in stats ==> key == if countIsKey then stats[key].count else stats[key].size
  {
    raised, stats := false, map[];
    var s: Stats? := null;
    ghost var st := EMPTY;
    for n := 0 to |lines|
      invariant ReadLines(countIsKey, EMPTY, lines) == ReadLines(countIsKey, st, lines[n..])
      invariant Represents(s, stats, st)
      invariant s != null ==> fresh(s)
      invariant forall key :: key in stats ==> fresh(stats[key])
    {
      assert lines[n..][0] == lines[n] && lines[n..][1..] == lines[n + 1..];
      ghost var next := ReactAll(countIsKey, st, Events(lines[n]));
      raised, s, stats := ParseLine(countIsKey, lines[n], s, stats, st);
      if raised {
        return;
      }
      st := next.value;
    }
    EntriesAreUnderOwnKeys(countIsKey, EMPTY, lines);
  }

  method TakeThroughput(countIsKey: bool, line: string, s: Stats?, ghost stats: map<int, Stats>, ghost st: State)
      returns (raised: bool)
    requires Represents(s, stats, st)
    modifies s
    ensures raised == ReactAll(countIsKey, st, ThroughputEvents(line)).None?
    ensures !raised ==> Represents(s, stats, ReactAll(countIsKey, st, ThroughputEvents(line)).value)
  {
    var m := MatchStats("Throughput", line);
    if m.Some? {
      ReactOne(countIsKey, st, Throughput(m.value.0, m.value.1));
      if s == null { return true; }
      s.tput := m;
    }
    return false;
  }

  method TakeLatency(countIsKey: bool, line: string, s: Stats?, ghost stats: map<int, Stats>, ghost st: State)
      returns (raised: bool)
    requires Represents(s, stats, st)
    modifies s
    ensures raised == ReactAll(countIsKey, st, LatencyEvents(line)).None?
    ensures !raised ==> Represents(s, stats, ReactAll(countIsKey, st, LatencyEvents(line)).value)
  {
    var m := MatchStats("Latency", line);
    if m.Some? {
      ReactOne(countIsKey, st, Latency(m.value.0, m.value.1));
      if s == null { return true; }
      s.lat := m;
    }
    return false;
  }

  method TakePassed(countIsKey: bool, line: string, s: Stats?, stats: map<int, Stats>, ghost st: State)
      returns (raised: bool, s': Stats?, stats': map<int, Stats>)
    requires Represents(s, stats, st)
    ensures raised == ReactAll(countIsKey, st, PassedEvents(line)).None?
    ensures !raised ==> Represents(s', stats', ReactAll(countIsKey, st, PassedEvents(line)).value)
    ensures s' == null || s' == s
    ensures forall key :: key in stats' ==> (key in stats && stats'[key] == stats[key]) || stats'[key] == s
  {
    raised, s', stats' := false, s, stats;
    if HasPassed(line) {
      ReactOne(countIsKey, st, Passed);
      if s == null { return true, s, stats; }
      stats' := stats[(if countIsKey then s.count else s.size) := s];
      s' := null;
    }
  }

  /** The body of the loop. */
  method ParseLine(countIsKey: bool, line: string, s: Stats?, stats: map<int, Stats>, ghost st: State)
      returns (raised: bool, s': Stats?, stats': map<int, Stats>)
    requires Represents(s, stats, st)
    modifies s
    ensures raised == ReactAll(countIsKey, st, Events(line)).None?
    ensures !raised ==> Represents(s', stats', ReactAll(countIsKey, st, Events(line)).value)
    ensures s' == null || s' == s || fresh(s')
    ensures forall key :: key in stats' ==>
      (key in stats && stats'[key] == stats[key]) || stats'[key] == s || fresh(stats'[key])
  {
    EventsInOrder(countIsKey, st, line);
    stats' := stats;
    s' := TakeHeader(countIsKey, line, s, stats, st);
    ghost var st1 := ReactAll(countIsKey, st, HeaderEvents(line)).value;
    raised := TakeThroughput(countIsKey, line, s', stats, st1);
    if raised { return; }
    ghost var st2 := ReactAll(countIsKey, st1, ThroughputEvents(line)).value;
    raised := TakeLatency(countIsKey, line, s', stats, st2);
    if raised { return; }
    ghost var st3 := ReactAll(countIsKey, st2, LatencyEvents(line)).value;
    raised, s', stats' := TakePassed(countIsKey, line, s', stats, st3);
  }
}
