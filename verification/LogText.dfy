/**
 The texts of the client's log: the lines its statements print, and the parser's four patterns
 as they match them, character by character. A line is given without its line end.
 */
module LogText {
  import opened Options

  /** A text without a line end, which stays on the line it is printed on. */
  type Name = s: string | '\n' !in s && '\r' !in s

  predicate Digit(c: char) {
    '0' <= c <= '9'
  }

  predicate Digits(s: string) {
    s != [] && forall i :: 0 <= i < |s| ==> Digit(s[i])
  }

  /** Digits, a decimal point, digits. */
  predicate Decimal(s: string) {
    exists k :: 0 <= k < |s| && s[k] == '.' && Digits(s[..k]) && Digits(s[k + 1..])
  }

  /** `s` is `a` and `b` around a decimal point, neither of them empty, with nothing in them but '0' to '9'. */
  predicate AroundPoint(s: string, a: string, b: string) {
    && s == a + "." + b && a != "" && b != ""
    && (forall i :: 0 <= i < |a| ==> '0' <= a[i] <= '9')
    && (forall i :: 0 <= i < |b| ==> '0' <= b[i] <= '9')
  }

  lemma AroundPointIsDecimal(s: string, a: string, b: string)
    requires AroundPoint(s, a, b)
    ensures Decimal(s)
  {
    var k := |a|;
    assert s[..k] == a && s[k + 1..] == b && s[k] == '.';
    assert Digits(s[..k]) && Digits(s[k + 1..]);
  }

  lemma DecimalIsExact(s: string)
    ensures Decimal(s) <==> exists a, b :: AroundPoint(s, a, b)
  {
    if Decimal(s) {
      var k :| 0 <= k < |s| && s[k] == '.' && Digits(s[..k]) && Digits(s[k + 1..]);
      assert AroundPoint(s, s[..k], s[k + 1..]);
    }
    if a, b :| AroundPoint(s, a, b) {
      AroundPointIsDecimal(s, a, b);
    }
  }

  /** How many digits `s` starts with. */
  function Lead(s: string): (n: nat)
    ensures n <= |s| && (forall i :: 0 <= i < n ==> Digit(s[i])) && (n < |s| ==> !Digit(s[n]))
  {
    if s == [] || !Digit(s[0]) then 0 else 1 + Lead(s[1..])
  }

  // ---------- Patterns ----------

  /** A literal text, `(\d+)` or `(\d+\.\d+)`. */
  datatype Piece = Text(text: string) | Whole | Point

  predicate Denotes(p: Piece, s: string) {
    match p
    case Text(text) => s == text
    case Whole => Digits(s)
    case Point => Decimal(s)
  }

  /** `s` starts with `parts`, one after the other, and each of them is one that its piece denotes. */
  predicate Accepts(pat: seq<Piece>, parts: seq<string>, s: string) {
    if pat == [] then parts == [] else
    && parts != [] && Denotes(pat[0], parts[0])
    && parts[0] <= s && Accepts(pat[1..], parts[1..], s[|parts[0]|..])
  }

  /** What one piece takes from the front of `s`, with numbers as long as possible. */
  function Take(p: Piece, s: string): (n: Option<nat>)
    ensures n.Some? ==> n.value <= |s| && Denotes(p, s[..n.value])
  {
    match p
    case Text(text) => if text <= s then Some(|text|) else None
    case Whole => if Lead(s) == 0 then None else Some(Lead(s))
    case Point =>
      var k := Lead(s);
      if k == 0 || k == |s| || s[k] != '.' || Lead(s[k + 1..]) == 0 then None
      else
        var n := k + 1 + Lead(s[k + 1..]);
        assert s[..n][..k] == s[..k] && s[..n][k + 1..] == s[k + 1..][..Lead(s[k + 1..])];
        Some(n)
  }

  function Front(pat: seq<Piece>, s: string): Option<seq<string>> {
    if pat == [] then Some([]) else
    match Take(pat[0], s)
    case None => None
    case Some(n) =>
      match Front(pat[1..], s[n..])
      case None => None
      case Some(parts) => Some([s[..n]] + parts)
  }

  /** Every number is followed by a text that starts neither with a digit nor with a point. */
  predicate Separated(pat: seq<Piece>) {
    pat == [] ||
    (&& Separated(pat[1..])
     && (!pat[0].Text? ==> |pat| > 1 && pat[1].Text? && pat[1].text != [] && !Digit(pat[1].text[0])))
  }

  lemma {:induction false} LeadIs(s: string, n: nat)
    requires n <= |s| && (forall i :: 0 <= i < n ==> Digit(s[i])) && (n < |s| ==> !Digit(s[n]))
    ensures Lead(s) == n
  {}

  lemma PointIs(s: string, k: nat, n: nat)
    requires 0 < k && k + 1 < n <= |s| && s[k] == '.'
    requires forall i :: 0 <= i < n && i != k ==> Digit(s[i])
    requires n < |s| ==> !Digit(s[n])
    ensures Take(Point, s) == Some(n)
  {
    LeadIs(s, k);
    LeadIs(s[k + 1..], n - k - 1);
  }

  /** Before a character that is no digit, a number can only end at one place. */
  lemma TakeIsExact(p: Piece, s: string, n: nat)
    requires n <= |s| && Denotes(p, s[..n]) && (!p.Text? ==> n < |s| && !Digit(s[n]))
    ensures Take(p, s) == Some(n)
  {
    var t := s[..n];
    match p
    case Text(_) =>
    case Whole =>
      assert forall i :: 0 <= i < n ==> s[i] == t[i];
      LeadIs(s, n);
    case Point =>
      var k :| 0 <= k < |t| && t[k] == '.' && Digits(t[..k]) && Digits(t[k + 1..]);
      forall i | 0 <= i < n && i != k ensures Digit(s[i]) {
        if i < k { assert s[i] == t[..k][i]; } else { assert s[i] == t[k + 1..][i - k - 1]; }
      }
      PointIs(s, k, n);
  }

  lemma AcceptsFirst(pat: seq<Piece>, parts: seq<string>, s: string)
    requires Separated(pat) && pat != [] && Accepts(pat, parts, s)
    ensures Take(pat[0], s) == Some(|parts[0]|)
  {
    var n := |parts[0]|;
    assert s[..n] == parts[0];
    if !pat[0].Text? {
      assert parts[1] == pat[1].text && parts[1] <= s[n..];
      assert s[n] == s[n..][0] == parts[1][0];
    }
    TakeIsExact(pat[0], s, n);
  }

  lemma {:induction false} FrontIsAccepted(pat: seq<Piece>, s: string)
    requires Front(pat, s).Some?
    ensures Accepts(pat, Front(pat, s).value, s)
    decreases |pat|
  {
    if pat != [] {
      var n := Take(pat[0], s).value;
      var rest := Front(pat[1..], s[n..]).value;
      FrontIsAccepted(pat[1..], s[n..]);
      assert ([s[..n]] + rest)[1..] == rest;
    }
  }

  lemma {:induction false} AcceptedIsFront(pat: seq<Piece>, parts: seq<string>, s: string)
    requires Separated(pat) && Accepts(pat, parts, s)
    ensures Front(pat, s) == Some(parts)
    decreases |pat|
  {
    if pat != [] {
      var n := |parts[0]|;
      AcceptsFirst(pat, parts, s);
      AcceptedIsFront(pat[1..], parts[1..], s[n..]);
      assert s[..n] == parts[0] && [parts[0]] + parts[1..] == parts;
    }
  }

  /** Greedy matching needs no backtracking: a separated pattern matches in one way at most, and `Front` finds it. */
  lemma FrontIsExact(pat: seq<Piece>, parts: seq<string>, s: string)
    requires Separated(pat)
    ensures Accepts(pat, parts, s) <==> Front(pat, s) == Some(parts)
  {
    if Accepts(pat, parts, s) { AcceptedIsFront(pat, parts, s); }
    if Front(pat, s).Some? { FrontIsAccepted(pat, s); }
  }

  ghost predicate NoMatch(pat: seq<Piece>, s: string) {
    forall parts :: !Accepts(pat, parts, s)
  }

  lemma NoFrontNoMatch(pat: seq<Piece>, s: string)
    requires Separated(pat) && Front(pat, s).None?
    ensures NoMatch(pat, s)
  {
    if parts :| Accepts(pat, parts, s) {
      AcceptedIsFront(pat, parts, s);
    }
  }

  type Finder = nat -> Option<seq<string>>

  /** The last place from `low` on, searched from `p` down, where something is found. */
  function Search(found: Finder, low: nat, p: nat): Option<seq<string>>
    requires low <= p
    decreases p
  {
    if found(p).Some? then found(p)
    else if p == low then None
    else Search(found, low, p - 1)
  }

  lemma {:induction false} SearchesNothing(found: Finder, low: nat, p: nat)
    requires low <= p && forall q: nat :: low <= q <= p ==> found(q) == None
    ensures Search(found, low, p) == None
    decreases p
  {
    if p > low { SearchesNothing(found, low, p - 1); }
  }

  lemma {:induction false} SearchSkips(found: Finder, low: nat, k: nat, p: nat)
    requires low <= k <= p && forall q: nat :: k < q <= p ==> found(q) == None
    ensures Search(found, low, p) == Search(found, low, k)
    decreases p
  {
    if p > k { SearchSkips(found, low, k, p - 1); }
  }

  lemma SearchesOnlyPlace(found: Finder, low: nat, p: nat, place: nat)
    requires low <= place <= p && forall q: nat :: place < q <= p ==> found(q) == None
    requires found(place).Some? || forall q: nat :: low <= q < place ==> found(q) == None
    ensures Search(found, low, p) == found(place)
  {
    SearchSkips(found, low, place, p);
    if found(place).None? { SearchesNothing(found, low, place); }
  }

  /** Two searches that find the same, one `h` places behind the other and with nothing before that. */
  lemma {:induction false} SearchSame(found: Finder, h: nat, other: Finder, p: nat)
    requires forall j: nat :: j <= p ==> found(h + j) == other(j)
    requires forall q: nat :: q < h ==> found(q) == None
    ensures Search(found, 0, h + p) == Search(other, 0, p)
    decreases p
  {
    assert found(h + p) == other(p);
    if other(p).None? {
      if p > 0 {
        SearchSame(found, h, other, p - 1);
      } else if h > 0 {
        SearchesNothing(found, 0, h - 1);
      }
    }
  }

  lemma SearchMiddle(found: Finder, h: nat, other: Finder, m: nat, n: nat)
    requires h + m <= n && forall q: nat :: h + m < q <= n ==> found(q) == None
    requires forall j: nat :: j <= m ==> found(h + j) == other(j)
    requires forall q: nat :: q < h ==> found(q) == None
    ensures Search(found, 0, n) == Search(other, 0, m)
  {
    SearchSkips(found, 0, h + m, n);
    SearchSame(found, h, other, m);
  }

  /** What a pattern finds at each place of a text. */
  function At(pat: seq<Piece>, s: string): Finder {
    (q: nat) => if q <= |s| then Front(pat, s[q..]) else None
  }

  predicate NoneAt(pat: seq<Piece>, s: string, q: nat) {
    At(pat, s)(q) == None
  }

  /** `.*` in front of a pattern: the last place from `low` on, searched from `p` down, where it matches. */
  function Find(pat: seq<Piece>, s: string, low: nat, p: nat): Option<seq<string>>
    requires low <= p <= |s|
  {
    Search(At(pat, s), low, p)
  }

  /** From `place` on, and from no later place up to `p`, the pattern matches. */
  ghost predicate LastMatch(pat: seq<Piece>, s: string, p: nat, place: nat, parts: seq<string>)
    requires place <= p <= |s|
  {
    && Accepts(pat, parts, s[place..])
    && forall q :: place < q <= p ==> NoMatch(pat, s[q..])
  }

  /** The only way to match at `p` is the one that `Front` finds. */
  lemma MatchesHere(pat: seq<Piece>, s: string, p: nat, place: nat, parts: seq<string>)
    requires Separated(pat) && place <= p <= |s| && Front(pat, s[p..]).Some?
    ensures LastMatch(pat, s, p, place, parts) <==> place == p && Front(pat, s[p..]) == Some(parts)
  {
    FrontIsExact(pat, parts, s[p..]);
    FrontIsExact(pat, Front(pat, s[p..]).value, s[p..]);
  }

  lemma MatchesBefore(pat: seq<Piece>, s: string, p: nat, place: nat, parts: seq<string>)
    requires Separated(pat) && place <= p <= |s| && Front(pat, s[p..]).None?
    ensures LastMatch(pat, s, p, place, parts) <==> place < p && LastMatch(pat, s, p - 1, place, parts)
  {
    NoFrontNoMatch(pat, s[p..]);
  }

  lemma {:induction false} FoundIsLast(pat: seq<Piece>, s: string, low: nat, p: nat, parts: seq<string>)
    requires Separated(pat) && low <= p <= |s| && Find(pat, s, low, p) == Some(parts)
    ensures exists place :: low <= place <= p && LastMatch(pat, s, p, place, parts)
    decreases p
  {
    if Front(pat, s[p..]).Some? {
      MatchesHere(pat, s, p, p, parts);
    } else {
      FoundIsLast(pat, s, low, p - 1, parts);
      var before := p - 1;
      var place :| low <= place <= before && LastMatch(pat, s, before, place, parts);
      MatchesBefore(pat, s, p, place, parts);
    }
  }

  lemma {:induction false} LastIsFound(pat: seq<Piece>, s: string, low: nat, p: nat, parts: seq<string>, place: nat)
    requires Separated(pat) && low <= place <= p <= |s| && LastMatch(pat, s, p, place, parts)
    ensures Find(pat, s, low, p) == Some(parts)
    decreases p
  {
    if Front(pat, s[p..]).Some? {
      MatchesHere(pat, s, p, place, parts);
    } else {
      MatchesBefore(pat, s, p, place, parts);
      LastIsFound(pat, s, low, p - 1, parts, place);
    }
  }

  /** The search meets the meaning of the pattern: `.*` takes as much as it can. */
  lemma FindIsGreedy(pat: seq<Piece>, s: string, low: nat, p: nat, parts: seq<string>)
    requires Separated(pat) && low <= p <= |s|
    ensures Find(pat, s, low, p) == Some(parts)
      <==> exists place :: low <= place <= p && LastMatch(pat, s, p, place, parts)
  {
    if Find(pat, s, low, p) == Some(parts) {
      FoundIsLast(pat, s, low, p, parts);
    }
    if place :| low <= place <= p && LastMatch(pat, s, p, place, parts) {
      LastIsFound(pat, s, low, p, parts, place);
    }
  }

  lemma TextThenSeparated(t: string, pat: seq<Piece>)
    requires Separated(pat)
    ensures Separated([Text(t)] + pat)
  {
    assert ([Text(t)] + pat)[1..] == pat;
  }

  lemma NumberThenSeparated(kind: Piece, t: string, pat: seq<Piece>)
    requires Separated(pat) && t != [] && !Digit(t[0])
    ensures Separated(NumberThen(kind, t, pat))
  {
    TextThenSeparated(t, pat);
    assert NumberThen(kind, t, pat)[1..] == [Text(t)] + pat;
  }

  lemma PatternsAreSeparated(t1: string, kind: Piece, t2: string, t3: string)
    requires t2 != [] && !Digit(t2[0]) && t3 != [] && !Digit(t3[0])
    ensures Separated(TwoNumbers(t1, kind, t2, t3))
  {
    NumberThenSeparated(kind, t3, []);
    NumberThenSeparated(kind, t2, NumberThen(kind, t3, []));
    TextThenSeparated(t1, NumberThen(kind, t2, NumberThen(kind, t3, [])));
  }

  /** The parser's two patterns with groups mean what they say. */
  lemma PatternsMean(line: string, low: nat, parts: seq<string>)
    requires low <= |line|
    ensures Find(HEADER, line, low, |line|) == Some(parts) <==>
      exists place :: low <= place <= |line| && LastMatch(HEADER, line, |line|, place, parts)
    ensures Find(STATS, line, low, |line|) == Some(parts) <==>
      exists place :: low <= place <= |line| && LastMatch(STATS, line, |line|, place, parts)
  {
    PatternsAreSeparated(" for ", Whole, " blocks of size ", " ");
    PatternsAreSeparated(" avg=", Point, " dev=", " ");
    FindIsGreedy(HEADER, line, low, |line|, parts);
    FindIsGreedy(STATS, line, low, |line|, parts);
  }

  function NumberThen(kind: Piece, t: string, pat: seq<Piece>): seq<Piece> {
    [kind] + ([Text(t)] + pat)
  }

  /** Both patterns have two numbers of the same kind between three texts. */
  function TwoNumbers(t1: string, kind: Piece, t2: string, t3: string): seq<Piece> {
    [Text(t1)] + NumberThen(kind, t2, NumberThen(kind, t3, []))
  }

  const HEADER := TwoNumbers(" for ", Whole, " blocks of size ", " ")
  const STATS := TwoNumbers(" avg=", Point, " dev=", " ")
  const PASSED := "Test passed"

  /** The two groups of a match. */
  function Groups(parts: Option<seq<string>>): Option<(string, string)> {
    if parts.Some? && |parts.value| == 5 then Some((parts.value[1], parts.value[3])) else None
  }

  /** The groups of the pattern for the client's first line. */
  function MatchHeader(line: string): Option<(string, string)> {
    Groups(Find(HEADER, line, 0, |line|))
  }

  /** The groups of a pattern for statistics, which is anchored at its name. */
  function MatchStats(name: string, line: string): Option<(string, string)> {
    if name <= line then Groups(Find(STATS, line, |name|, |line|)) else None
  }

  /** `search`: the text stands anywhere. */
  predicate HasPassed(line: string) {
    exists p :: 0 <= p <= |line| && PASSED <= line[p..]
  }

  // ---------- What the client prints ----------

  function Show(n: nat): (s: string)
    ensures Digits(s)
  {
    if n < 10 then [(n + '0' as int) as char] else Show(n / 10) + [(n % 10 + '0' as int) as char]
  }

  function ShowInt(n: int): (s: string)
    ensures s != [] && forall i :: 0 <= i < |s| ==> Digit(s[i]) || s[i] == '-'
    ensures if n < 0 then s[0] == '-' else Digits(s)
  {
    if n < 0 then "-" + Show(-n) else Show(n)
  }

  function NumberOf(s: string): nat {
    if s == [] || !Digit(s[|s| - 1]) then 0
    else 10 * NumberOf(s[..|s| - 1]) + (s[|s| - 1] as int - '0' as int)
  }

  lemma {:induction false} ShowRoundTrip(n: nat)
    ensures NumberOf(Show(n)) == n
  {
    if n >= 10 {
      ShowRoundTrip(n / 10);
      assert Show(n)[..|Show(n)| - 1] == Show(n / 10);
    } else {
      assert Show(n)[..0] == [];
    }
  }

  function HeaderTail(count: int, size: int): string {
    " for " + (ShowInt(count) + (" blocks of size " + (ShowInt(size) + (" " + "bytes"))))
  }

  function HeaderHead(opCount: int): string {
    "Sending " + ShowInt(opCount) + " "
  }

  function HeaderLine(opCount: int, workload: Name, count: int, size: int): string {
    HeaderHead(opCount) + workload + " op(s), each" + HeaderTail(count, size)
  }

  const TRANSPORT := "Transport="

  function TransportLine(transport: Name): string {
    TRANSPORT + transport
  }

  /** The characters that a double is printed with, as a number or as nan or inf. */
  predicate NumberText(s: string) {
    forall i :: 0 <= i < |s| ==> Digit(s[i]) || s[i] in ".e+-naif"
  }

  function StatsTail(avg: string, dev: string, n: nat): string {
    " avg=" + (avg + (" dev=" + (dev + (" " + ("count=" + Show(n))))))
  }

  function StatsLine(title: string, avg: string, dev: string, n: nat): string {
    title + ":" + StatsTail(avg, dev, n)
  }

  const TPUT := "Throughput (Mbps)"
  const LAT := "Latency (ms)"

  // ---------- Two characters in a row ----------

  /** Nowhere in `s` is `a` followed by `b`. */
  predicate Avoids(s: string, a: char, b: char) {
    forall q {:trigger s[q]} :: 0 <= q < |s| - 1 && s[q] == a ==> s[q + 1] != b
  }

  lemma AvoidsAppend(s: string, t: string, a: char, b: char)
    requires Avoids(s, a, b) && Avoids(t, a, b)
    requires s == [] || t == [] || s[|s| - 1] != a || t[0] != b
    ensures Avoids(s + t, a, b)
  {}

  /** Where the pattern's first two characters do not stand, it does not match. */
  lemma FrontNeeds(pat: seq<Piece>, s: string, q: nat)
    requires pat != [] && pat[0].Text? && |pat[0].text| >= 2 && q <= |s|
    requires Front(pat, s[q..]).Some?
    ensures q + 1 < |s| && s[q] == pat[0].text[0] && s[q + 1] == pat[0].text[1]
  {
    var text := pat[0].text;
    assert text <= s[q..];
    assert s[q..][0] == text[0] && s[q..][1] == text[1];
  }

  lemma FindAvoids(pat: seq<Piece>, s: string, low: nat)
    requires pat != [] && pat[0].Text? && |pat[0].text| >= 2 && low <= |s|
    requires Avoids(s, pat[0].text[0], pat[0].text[1])
    ensures Find(pat, s, low, |s|) == None
  {
    forall q: nat | low <= q <= |s| ensures At(pat, s)(q) == None {
      if Front(pat, s[q..]).Some? { FrontNeeds(pat, s, q); }
    }
    SearchesNothing(At(pat, s), low, |s|);
  }

  /** With a pattern's first two characters only at its front, `tail` is where the search ends. */
  lemma FindInTail(pat: seq<Piece>, head: string, tail: string, low: nat)
    requires pat != [] && pat[0].Text? && |pat[0].text| >= 2 && low <= |head| && tail != []
    requires Avoids(tail[1..], pat[0].text[0], pat[0].text[1])
    requires Front(pat, tail).Some? || Avoids(head + tail[..1], pat[0].text[0], pat[0].text[1])
    ensures Find(pat, head + tail, low, |head + tail|) == Front(pat, tail)
  {
    var s, a, b := head + tail, pat[0].text[0], pat[0].text[1];
    assert s[|head|..] == tail;
    forall q | |head| < q < |s| - 1 ensures s[q] != a || s[q + 1] != b {
      assert tail[1..][q - |head| - 1] == s[q] && tail[1..][q - |head|] == s[q + 1];
    }
    forall q: nat | |head| < q <= |s| ensures At(pat, s)(q) == None {
      if Front(pat, s[q..]).Some? { FrontNeeds(pat, s, q); }
    }
    if Front(pat, tail).None? {
      var t := head + tail[..1];
      forall q | 0 <= q < |head| ensures s[q] != a || s[q + 1] != b {
        assert t[q] == s[q] && t[q + 1] == s[q + 1];
      }
      forall q: nat | low <= q < |head| ensures At(pat, s)(q) == None {
        if Front(pat, s[q..]).Some? { FrontNeeds(pat, s, q); }
      }
    }
    SearchesOnlyPlace(At(pat, s), low, |s|, |head|);
  }

  // ---------- The patterns on what the client prints ----------

  /** A piece takes the text that it denotes, when what follows a number does not continue it. */
  lemma FrontStep(p: Piece, pat: seq<Piece>, part: string, rest: string, parts: seq<string>)
    requires Denotes(p, part) && (!p.Text? ==> rest != [] && !Digit(rest[0]))
    requires Front(pat, rest) == Some(parts)
    ensures Front([p] + pat, part + rest) == Some([part] + parts)
  {
    var s := part + rest;
    assert s[..|part|] == part && s[|part|..] == rest && ([p] + pat)[1..] == pat;
    TakeIsExact(p, s, |part|);
  }

  lemma NumberThenFront(kind: Piece, t: string, pat: seq<Piece>, x: string, rest: string, parts: seq<string>)
    requires !kind.Text? && Denotes(kind, x) && t != [] && !Digit(t[0])
    requires Front(pat, rest) == Some(parts)
    ensures Front(NumberThen(kind, t, pat), x + (t + rest)) == Some([x] + ([t] + parts))
  {
    FrontStep(Text(t), pat, t, rest, parts);
    FrontStep(kind, [Text(t)] + pat, x, t + rest, [t] + parts);
  }

  lemma GroupsOfFive(t1: string, a: string, t2: string, b: string, t3: string)
    ensures Groups(Some([t1] + ([a] + ([t2] + ([b] + ([t3] + [])))))) == Some((a, b))
  {}

  lemma TwoNumbersFront(t1: string, kind: Piece, t2: string, t3: string, a: string, b: string, rest: string)
    requires !kind.Text? && Denotes(kind, a) && Denotes(kind, b)
    requires t2 != [] && !Digit(t2[0]) && t3 != [] && !Digit(t3[0])
    ensures Front(TwoNumbers(t1, kind, t2, t3), t1 + (a + (t2 + (b + (t3 + rest))))).Some?
    ensures Groups(Front(TwoNumbers(t1, kind, t2, t3), t1 + (a + (t2 + (b + (t3 + rest)))))) == Some((a, b))
  {
    var second, third := NumberThen(kind, t2, NumberThen(kind, t3, [])), NumberThen(kind, t3, []);
    var s3 := b + (t3 + rest);
    var s2 := a + (t2 + s3);
    NumberThenFront(kind, t3, [], b, rest, []);
    NumberThenFront(kind, t2, third, a, s3, [b] + ([t3] + []));
    FrontStep(Text(t1), second, t1, s2, [a] + ([t2] + ([b] + ([t3] + []))));
    GroupsOfFive(t1, a, t2, b, t3);
  }

  lemma HeaderTailFront(count: nat, size: nat)
    ensures Front(HEADER, HeaderTail(count, size)).Some?
    ensures Groups(Front(HEADER, HeaderTail(count, size))) == Some((Show(count), Show(size)))
  {
    TwoNumbersFront(" for ", Whole, " blocks of size ", " ", Show(count), Show(size), "bytes");
  }

  lemma MinusIsNoNumber(t: string, pat: seq<Piece>, x: string, rest: string)
    requires x != [] && x[0] == '-'
    ensures Front(NumberThen(Whole, t, pat), x + rest).None?
  {
    LeadIs(x + rest, 0);
  }

  lemma WholeThenBack(t: string, pat: seq<Piece>, x: string, rest: string)
    requires Digits(x) && t != [] && !Digit(t[0])
    requires Front(NumberThen(Whole, t, pat), x + (t + rest)).Some?
    ensures Front(pat, rest).Some?
  {
    var s := x + (t + rest);
    assert s[..|x|] == x && s[|x|..] == t + rest;
    TakeIsExact(Whole, s, |x|);
    assert NumberThen(Whole, t, pat)[1..] == [Text(t)] + pat;
    TextBack(t, pat, rest);
  }

  /** A negative number is none to the pattern. */
  lemma NegativeTailFront(count: int, size: int)
    requires count < 0 || size < 0
    ensures Front(HEADER, HeaderTail(count, size)).None?
  {
    var third := NumberThen(Whole, " ", []);
    var last := ShowInt(size) + (" " + "bytes");
    if Front(HEADER, HeaderTail(count, size)).Some? {
      TextBack(" for ", NumberThen(Whole, " blocks of size ", third), ShowInt(count) + (" blocks of size " + last));
      if count < 0 {
        MinusIsNoNumber(" blocks of size ", third, ShowInt(count), " blocks of size " + last);
      } else {
        WholeThenBack(" blocks of size ", third, ShowInt(count), last);
        MinusIsNoNumber(" ", [], ShowInt(size), " " + "bytes");
      }
    }
  }

  lemma NumberAvoids(n: int, rest: string)
    requires Avoids(rest, ' ', 'f')
    ensures Avoids(ShowInt(n) + rest, ' ', 'f') && (ShowInt(n) + rest)[0] != 'f'
  {
    AvoidsAppend(ShowInt(n), rest, ' ', 'f');
  }

  lemma BlocksAvoid(rest: string)
    requires Avoids(rest, ' ', 'f') && rest != [] && rest[0] != 'f'
    ensures Avoids(" blocks of size " + rest, ' ', 'f')
  {
    AvoidsAppend(" blocks of size ", rest, ' ', 'f');
  }

  lemma ForAvoids(rest: string)
    requires Avoids(rest, ' ', 'f') && rest != [] && rest[0] != 'f'
    ensures Avoids((" for " + rest)[1..], ' ', 'f')
  {
    AvoidsAppend("for ", rest, ' ', 'f');
    assert (" for " + rest)[1..] == "for " + rest;
  }

  lemma HeaderTailAvoids(count: int, size: int)
    ensures Avoids(HeaderTail(count, size)[1..], ' ', 'f')
  {
    var s1 := " " + "bytes";
    var s2 := ShowInt(size) + s1;
    var s3 := " blocks of size " + s2;
    var s4 := ShowInt(count) + s3;
    AvoidsAppend(" ", "bytes", ' ', 'f');
    NumberAvoids(size, s1);
    BlocksAvoid(s2);
    NumberAvoids(count, s3);
    ForAvoids(s4);
  }

  lemma MatchHeaderIn(head: string, tail: string)
    requires tail != [] && Front(HEADER, tail).Some? && Avoids(tail[1..], ' ', 'f')
    ensures MatchHeader(head + tail) == Groups(Front(HEADER, tail))
  {
    FindInTail(HEADER, head, tail, 0);
  }

  lemma MatchStatsIn(name: string, head: string, tail: string)
    requires name <= head && tail != [] && Avoids(tail[1..], ' ', 'a') && Avoids(head + tail[..1], ' ', 'a')
    ensures MatchStats(name, head + tail) == Groups(Front(STATS, tail))
  {
    FindInTail(STATS, head, tail, |name|);
    assert name <= head + tail;
  }

  lemma TextBack(t: string, pat: seq<Piece>, rest: string)
    requires Front([Text(t)] + pat, t + rest).Some?
    ensures Front(pat, rest).Some?
  {
    assert ([Text(t)] + pat)[1..] == pat && (t + rest)[|t|..] == rest;
  }

  /** A number that a pattern finds before a space is all that was printed before the space. */
  lemma PointThenBack(t: string, pat: seq<Piece>, x: string, rest: string)
    requires NumberText(x) && t != [] && t[0] == ' ' && rest != [] && rest[0] == ' '
    requires Front(NumberThen(Point, t, pat), x + rest).Some?
    ensures Decimal(x) && t <= rest && Front(pat, rest[|t|..]).Some?
  {
    var whole, s := NumberThen(Point, t, pat), x + rest;
    assert whole[1..] == [Text(t)] + pat && ([Text(t)] + pat)[1..] == pat;
    var n := Take(Point, s).value;
    assert Decimal(s[..n]) && t <= s[n..];
    assert s[n] == s[n..][0] == ' ';
    NoSpaces(s[..n]);
    FirstSpace(x, rest, n);
    assert s[..n] == x && s[n..] == rest;
  }

  lemma FirstSpace(x: string, rest: string, n: nat)
    requires NumberText(x) && rest != [] && rest[0] == ' '
    requires n < |x + rest| && (x + rest)[n] == ' ' && ' ' !in (x + rest)[..n]
    ensures n == |x|
  {
    var s := x + rest;
    assert s[|x|] == rest[0];
    forall i | 0 <= i < |x| ensures s[i] != ' ' { assert s[i] == x[i]; }
    forall i | 0 <= i < n ensures s[i] != ' ' { assert s[i] == s[..n][i]; }
  }

  lemma NoSpaces(s: string)
    requires Decimal(s)
    ensures ' ' !in s
  {
    var k :| 0 <= k < |s| && s[k] == '.' && Digits(s[..k]) && Digits(s[k + 1..]);
    forall i | 0 <= i < |s| ensures s[i] != ' ' {
      if i < k { assert Digit(s[..k][i]); } else if i > k { assert Digit(s[k + 1..][i - k - 1]); }
    }
  }

  /** What the groups of a statistics pattern can capture. */
  function Captured(avg: string, dev: string): Option<(string, string)> {
    if Decimal(avg) && Decimal(dev) then Some((avg, dev)) else None
  }

  lemma StatsTailMatches(avg: string, dev: string, n: nat)
    requires Decimal(avg) && Decimal(dev)
    ensures Groups(Front(STATS, StatsTail(avg, dev, n))) == Some((avg, dev))
  {
    TwoNumbersFront(" avg=", Point, " dev=", " ", avg, dev, "count=" + Show(n));
  }

  lemma StatsTailBack(avg: string, dev: string, n: nat)
    requires NumberText(avg) && NumberText(dev) && Front(STATS, StatsTail(avg, dev, n)).Some?
    ensures Decimal(avg) && Decimal(dev)
  {
    var s1 := "count=" + Show(n);
    var s3 := dev + (" " + s1);
    var third := NumberThen(Point, " ", []);
    TextBack(" avg=", NumberThen(Point, " dev=", third), avg + (" dev=" + s3));
    PointThenBack(" dev=", third, avg, " dev=" + s3);
    assert (" dev=" + s3)[5..] == s3;
    PointThenBack(" ", [], dev, " " + s1);
  }

  lemma StatsTailFront(avg: string, dev: string, n: nat)
    requires NumberText(avg) && NumberText(dev)
    ensures Groups(Front(STATS, StatsTail(avg, dev, n))) == Captured(avg, dev)
  {
    if Front(STATS, StatsTail(avg, dev, n)).Some? { StatsTailBack(avg, dev, n); }
    if Decimal(avg) && Decimal(dev) { StatsTailMatches(avg, dev, n); }
  }

  /** The pairs of characters that the patterns look for and the statistics do not have. */
  predicate Absent(a: char, b: char) {
    (a == ' ' && (b == 'f' || b == 'a')) || (a == 'T' && b == 'e')
  }

  lemma StatsTailAvoids(avg: string, dev: string, n: nat, a: char, b: char)
    requires NumberText(avg) && NumberText(dev) && Absent(a, b)
    ensures Avoids(StatsTail(avg, dev, n)[1..], a, b)
  {
    var s1 := "count=" + Show(n);
    var s2 := " " + s1;
    var s3 := dev + s2;
    var s4 := " dev=" + s3;
    var s5 := avg + s4;
    AvoidsAppend("count=", Show(n), a, b);
    AvoidsAppend(" ", s1, a, b);
    AvoidsAppend(dev, s2, a, b);
    AvoidsAppend(" dev=", s3, a, b);
    AvoidsAppend(avg, s4, a, b);
    AvoidsAppend("avg=", s5, a, b);
    assert StatsTail(avg, dev, n)[1..] == "avg=" + s5;
  }

  predicate Title(title: string) {
    title == TPUT || title == LAT
  }

  lemma StatsLineAvoids(title: string, avg: string, dev: string, n: nat, a: char, b: char)
    requires Title(title) && NumberText(avg) && NumberText(dev) && Absent(a, b) && b != 'a'
    ensures Avoids(StatsLine(title, avg, dev, n), a, b)
  {
    var tail := StatsTail(avg, dev, n);
    StatsTailAvoids(avg, dev, n, a, b);
    AvoidsAppend(" ", tail[1..], a, b);
    assert " " + tail[1..] == tail;
    AvoidsAppend(title + ":", tail, a, b);
  }

  lemma StatsAreFound(title: string, name: string, avg: string, dev: string, n: nat)
    requires name <= title && Avoids(title + ": ", ' ', 'a') && NumberText(avg) && NumberText(dev)
    ensures MatchStats(name, StatsLine(title, avg, dev, n)) == Captured(avg, dev)
  {
    var tail := StatsTail(avg, dev, n);
    StatsTailFront(avg, dev, n);
    StatsTailAvoids(avg, dev, n, ' ', 'a');
    assert title + ":" + tail[..1] == title + ": ";
    MatchStatsIn(name, title + ":", tail);
  }

  /** A line of statistics gives its two numbers to its own pattern if both have a decimal point, and nothing else. */
  lemma StatsLineMatches(avg: string, dev: string, n: nat)
    requires NumberText(avg) && NumberText(dev)
    ensures MatchStats("Throughput", StatsLine(TPUT, avg, dev, n)) == Captured(avg, dev)
    ensures MatchStats("Latency", StatsLine(LAT, avg, dev, n)) == Captured(avg, dev)
  {
    assert TPUT + ": " == "Throughput (Mbps): ";
    assert TPUT == "Throughput" + " (Mbps)";
    StatsAreFound(TPUT, "Throughput", avg, dev, n);
    assert LAT + ": " == "Latency (ms): ";
    assert LAT == "Latency" + " (ms)";
    StatsAreFound(LAT, "Latency", avg, dev, n);
  }

  lemma StatsLineMatchesNothingElse(title: string, avg: string, dev: string, n: nat)
    requires Title(title) && NumberText(avg) && NumberText(dev)
    ensures MatchHeader(StatsLine(title, avg, dev, n)) == None && !HasPassed(StatsLine(title, avg, dev, n))
    ensures MatchStats(if title == TPUT then "Latency" else "Throughput", StatsLine(title, avg, dev, n)) == None
  {
    var line := StatsLine(title, avg, dev, n);
    StatsLineAvoids(title, avg, dev, n, ' ', 'f');
    FindAvoids(HEADER, line, 0);
    StatsLineAvoids(title, avg, dev, n, 'T', 'e');
    AvoidsPassed(line);
    assert line[0] == title[0];
  }

  lemma PassedAt(line: string, p: nat)
    requires p <= |line| && PASSED <= line[p..]
    ensures p + 11 <= |line| && line[p..p + 11] == PASSED
    ensures line[p] == 'T' && line[p + 1] == 'e' && line[p + 5] == 'p'
    ensures forall i :: p <= i < p + 11 && line[i] == ' ' ==> i == p + 4
  {
    var at := line[p..p + 11];
    assert at == line[p..][..11] == PASSED;
    assert line[p] == at[0] && line[p + 1] == at[1] && line[p + 5] == at[5];
    forall i | p <= i < p + 11 && line[i] == ' ' ensures i == p + 4 { assert at[i - p] == ' '; }
  }

  lemma AvoidsPassed(line: string)
    requires Avoids(line, 'T', 'e')
    ensures !HasPassed(line)
  {
    if HasPassed(line) {
      var p :| 0 <= p <= |line| && PASSED <= line[p..];
      PassedAt(line, p);
      assert false;
    }
  }

  lemma PassedLineMatches()
    ensures HasPassed(PASSED) && MatchHeader(PASSED) == None
    ensures MatchStats("Throughput", PASSED) == None && MatchStats("Latency", PASSED) == None
  {
    assert PASSED <= PASSED[0..];
    FindAvoids(HEADER, PASSED, 0);
    assert PASSED[1] == 'e';
  }

  lemma HeaderLineIsNoStats(opCount: int, workload: Name, count: int, size: int)
    ensures MatchStats("Throughput", HeaderLine(opCount, workload, count, size)) == None
    ensures MatchStats("Latency", HeaderLine(opCount, workload, count, size)) == None
  {
    assert HeaderLine(opCount, workload, count, size)[0] == 'S';
  }

  lemma PassedInside(head: string, mid: string, tail: string)
    requires HasPassed(mid)
    ensures HasPassed(head + mid + tail)
  {
    var line := head + mid + tail;
    var p :| 0 <= p <= |mid| && PASSED <= mid[p..];
    assert line[|head| + p..] == mid[p..] + tail;
  }

  lemma PassedWithin(line: string, m: nat, k: nat, p: nat)
    requires m <= k && k + 1 < |line| && line[k] == ' ' && line[k + 1] == 'o'
    requires forall i :: 0 <= i < |line| && line[i] == 'T' ==> m <= i < k
    requires p <= |line| && PASSED <= line[p..]
    ensures m <= p && p + 11 <= k
  {
    PassedAt(line, p);
  }

  lemma PassedSlice(line: string, m: nat, k: nat, p: nat)
    requires m <= p && p + 11 <= k <= |line| && line[p..p + 11] == PASSED
    ensures HasPassed(line[m..k])
  {
    assert line[m..k][p - m..][..11] == line[p..p + 11];
  }

  lemma PassedOnlyInside(head: string, mid: string, tail: string)
    requires 'T' !in head && 'T' !in tail && |tail| >= 2 && tail[0] == ' ' && tail[1] == 'o'
    requires HasPassed(head + mid + tail)
    ensures HasPassed(mid)
  {
    var line := head + mid + tail;
    var m, k := |head|, |head| + |mid|;
    assert line[k] == tail[0] && line[k + 1] == tail[1];
    forall i | 0 <= i < m ensures line[i] != 'T' { assert line[i] == head[i]; }
    forall i | k <= i < |line| ensures line[i] != 'T' { assert line[i] == tail[i - k]; }
    var p :| 0 <= p <= |line| && PASSED <= line[p..];
    PassedWithin(line, m, k, p);
    PassedAt(line, p);
    PassedSlice(line, m, k, p);
    assert line[m..k] == mid;
  }

  /** The header line looks like the end of a run exactly when the name of the workload does. */
  lemma HeaderLinePasses(opCount: int, workload: Name, count: int, size: int)
    ensures HasPassed(HeaderLine(opCount, workload, count, size)) <==> HasPassed(workload)
  {
    var head, tail := HeaderHead(opCount), " op(s), each" + HeaderTail(count, size);
    NoBigT(opCount, count, size);
    assert HeaderLine(opCount, workload, count, size) == head + workload + tail;
    if HasPassed(workload) { PassedInside(head, workload, tail); }
    if HasPassed(head + workload + tail) { PassedOnlyInside(head, workload, tail); }
  }

  lemma NoBigTInSum(s: string, t: string)
    requires 'T' !in s && 'T' !in t
    ensures 'T' !in s + t
  {}

  lemma NoBigT(opCount: int, count: int, size: int)
    ensures 'T' !in HeaderHead(opCount) && 'T' !in " op(s), each" + HeaderTail(count, size)
  {
    NoBigTInSum("Sending ", ShowInt(opCount));
    NoBigTInSum("Sending " + ShowInt(opCount), " ");
    var s1 := " " + "bytes";
    NoBigTInSum(ShowInt(size), s1);
    NoBigTInSum(" blocks of size ", ShowInt(size) + s1);
    NoBigTInSum(ShowInt(count), " blocks of size " + (ShowInt(size) + s1));
    NoBigTInSum(" for ", ShowInt(count) + (" blocks of size " + (ShowInt(size) + s1)));
    NoBigTInSum(" op(s), each", HeaderTail(count, size));
  }

  lemma SuffixOfSuffix(line: string, h: nat, j: nat)
    requires h + j <= |line|
    ensures line[h + j..] == line[h..][j..]
  {}

  lemma AtSuffix(pat: seq<Piece>, s: string, q: nat)
    requires q <= |s|
    ensures At(pat, s)(q) == Front(pat, s[q..])
  {}

  lemma SameBehindAt(pat: seq<Piece>, line: string, h: nat, j: nat)
    requires h + j <= |line|
    ensures At(pat, line)(h + j) == At(pat, line[h..])(j)
  {
    AtSuffix(pat, line, h + j);
    AtSuffix(pat, line[h..], j);
    SuffixOfSuffix(line, h, j);
  }

  lemma SameBehind(pat: seq<Piece>, line: string, h: nat, s: string)
    requires h <= |line| && line[h..] == s
    ensures forall j: nat :: j <= |s| ==> At(pat, line)(h + j) == At(pat, s)(j)
  {
    forall j: nat | j <= |s| ensures At(pat, line)(h + j) == At(pat, s)(j) { SameBehindAt(pat, line, h, j); }
  }

  /** A text in front in which a pattern does not match changes nothing. */
  lemma FindSame(pat: seq<Piece>, line: string, h: nat, s: string)
    requires h <= |line| && line[h..] == s
    requires forall q: nat :: q < h ==> At(pat, line)(q) == None
    ensures Find(pat, line, 0, |line|) == Find(pat, s, 0, |s|)
  {
    SameBehind(pat, line, h, s);
    SearchSame(At(pat, line), h, At(pat, s), |s|);
  }

  // ---------- The header line ----------

  /** The text starts and ends with a space and nowhere goes on like " op". */
  predicate NoOp(t: string) {
    && t != [] && t[0] == ' ' && t[|t| - 1] == ' '
    && forall q {:trigger t[q]} :: 0 <= q < |t| - 2 && t[q] == ' ' && t[q + 1] == 'o' ==> t[q + 2] != 'p'
  }

  predicate EndsAtOp(p: Piece) {
    p.Whole? || (p.Text? && NoOp(p.text))
  }

  /** Before "op" nothing that such a piece takes goes past a space. */
  lemma TakeBeforeOp(p: Piece, s: string, tail: string)
    requires EndsAtOp(p) && (s == [] || s[|s| - 1] == ' ')
    requires |tail| >= 2 && tail[0] == 'o' && tail[1] == 'p'
    ensures Take(p, s + tail) == Take(p, s)
  {
    var u := s + tail;
    if p.Whole? {
      LeadIs(u, Lead(s));
      assert u[..Lead(s)] == s[..Lead(s)];
    } else {
      var t := p.text;
      if |t| <= |s| {
        assert u[..|t|] == s[..|t|];
      } else {
        assert u[|s|] == 'o' && u[|s| + 1] == 'p' && (s != [] ==> u[|s| - 1] == ' ');
      }
    }
  }

  lemma {:induction false} FrontBeforeOp(pat: seq<Piece>, s: string, tail: string)
    requires (forall i :: 0 <= i < |pat| ==> EndsAtOp(pat[i])) && (s == [] || s[|s| - 1] == ' ')
    requires |tail| >= 2 && tail[0] == 'o' && tail[1] == 'p'
    ensures Front(pat, s + tail) == Front(pat, s)
    decreases |pat|
  {
    if pat != [] {
      TakeBeforeOp(pat[0], s, tail);
      if Take(pat[0], s).Some? {
        var n := Take(pat[0], s).value;
        assert (s + tail)[n..] == s[n..] + tail && (s + tail)[..n] == s[..n];
        FrontBeforeOp(pat[1..], s[n..], tail);
      }
    }
  }

  lemma HeaderEndsAtOp()
    ensures forall i :: 0 <= i < |HEADER| ==> EndsAtOp(HEADER[i])
  {
    assert NoOp(" for ") && NoOp(" blocks of size ") && NoOp(" ");
    assert HEADER == [Text(" for "), Whole, Text(" blocks of size "), Whole, Text(" ")];
  }

  lemma SameInMiddle(line: string, h: nat, mid: string, tail: string, j: nat)
    requires h <= |line| && line[h..] == mid + tail && j <= |mid|
    requires mid != [] && mid[|mid| - 1] == ' ' && |tail| >= 2 && tail[0] == 'o' && tail[1] == 'p'
    ensures At(HEADER, line)(h + j) == At(HEADER, mid)(j)
  {
    HeaderEndsAtOp();
    assert line[h + j..] == mid[j..] + tail;
    FrontBeforeOp(HEADER, mid[j..], tail);
  }

  lemma NothingInHead(line: string, h: nat)
    requires h < |line| && line[h] == ' ' && Avoids(line[..h], ' ', 'f')
    ensures forall q: nat :: q < h ==> At(HEADER, line)(q) == None
  {
    var head := line[..h];
    forall q: nat | q < h ensures line[q] != ' ' || line[q + 1] != 'f' {
      assert line[q] == head[q];
      if q + 1 < h { assert line[q + 1] == head[q + 1]; }
    }
    forall q: nat | q < h ensures At(HEADER, line)(q) == None {
      if Front(HEADER, line[q..]).Some? { FrontNeeds(HEADER, line, q); }
    }
  }

  lemma NothingInTail(line: string, k: nat, tail: string)
    requires k <= |line| && line[k..] == tail
    requires forall q: nat :: q <= |tail| ==> NoneAt(HEADER, tail, q)
    ensures forall q: nat :: k < q <= |line| ==> At(HEADER, line)(q) == None
  {
    forall q: nat | k < q <= |line| ensures At(HEADER, line)(q) == None {
      assert NoneAt(HEADER, tail, q - k);
      assert line[q..] == tail[q - k..];
    }
  }

  /** Where a line is searched whose end does not match: in the middle, which is followed by "op". */
  lemma FindInMiddle(line: string, h: nat, mid: string, tail: string)
    requires h <= |line| && line[h..] == mid + tail
    requires mid != [] && mid[0] == ' ' && mid[|mid| - 1] == ' ' && Avoids(line[..h], ' ', 'f')
    requires |tail| >= 2 && tail[0] == 'o' && tail[1] == 'p'
    requires forall q: nat :: q <= |tail| ==> NoneAt(HEADER, tail, q)
    ensures Find(HEADER, line, 0, |line|) == Find(HEADER, mid, 0, |mid|)
  {
    assert line[h] == line[h..][0];
    NothingInHead(line, h);
    assert line[h + |mid|..] == tail;
    NothingInTail(line, h + |mid|, tail);
    AllSameInMiddle(line, h, mid, tail);
    SearchMiddle(At(HEADER, line), h, At(HEADER, mid), |mid|, |line|);
  }

  lemma AllSameInMiddle(line: string, h: nat, mid: string, tail: string)
    requires h <= |line| && line[h..] == mid + tail
    requires mid != [] && mid[|mid| - 1] == ' ' && |tail| >= 2 && tail[0] == 'o' && tail[1] == 'p'
    ensures forall j: nat :: j <= |mid| ==> At(HEADER, line)(h + j) == At(HEADER, mid)(j)
  {
    forall j: nat | j <= |mid| ensures At(HEADER, line)(h + j) == At(HEADER, mid)(j) {
      SameInMiddle(line, h, mid, tail, j);
    }
  }

  lemma MatchHeaderInMiddle(head: string, mid: string, tail: string)
    requires mid != [] && mid[0] == ' ' && mid[|mid| - 1] == ' ' && Avoids(head, ' ', 'f')
    requires |tail| >= 2 && tail[0] == 'o' && tail[1] == 'p'
    requires forall q: nat :: q <= |tail| ==> NoneAt(HEADER, tail, q)
    ensures MatchHeader(head + mid + tail) == MatchHeader(mid)
  {
    var line := head + mid + tail;
    assert line[..|head|] == head && line[|head|..] == mid + tail;
    FindInMiddle(line, |head|, mid, tail);
  }

  lemma NothingBehind(start: string, tail: string, q: nat)
    requires Avoids(start, ' ', 'f') && start != [] && start[|start| - 1] != ' '
    requires tail != [] && Avoids(tail[1..], ' ', 'f') && Front(HEADER, tail).None? && q <= |start + tail|
    ensures NoneAt(HEADER, start + tail, q)
  {
    var s := start + tail;
    if q == |start| {
      assert s[q..] == tail;
    } else if Front(HEADER, s[q..]).Some? {
      FrontNeeds(HEADER, s, q);
      NoOtherFor(start, tail, q);
    }
  }

  lemma NoOtherFor(start: string, tail: string, q: nat)
    requires Avoids(start, ' ', 'f') && start != [] && start[|start| - 1] != ' '
    requires tail != [] && Avoids(tail[1..], ' ', 'f')
    requires q != |start| && q + 1 < |start + tail|
    ensures (start + tail)[q] != ' ' || (start + tail)[q + 1] != 'f'
  {
    var s := start + tail;
    if q < |start| {
      assert s[q] == start[q];
      if q + 1 < |start| { assert s[q + 1] == start[q + 1]; }
    } else {
      assert s[q] == tail[1..][q - |start| - 1] && s[q + 1] == tail[1..][q - |start|];
    }
  }

  lemma NegativeRestIsNone(count: int, size: int)
    requires count < 0 || size < 0
    ensures var tail := "op(s), each" + HeaderTail(count, size);
      forall q: nat :: q <= |tail| ==> NoneAt(HEADER, tail, q)
  {
    var tail := "op(s), each" + HeaderTail(count, size);
    NegativeTailFront(count, size);
    HeaderTailAvoids(count, size);
    forall q: nat | q <= |tail| ensures NoneAt(HEADER, tail, q) {
      NothingBehind("op(s), each", HeaderTail(count, size), q);
    }
  }

  lemma HeadAvoids(opCount: int)
    ensures Avoids("Sending " + ShowInt(opCount), ' ', 'f')
  {
    AvoidsAppend("Sending ", ShowInt(opCount), ' ', 'f');
  }

  lemma HeaderLineParts(opCount: int, workload: Name, count: int, size: int)
    ensures HeaderLine(opCount, workload, count, size) ==
      "Sending " + ShowInt(opCount) + (" " + workload + " ") + ("op(s), each" + HeaderTail(count, size))
  {
    var n, tail := ShowInt(opCount), HeaderTail(count, size);
    assert " op(s), each" == " " + "op(s), each";
    Reassociate("Sending " + n, workload, "op(s), each", tail);
  }

  lemma Reassociate(a: string, b: string, c: string, d: string)
    ensures a + " " + b + (" " + c) + d == a + (" " + b + " ") + (c + d)
  {}

  /**
   The header line gives its own two numbers, whatever the workload is called, unless one of them is
   negative; then it gives what the workload's name alone would.
   */
  lemma HeaderLineMatches(opCount: int, workload: Name, count: int, size: int)
    ensures MatchHeader(HeaderLine(opCount, workload, count, size)) ==
      if count >= 0 && size >= 0 then Some((Show(count), Show(size))) else MatchHeader(" " + workload + " ")
  {
    if count >= 0 && size >= 0 {
      HeaderTailFront(count, size);
      HeaderTailAvoids(count, size);
      MatchHeaderIn(HeaderHead(opCount) + workload + " op(s), each", HeaderTail(count, size));
    } else {
      NegativeRestIsNone(count, size);
      HeadAvoids(opCount);
      HeaderLineParts(opCount, workload, count, size);
      var tail := "op(s), each" + HeaderTail(count, size);
      MatchHeaderInMiddle("Sending " + ShowInt(opCount), " " + workload + " ", tail);
    }
  }

  // ---------- The line with the transport's name ----------

  /** A text in front that the pattern cannot start in changes nothing. */
  lemma FindBehind(pat: seq<Piece>, head: string, s: string)
    requires pat != [] && pat[0].Text? && |pat[0].text| >= 2 && pat[0].text[0] !in head
    ensures Find(pat, head + s, 0, |head + s|) == Find(pat, s, 0, |s|)
  {
    var line := head + s;
    forall q: nat | q < |head| ensures At(pat, line)(q) == None {
      assert line[q] == head[q];
      if Front(pat, line[q..]).Some? { FrontNeeds(pat, line, q); }
    }
    FindSame(pat, line, |head|, s);
  }

  lemma PassedBehind(transport: string)
    ensures HasPassed(TRANSPORT + transport) <==> HasPassed(transport)
  {
    var line := TRANSPORT + transport;
    if HasPassed(transport) {
      PassedInside(TRANSPORT, transport, []);
      assert line + [] == line;
    }
    if p :| 0 <= p <= |line| && PASSED <= line[p..] {
      PassedAt(line, p);
      TransportHasNoTe(transport, p);
      assert line[p..] == transport[p - |TRANSPORT|..];
    }
  }

  lemma TransportHasNoTe(transport: string, p: nat)
    requires p + 1 < |TRANSPORT + transport|
    requires (TRANSPORT + transport)[p] == 'T' && (TRANSPORT + transport)[p + 1] == 'e'
    ensures p >= |TRANSPORT|
  {
    var line := TRANSPORT + transport;
    assert line[0] == 'T' && line[1] == 'r';
    assert forall i :: 1 <= i < |TRANSPORT| ==> line[i] == TRANSPORT[i];
    assert forall i :: 1 <= i < |TRANSPORT| ==> TRANSPORT[i] != 'T';
  }

  /** The line with the transport's name tells the parser what the name would, and no statistics. */
  lemma TransportLineMatches(transport: Name)
    ensures MatchHeader(TransportLine(transport)) == MatchHeader(transport)
    ensures HasPassed(TransportLine(transport)) <==> HasPassed(transport)
    ensures MatchStats("Throughput", TransportLine(transport)) == None
    ensures MatchStats("Latency", TransportLine(transport)) == None
  {
    FindBehind(HEADER, TRANSPORT, transport);
    PassedBehind(transport);
    var line := TransportLine(transport);
    assert line[0] == 'T' && line[1] == 'r';
  }
}
