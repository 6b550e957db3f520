/**
 * The local metrics store: an append-only JSON-lines log of per-turn usage
 * records, its reader, the nearest-rank 95th percentile, and the aggregate
 * snapshot (count, throughput over the last 15 minutes, P95 latency, mean cost).
 *
 * JSON encoding and decoding are the parameters `dumps` and `loads`; the
 * round-trip lemmas assume of them only that each logged record round-trips
 * (`RoundTrips`). The wall clock
 * reading `time.time()` is the parameter `now`.
 */
module Metrics {
  import opened Wrappers
  import opened Rounding
  import opened Text

  /** A field value of a logged record: a JSON number, or a non-numeric value (shown as a string). */
  datatype Value = Num(x: real) | Str(s: string)

  /** One logged record, a JSON object. */
  type Row = map<string, Value>

  datatype MetricsError =
    | JsonDecodeError(line: string)  // `json.loads` rejected this stripped, non-blank line
    | TypeError                      // a non-numeric ts, latency or cost reached a comparison, sort, round or sum

  /** One serialised record: a single non-blank line with no whitespace around it. */
  predicate SingleLine(d: string)
  {
    d != [] && '\n' !in d && !IsSpace(d[0]) && !IsSpace(d[|d| - 1])
  }

  /** The serialiser writes record m as one line that the parser maps back to m. */
  predicate RoundTrips(dumps: Row -> string, loads: string -> Option<Row>, m: Row)
  {
    SingleLine(dumps(m)) && loads(dumps(m)) == Some(m)
  }

  /** Every record of ms round-trips. */
  predicate AllRoundTrip(dumps: Row -> string, loads: string -> Option<Row>, ms: seq<Row>)
  {
    forall i :: 0 <= i < |ms| ==> RoundTrips(dumps, loads, ms[i])
  }

  // ---------------------------------------------------------------------------
  // Reading the log

  /** The stripped non-blank lines, in file order. */
  function NonBlank(lines: seq<string>): (r: seq<string>)
    ensures |r| <= |lines|
    ensures forall i :: 0 <= i < |r| ==> r[i] != []
  {
    if lines == [] then []
    else
      var init := NonBlank(lines[..|lines| - 1]);
      var line := Strip(lines[|lines| - 1]);
      if line == [] then init else init + [line]
  }

  /** The non-blank lines of two pieces of a file are those of the first piece, then those of the second. */
  lemma {:induction false} NonBlankAppend(a: seq<string>, b: seq<string>)
    ensures NonBlank(a + b) == NonBlank(a) + NonBlank(b)
    decreases |b|
  {
    if b == [] {
      assert a + b == a;
    } else {
      var b', last := b[..|b| - 1], b[|b| - 1];
      var kept := if Strip(last) == [] then [] else [Strip(last)];
      assert a + b == (a + b') + [last];
      assert b == b' + [last];
      calc {
        NonBlank(a + b);
        { NonBlankSnoc(a + b', last); }
        NonBlank(a + b') + kept;
        { NonBlankAppend(a, b'); }
        NonBlank(a) + NonBlank(b') + kept;
        { NonBlankSnoc(b', last); }
        NonBlank(a) + NonBlank(b);
      }
    }
  }

  /** One more line: the definition of `NonBlank` read from the last line. */
  lemma NonBlankSnoc(p: seq<string>, line: string)
    ensures NonBlank(p + [line]) == NonBlank(p) + if Strip(line) == [] then [] else [Strip(line)]
  {
    assert (p + [line])[..|p + [line]| - 1] == p;
  }

  /** A single line is kept, stripped, exactly when it is not all whitespace. */
  lemma NonBlankOne(line: string)
    ensures NonBlank([line]) == if Strip(line) == [] then [] else [Strip(line)]
  {
    assert [line][..0] == [];
  }

  /** The loop of `read_metrics`: strip each line, skip blank ones, parse the rest, stop at the first failure. */
  function ParseLines(lines: seq<string>, loads: string -> Option<Row>): (r: Result<seq<Row>, MetricsError>)
    ensures r.Ok? ==> |r.value| <= |lines|
    ensures r.Err? ==> r.error.JsonDecodeError? && r.error.line != []
  {
    if lines == [] then Ok([])
    else
      match ParseLines(lines[..|lines| - 1], loads)
      case Err(e) => Err(e)
      case Ok(rows) =>
        var line := Strip(lines[|lines| - 1]);
        if line == [] then Ok(rows)
        else match loads(line)
          case None => Err(JsonDecodeError(line))
          case Some(row) => Ok(rows + [row])
  }

  /** `read_metrics`: a missing log reads as no records. */
  function ParseLog(present: bool, text: string, loads: string -> Option<Row>): (r: Result<seq<Row>, MetricsError>)
    ensures !present ==> r == Ok([])
    ensures r.Err? ==> r.error.JsonDecodeError?
  {
    if !present then Ok([]) else ParseLines(Lines(text), loads)
  }

  /** One more line: the definition of `ParseLines` read from the last line. */
  lemma ParseLinesSnoc(p: seq<string>, line: string, loads: string -> Option<Row>)
    ensures ParseLines(p + [line], loads) ==
      match ParseLines(p, loads)
      case Err(e) => Err(e)
      case Ok(rows) =>
        if Strip(line) == [] then Ok(rows)
        else match loads(Strip(line))
          case None => Err(JsonDecodeError(Strip(line)))
          case Some(row) => Ok(rows + [row])
  {
    assert (p + [line])[..|p + [line]| - 1] == p;
  }

  /** Once a line has failed, later lines do not change the outcome. */
  /** One iteration of the reading loop, stated on the prefix read so far. */
  lemma ParseLinesStep(lines: seq<string>, i: nat, rows: seq<Row>, loads: string -> Option<Row>)
    requires i < |lines| && ParseLines(lines[..i], loads) == Ok(rows)
    ensures Strip(lines[i]) == [] ==> ParseLines(lines[..i + 1], loads) == Ok(rows)
    ensures Strip(lines[i]) != [] && loads(Strip(lines[i])).Some? ==>
      ParseLines(lines[..i + 1], loads) == Ok(rows + [loads(Strip(lines[i])).value])
    ensures Strip(lines[i]) != [] && loads(Strip(lines[i])).None? ==>
      ParseLines(lines[..i + 1], loads) == Err(JsonDecodeError(Strip(lines[i])))
  {
    ParseLinesSnoc(lines[..i], lines[i], loads);
    assert lines[..i] + [lines[i]] == lines[..i + 1];
  }

  /** Once a prefix of the lines fails to parse, the whole fails with the same error. */
  lemma ParseLinesStopsAt(lines: seq<string>, n: nat, loads: string -> Option<Row>)
    requires n <= |lines| && ParseLines(lines[..n], loads).Err?
    ensures ParseLines(lines, loads) == ParseLines(lines[..n], loads)
  {
    ParseLinesErrSticky(lines[..n], lines[n..], loads);
    assert lines[..n] + lines[n..] == lines;
  }

  lemma {:induction false} ParseLinesErrSticky(p: seq<string>, q: seq<string>, loads: string -> Option<Row>)
    requires ParseLines(p, loads).Err?
    ensures ParseLines(p + q, loads) == ParseLines(p, loads)
    decreases |q|
  {
    if q == [] {
      assert p + q == p;
    } else {
      var q' := q[..|q| - 1];
      ParseLinesErrSticky(p, q', loads);
      ParseLinesSnoc(p + q', q[|q| - 1], loads);
      assert p + q == (p + q') + [q[|q| - 1]];
    }
  }

  /**
   * `res` is what reading the non-blank lines `nb` should give: success exactly
   * when every line parses, then one record per line in order; otherwise the
   * error names the first line that does not parse.
   */
  ghost predicate ReadsAs(nb: seq<string>, res: Result<seq<Row>, MetricsError>, loads: string -> Option<Row>)
  {
    (res.Ok? <==> forall i :: 0 <= i < |nb| ==> loads(nb[i]).Some?) &&
    (res.Ok? ==> |res.value| == |nb| && forall i :: 0 <= i < |nb| ==> loads(nb[i]) == Some(res.value[i])) &&
    (res.Err? ==>
      exists k :: 0 <= k < |nb| && res.error == JsonDecodeError(nb[k]) &&
        loads(nb[k]).None? && forall j :: 0 <= j < k ==> loads(nb[j]).Some?)
  }

  lemma ReadsAsKeepsError(nb: seq<string>, line: string, res: Result<seq<Row>, MetricsError>, loads: string -> Option<Row>)
    requires res.Err? && ReadsAs(nb, res, loads)
    ensures ReadsAs(nb + [line], res, loads)
  {
    var k :| 0 <= k < |nb| && res.error == JsonDecodeError(nb[k]) &&
      loads(nb[k]).None? && forall j :: 0 <= j < k ==> loads(nb[j]).Some?;
    assert (nb + [line])[k] == nb[k];
  }

  lemma ReadsAsNewError(nb: seq<string>, line: string, rows: seq<Row>, loads: string -> Option<Row>)
    requires ReadsAs(nb, Ok(rows), loads) && loads(line).None?
    ensures ReadsAs(nb + [line], Err(JsonDecodeError(line)), loads)
  {
    assert (nb + [line])[|nb|] == line;
  }

  lemma ReadsAsExtend(nb: seq<string>, line: string, rows: seq<Row>, row: Row, loads: string -> Option<Row>)
    requires ReadsAs(nb, Ok(rows), loads) && loads(line) == Some(row)
    ensures ReadsAs(nb + [line], Ok(rows + [row]), loads)
  {
  }

  /** What `read_metrics` returns, stated against the non-blank lines. */
  lemma {:induction false} ParseLinesSpec(lines: seq<string>, loads: string -> Option<Row>)
    ensures ReadsAs(NonBlank(lines), ParseLines(lines, loads), loads)
    decreases |lines|
  {
    if lines != [] {
      var init, last := lines[..|lines| - 1], lines[|lines| - 1];
      ParseLinesSpec(init, loads);
      ParseLinesSnoc(init, last, loads);
      assert init + [last] == lines;
      var nb0, line := NonBlank(init), Strip(last);
      if line == [] {
        assert NonBlank(lines) == nb0;
      } else {
        assert NonBlank(lines) == nb0 + [line];
        match ParseLines(init, loads)
        case Err(_) => ReadsAsKeepsError(nb0, line, ParseLines(init, loads), loads);
        case Ok(rows) =>
          match loads(line)
          case None => ReadsAsNewError(nb0, line, rows, loads);
          case Some(row) => ReadsAsExtend(nb0, line, rows, row, loads);
      }
    }
  }

  /** A whitespace-only line anywhere in the file contributes nothing. */
  lemma {:induction false} BlankLineSkipped(a: seq<string>, w: string, b: seq<string>, loads: string -> Option<Row>)
    requires AllSpace(w)
    ensures ParseLines(a + [w] + b, loads) == ParseLines(a + b, loads)
    decreases |b|
  {
    if b == [] {
      ParseLinesSnoc(a, w, loads);
      assert a + [w] + b == a + [w];
      assert a + b == a;
    } else {
      var b', last := b[..|b| - 1], b[|b| - 1];
      BlankLineSkipped(a, w, b', loads);
      ParseLinesSnoc(a + [w] + b', last, loads);
      ParseLinesSnoc(a + b', last, loads);
      assert a + [w] + b == (a + [w] + b') + [last];
      assert a + b == (a + b') + [last];
    }
  }

  /**
   * Round trip of `log_metrics` and `read_metrics`: on a log that ends with a
   * complete line, appending a record and reading back gives the old records
   * followed by that record (or the same decoding error as before).
   */
  lemma LogThenRead(present: bool, text: string, m: Row,
                    dumps: Row -> string, loads: string -> Option<Row>)
    requires RoundTrips(dumps, loads, m)
    requires !present ==> text == []
    requires Terminated(text)
    ensures ParseLog(true, text + dumps(m) + "\n", loads) ==
      match ParseLog(present, text, loads)
      case Ok(rows) => Ok(rows + [m])
      case Err(e) => Err(e)
    ensures Terminated(text + dumps(m) + "\n")
  {
    var d := dumps(m);
    assert SingleLine(d) && loads(d) == Some(m);
    AppendLine(text, d);
    StripUnchanged(d);
    ParseLinesSnoc(Lines(text), d, loads);
    if !present {
      assert Lines(text) == [];
    }
  }

  lemma AllRoundTripInit(dumps: Row -> string, loads: string -> Option<Row>, ms: seq<Row>)
    requires ms != [] && AllRoundTrip(dumps, loads, ms)
    ensures AllRoundTrip(dumps, loads, ms[..|ms| - 1]) && RoundTrips(dumps, loads, ms[|ms| - 1])
  {
    var init := ms[..|ms| - 1];
    forall i | 0 <= i < |init| ensures RoundTrips(dumps, loads, init[i]) {
      assert init[i] == ms[i];
    }
  }

  /** The log text after `log_metrics` has been called on each record in turn. */
  function LogAll(text: string, ms: seq<Row>, dumps: Row -> string): string
  {
    if ms == [] then text else LogAll(text, ms[..|ms| - 1], dumps) + dumps(ms[|ms| - 1]) + "\n"
  }

  /** Logging N records into a missing log and reading it back gives exactly those records, in order. */
  lemma {:induction false} LogAllThenRead(ms: seq<Row>, dumps: Row -> string, loads: string -> Option<Row>)
    requires AllRoundTrip(dumps, loads, ms)
    ensures ParseLog(ms != [], LogAll([], ms, dumps), loads) == Ok(ms)
    ensures Terminated(LogAll([], ms, dumps))
  {
    if ms != [] {
      var init := ms[..|ms| - 1];
      AllRoundTripInit(dumps, loads, ms);
      LogAllThenRead(init, dumps, loads);
      LogThenRead(init != [], LogAll([], init, dumps), ms[|ms| - 1], dumps, loads);
      assert init + [ms[|ms| - 1]] == ms;
    }
  }

  // ---------------------------------------------------------------------------
  // Nearest-rank percentile

  predicate Sorted(s: seq<real>)
  {
    forall i, j :: 0 <= i < j < |s| ==> s[i] <= s[j]
  }

  /** Every element of t is at least b when t holds the same elements as u and every element of u is. */
  lemma LowerBoundCarries(b: real, t: seq<real>, u: seq<real>)
    requires multiset(t) == multiset(u)
    requires forall k :: 0 <= k < |u| ==> b <= u[k]
    ensures forall k :: 0 <= k < |t| ==> b <= t[k]
  {
    forall k | 0 <= k < |t| ensures b <= t[k] {
      assert t[k] in multiset(u);
    }
  }

  /** One step of insertion sort: place x into a sorted sequence. */
  function Insert(x: real, s: seq<real>): (r: seq<real>)
    requires Sorted(s)
    ensures Sorted(r) && multiset(r) == multiset(s) + multiset{x}
  {
    if s == [] then [x]
    else if x <= s[0] then
      assert forall k :: 0 <= k < |s| ==> s[0] <= s[k];
      ConsSorted(x, s);
      [x] + s
    else
      var t := Insert(x, s[1..]);
      assert s == [s[0]] + s[1..];
      assert forall k :: 0 <= k < |s| - 1 ==> s[0] <= s[1..][k];
      LowerBoundCarries(s[0], t, s[1..] + [x]);
      ConsSorted(s[0], t);
      [s[0]] + t
  }

  lemma ConsSorted(h: real, t: seq<real>)
    requires Sorted(t)
    requires forall k :: 0 <= k < |t| ==> h <= t[k]
    ensures Sorted([h] + t)
  {
  }

  /** `sorted(values)`: the values in ascending order. */
  function SortAscending(s: seq<real>): (r: seq<real>)
    ensures Sorted(r) && multiset(r) == multiset(s)
  {
    if s == [] then []
    else
      assert s == [s[0]] + s[1..];
      Insert(s[0], SortAscending(s[1..]))
  }

  lemma SortedHeadIsLeast(s: seq<real>, x: real)
    requires Sorted(s) && x in multiset(s)
    ensures s[0] <= x
  {
    var i :| 0 <= i < |s| && s[i] == x;
    if i > 0 {
      assert s[0] <= s[i];
    }
  }

  /** Two sorted sequences with the same elements are the same sequence. */
  lemma {:induction false} SortedUnique(a: seq<real>, b: seq<real>)
    requires Sorted(a) && Sorted(b) && multiset(a) == multiset(b)
    ensures a == b
    decreases |a|
  {
    assert |a| == |multiset(a)| == |multiset(b)| == |b|;
    if a != [] {
      SortedHeadIsLeast(b, a[0]);
      SortedHeadIsLeast(a, b[0]);
      SameTail(a, b);
      SortedTail(a);
      SortedTail(b);
      SortedUnique(a[1..], b[1..]);
      assert a == [a[0]] + a[1..] && b == [b[0]] + b[1..];
    }
  }

  lemma SortedTail(s: seq<real>)
    requires Sorted(s) && s != []
    ensures Sorted(s[1..])
  {
  }

  /** Taking the same first element from equal multisets leaves equal multisets. */
  lemma SameTail(a: seq<real>, b: seq<real>)
    requires a != [] && b != [] && a[0] == b[0] && multiset(a) == multiset(b)
    ensures multiset(a[1..]) == multiset(b[1..])
  {
    assert a == [a[0]] + a[1..] && b == [b[0]] + b[1..];
    assert multiset(a[1..]) == multiset(a) - multiset{a[0]};
    assert multiset(b[1..]) == multiset(b) - multiset{b[0]};
  }

  /** `int(round(0.95 * (n - 1)))`: the rank the percentile picks, always a valid index. */
  function P95Index(n: nat): (i: nat)
    requires n >= 1
    ensures i < n
  {
    RoundHalfEven(0.95 * (n - 1) as real)
  }

  /** `p95`: nearest-rank 95th percentile of the values, 0.0 for none. */
  function P95(values: seq<real>): (r: real)
    ensures values == [] ==> r == 0.0
    ensures values != [] ==> r in values
  {
    if values == [] then 0.0
    else
      var sorted := SortAscending(values);
      assert |sorted| == |multiset(sorted)| == |multiset(values)| == |values|;
      assert sorted[P95Index(|values|)] in multiset(values);
      sorted[P95Index(|values|)]
  }

  /** `min(s)` */
  function Min(s: seq<real>): (m: real)
    requires s != []
    ensures m in s && forall i :: 0 <= i < |s| ==> m <= s[i]
  {
    if |s| == 1 then s[0]
    else
      var t := Min(s[1..]);
      if s[0] <= t then s[0] else t
  }

  /** `max(s)` */
  function Max(s: seq<real>): (m: real)
    requires s != []
    ensures m in s && forall i :: 0 <= i < |s| ==> s[i] <= m
  {
    if |s| == 1 then s[0]
    else
      var t := Max(s[1..]);
      if s[0] >= t then s[0] else t
  }

  lemma P95Bounds(values: seq<real>)
    requires values != []
    ensures Min(values) <= P95(values) <= Max(values)
  {
  }

  /** The percentile depends only on which values there are, not on their order. */
  lemma P95OrderIndependent(a: seq<real>, b: seq<real>)
    requires multiset(a) == multiset(b)
    ensures P95(a) == P95(b)
  {
    assert |a| == |multiset(a)| == |multiset(b)| == |b|;
    SortedUnique(SortAscending(a), SortAscending(b));
  }

  /** The anchor value: for 1..10 the rank is round(8.55) = 9, the last element. */
  lemma P95OfOneToTen()
    ensures P95([1.0, 2.0, 3.0, 4.0, 5.0, 6.0, 7.0, 8.0, 9.0, 10.0]) == 10.0
  {
    var s := [1.0, 2.0, 3.0, 4.0, 5.0, 6.0, 7.0, 8.0, 9.0, 10.0];
    forall i, j | 0 <= i < j < |s| ensures s[i] <= s[j] {
      assert s[i] == (i + 1) as real && s[j] == (j + 1) as real;
    }
    P95OfSorted(s);
    P95IndexOfTen();
  }

  lemma P95IndexOfTen()
    ensures P95Index(10) == 9
  {
    assert 0.95 * 9.0 == 8.55;
    assert (8.55).Floor == 8;
  }

  /** On input already in order the percentile is read off at its rank. */
  lemma P95OfSorted(s: seq<real>)
    requires Sorted(s) && s != []
    ensures P95(s) == s[P95Index(|s|)]
  {
    SortedUnique(SortAscending(s), s);
  }

  // ---------------------------------------------------------------------------
  // Aggregate statistics

  /** `sum(s)`, added left to right. */
  function Sum(s: seq<real>): real
  {
    if s == [] then 0.0 else Sum(s[..|s| - 1]) + s[|s| - 1]
  }

  /** n copies of x added up. */
  function Times(n: nat, x: real): real
  {
    if n == 0 then 0.0 else Times(n - 1, x) + x
  }

  lemma {:induction false} TimesIsProduct(n: nat, x: real)
    ensures Times(n, x) == n as real * x
  {
    if n > 0 {
      TimesIsProduct(n - 1, x);
      assert (n - 1) as real * x + x == n as real * x;
    }
  }

  lemma {:induction false} SumBounds(s: seq<real>, lo: real, hi: real)
    requires forall i :: 0 <= i < |s| ==> lo <= s[i] <= hi
    ensures Times(|s|, lo) <= Sum(s) <= Times(|s|, hi)
  {
    if s != [] {
      SumBounds(s[..|s| - 1], lo, hi);
    }
  }

  /** `sum(s) / len(s)` */
  function Mean(s: seq<real>): real
    requires s != []
  {
    Sum(s) / |s| as real
  }

  /** The mean lies between the smallest and the largest value. */
  lemma MeanBetween(s: seq<real>)
    requires s != []
    ensures Min(s) <= Mean(s) <= Max(s)
  {
    var lo, hi, total := Min(s), Max(s), Sum(s);
    SumBounds(s, lo, hi);
    QuotientBetween(total, |s|, lo, hi);
  }

  /** A total of n values each between lo and hi averages between lo and hi. */
  lemma QuotientBetween(total: real, n: nat, lo: real, hi: real)
    requires n > 0 && Times(n, lo) <= total <= Times(n, hi)
    ensures lo <= total / n as real <= hi
  {
    TimesIsProduct(n, lo);
    TimesIsProduct(n, hi);
    var m := n as real;
    assert total == (total / m) * m;
  }

  /** Length of the throughput window, `15*60` seconds, and the minutes it spans. */
  const WindowSeconds: real := 900.0
  const WindowMinutes: real := 15.0

  /** Decimal places of the snapshot's throughput, latency and cost. */
  const ThroughputPlaces: nat := 3
  const LatencyPlaces: nat := 3
  const AvgCostPlaces: nat := 6

  /** The dictionary `aggregate` returns. */
  datatype Snapshot = Snapshot(count: nat, throughputQpm: real, p95LatencyS: real, avgCostUsd: real)

  const EmptySnapshot: Snapshot := Snapshot(0, 0.0, 0.0, 0.0)

  /** `r.get(key, default)` for a numeric field. */
  function NumOr(r: Row, key: string, default: real): real
  {
    if key in r && r[key].Num? then r[key].x else default
  }

  predicate NumericOrAbsent(r: Row, key: string)
  {
    key !in r || r[key].Num?
  }

  /** Every field `aggregate` computes with is a number or missing in every row. */
  predicate WellTyped(rows: seq<Row>)
  {
    forall i :: 0 <= i < |rows| ==>
      NumericOrAbsent(rows[i], "ts") && NumericOrAbsent(rows[i], "latency_seconds") &&
      NumericOrAbsent(rows[i], "cost_est_usd")
  }

  /** A missing timestamp reads as 0, a missing latency or cost as 0.0. */
  function Timestamp(r: Row): real { NumOr(r, "ts", 0.0) }
  function Latency(r: Row): real { NumOr(r, "latency_seconds", 0.0) }
  function Cost(r: Row): real { NumOr(r, "cost_est_usd", 0.0) }

  function Latencies(rows: seq<Row>): seq<real>
  {
    seq(|rows|, i requires 0 <= i < |rows| => Latency(rows[i]))
  }

  function Costs(rows: seq<Row>): seq<real>
  {
    seq(|rows|, i requires 0 <= i < |rows| => Cost(rows[i]))
  }

  /** `[r for r in rows if r.get("ts", 0) >= cutoff]` */
  function Recent(rows: seq<Row>, cutoff: real): (rs: seq<Row>)
    ensures forall k :: 0 <= k < |rs| ==> Timestamp(rs[k]) >= cutoff
    ensures forall x :: multiset(rs)[x] == if Timestamp(x) >= cutoff then multiset(rows)[x] else 0
    ensures |rs| <= |rows|
  {
    if rows == [] then []
    else
      var init, last := rows[..|rows| - 1], rows[|rows| - 1];
      assert rows == init + [last];
      assert multiset(rows) == multiset(init) + multiset{last};
      var rs := Recent(init, cutoff);
      if Timestamp(last) >= cutoff then
        assert multiset(rs + [last]) == multiset(rs) + multiset{last};
        rs + [last]
      else rs
  }

  /** Queries per minute over the last fifteen minutes, `round(len(recent) / 15.0, 3)`. */
  function Throughput(rows: seq<Row>, now: real): (r: real)
    ensures 0.0 <= r <= RoundTo(|rows| as real / WindowMinutes, ThroughputPlaces)
  {
    var qpm := |Recent(rows, now - WindowSeconds)| as real / WindowMinutes;
    RoundToNonNegative(qpm, ThroughputPlaces);
    RoundToMonotone(qpm, |rows| as real / WindowMinutes, ThroughputPlaces);
    RoundTo(qpm, ThroughputPlaces)
  }

  /** `aggregate` over the records read from the log; `now` is the wall-clock reading. */
  function AggregateRows(rows: seq<Row>, now: real): (r: Result<Snapshot, MetricsError>)
    ensures rows == [] ==> r == Ok(EmptySnapshot)
    ensures r.Err? <==> rows != [] && !WellTyped(rows)
    ensures r.Err? ==> r.error == TypeError
    ensures r.Ok? ==> r.value.count == |rows|
  {
    if rows == [] then Ok(EmptySnapshot)
    else if !WellTyped(rows) then Err(TypeError)
    else
      Ok(Snapshot(
        |rows|,
        Throughput(rows, now),
        RoundTo(P95(Latencies(rows)), LatencyPlaces),
        RoundTo(Mean(Costs(rows)), AvgCostPlaces)))
  }

  /** `aggregate(path)`: read the log, then aggregate; a decoding error propagates. */
  function Aggregate(present: bool, text: string, loads: string -> Option<Row>, now: real): (r: Result<Snapshot, MetricsError>)
    ensures !present ==> r == Ok(EmptySnapshot)
    ensures ParseLog(present, text, loads).Err? ==> r == Err(ParseLog(present, text, loads).error)
    ensures r.Ok? ==> ParseLog(present, text, loads).Ok? && r.value.count == |ParseLog(present, text, loads).value|
  {
    match ParseLog(present, text, loads)
    case Err(e) => Err(e)
    case Ok(rows) => AggregateRows(rows, now)
  }

  /** One well-typed record inside the window: count 1, one query in fifteen minutes, and its own latency and cost. */
  lemma AggregateOneRecent(r: Row, now: real)
    requires WellTyped([r]) && Timestamp(r) >= now - WindowSeconds
    ensures AggregateRows([r], now)
      == Ok(Snapshot(1, RoundTo(1.0 / 15.0, 3), RoundTo(Latency(r), 3), RoundTo(Cost(r), 6)))
  {
    ThroughputOneRecent(r, now);
    assert Latencies([r]) == [Latency(r)];
    P95One(Latency(r));
    assert Costs([r]) == [Cost(r)];
    MeanOne(Cost(r));
  }

  lemma ThroughputOneRecent(r: Row, now: real)
    requires Timestamp(r) >= now - WindowSeconds
    ensures Throughput([r], now) == RoundTo(1.0 / 15.0, 3)
  {
    RecentOne(r, now - WindowSeconds);
  }

  lemma P95One(x: real)
    ensures P95([x]) == x
  {
    assert P95([x]) in [x];
  }

  lemma MeanOne(x: real)
    ensures Mean([x]) == x
  {
    assert [x][..0] == [];
    assert Sum([x]) == x;
  }



  /** A single record is kept exactly when it meets the cutoff. */
  lemma RecentOne(r: Row, cutoff: real)
    ensures Recent([r], cutoff) == if Timestamp(r) >= cutoff then [r] else []
  {
    assert [r][..0] == [];
  }

  /** The window is inclusive: a record exactly 900 s old counts, one 901 s old does not. */
  lemma RecentWindowEdge(r: Row, now: real)
    ensures Timestamp(r) == now - 900.0 ==> Recent([r], now - WindowSeconds) == [r]
    ensures Timestamp(r) == now - 901.0 ==> Recent([r], now - WindowSeconds) == []
  {
    RecentOne(r, now - WindowSeconds);
  }

  /** The reported P95 latency is one of the logged latencies, rounded to three places. */
  lemma P95LatencyIsLogged(rows: seq<Row>, now: real)
    requires AggregateRows(rows, now).Ok? && rows != []
    ensures exists i :: (0 <= i < |rows| &&
      AggregateRows(rows, now).value.p95LatencyS == RoundTo(Latency(rows[i]), LatencyPlaces))
  {
    var ls := Latencies(rows);
    var i :| 0 <= i < |ls| && ls[i] == P95(ls);
    assert AggregateRows(rows, now).value.p95LatencyS == RoundTo(Latency(rows[i]), LatencyPlaces);
  }

  /** Before rounding the average cost lies between the cheapest and the dearest record. */
  lemma AvgCostBetween(rows: seq<Row>, now: real)
    requires AggregateRows(rows, now).Ok? && rows != []
    ensures RoundTo(Min(Costs(rows)), AvgCostPlaces) <= AggregateRows(rows, now).value.avgCostUsd
    ensures AggregateRows(rows, now).value.avgCostUsd <= RoundTo(Max(Costs(rows)), AvgCostPlaces)
  {
    var cs := Costs(rows);
    MeanBetween(cs);
    RoundToMonotone(Min(cs), Mean(cs), AvgCostPlaces);
    RoundToMonotone(Mean(cs), Max(cs), AvgCostPlaces);
  }

  /** After N records are logged into a missing log, `aggregate` reports a count of N. */
  lemma CountAfterAppends(ms: seq<Row>, dumps: Row -> string, loads: string -> Option<Row>, now: real)
    requires AllRoundTrip(dumps, loads, ms)
    ensures Aggregate(ms != [], LogAll([], ms, dumps), loads, now).Err? <==> ms != [] && !WellTyped(ms)
    ensures Aggregate(ms != [], LogAll([], ms, dumps), loads, now).Ok? ==>
      Aggregate(ms != [], LogAll([], ms, dumps), loads, now).value.count == |ms|
  {
    LogAllThenRead(ms, dumps, loads);
  }

  /** The log file at its path: absent, or present with its text. */
  class MetricsFile {
    var present: bool
    var text: string

    ghost predicate Valid()
      reads this
    {
      !present ==> text == []
    }

    constructor Missing()
      ensures Valid() && !present
    {
      present, text := false, [];
    }

    constructor Existing(contents: string)
      ensures Valid() && present && text == contents
    {
      present, text := true, contents;
    }

    /** `log_metrics`: create the log if needed and append one serialised record and a newline. */
    method LogMetrics(m: Row, dumps: Row -> string)
      requires Valid()
      modifies this
      ensures Valid() && present
      ensures text == old(text) + dumps(m) + "\n"
    {
      present := true;
      text := text + dumps(m) + "\n";
    }

    /** `read_metrics` */
    method ReadMetrics(loads: string -> Option<Row>) returns (r: Result<seq<Row>, MetricsError>)
      ensures r == ParseLog(present, text, loads)
    {
      if !present {
        return Ok([]);
      }
      var lines := Lines(text);
      var rows: seq<Row> := [];
      var i := 0;
      while i < |lines|
        invariant 0 <= i <= |lines|
        invariant ParseLines(lines[..i], loads) == Ok(rows)
      {
        var line := Strip(lines[i]);
        ParseLinesStep(lines, i, rows, loads);
        if line != [] {
          var parsed := loads(line);
          if parsed.None? {
            ParseLinesStopsAt(lines, i + 1, loads);
            return Err(JsonDecodeError(line));
          }
          rows := rows + [parsed.value];
        }
        i := i + 1;
      }
      assert lines[..i] == lines;
      return Ok(rows);
    }
  }
}
