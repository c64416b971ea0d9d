/**
  dumpstate's progress estimate: how it grows during a bugreport, which
  percentages are reported, and the running average kept in a stats file from
  one bugreport to the next.  Arithmetic is exact where the source uses float.
 */
module Progress {
  import opened Division
  import opened Options

  const DEFAULT_MAX := 5000
  const STATS_MAX_N_RUNS := 1000
  const STATS_MAX_AVERAGE := 100000

  // ----- the stats line, written with printf and read back with strtol

  function DigitOf(d: nat): char
    requires d < 10
  {
    '0' + d as char
  }

  predicate IsDigit(c: char) {
    '0' <= c <= '9'
  }

  function Decimal(n: nat): string {
    if n < 10 then [DigitOf(n)] else Decimal(n / 10) + [DigitOf(n % 10)]
  }

  predicate IsSpace(c: char) {
    c == ' ' || '\t' <= c <= '\r'
  }

  function SkipSpaces(s: string): string {
    if s != "" && IsSpace(s[0]) then SkipSpaces(s[1..]) else s
  }

  function ReadDigits(acc: nat, s: string): (nat, string)
    decreases |s|
  {
    if s == "" || !IsDigit(s[0]) then (acc, s)
    else ReadDigits(acc * 10 + (s[0] - '0') as nat, s[1..])
  }

  /** The number at the start of `s` and what follows it, or 0 and `s` when there is none. */
  function Strtol(s: string): (int, string) {
    var t := SkipSpaces(s);
    var signed := t != "" && (t[0] == '-' || t[0] == '+');
    var u := if signed then t[1..] else t;
    if u == "" || !IsDigit(u[0]) then (0, s)
    else
      var r := ReadDigits(0, u);
      var v: int := r.0;
      (if signed && t[0] == '-' then -v else v, r.1)
  }

  function FirstLine(s: string): string {
    if s == "" || s[0] == '\n' then "" else [s[0]] + FirstLine(s[1..])
  }

  /** A number as %d prints it. */
  function Signed(n: int): string {
    if n < 0 then "-" + Decimal(-n) else Decimal(n)
  }

  function StatsLine(runs: int, average: int): string {
    Signed(runs) + " " + Signed(average) + "\n"
  }

  /** The number of runs and the average in a stats file. */
  function ParseStats(content: string): (int, int) {
    var first := Strtol(FirstLine(content));
    (first.0, Strtol(first.1).0)
  }

  /** `acc` with the digits of `n` appended. */
  function Shifted(acc: nat, n: nat): nat
    decreases n
  {
    if n < 10 then acc * 10 + n else Shifted(acc, n / 10) * 10 + n % 10
  }

  lemma {:induction false} ShiftedFromZero(n: nat)
    ensures Shifted(0, n) == n
  {
    if n >= 10 {
      ShiftedFromZero(n / 10);
    }
  }

  lemma {:induction false} ReadDecimal(acc: nat, n: nat, rest: string)
    ensures ReadDigits(acc, Decimal(n) + rest) == ReadDigits(Shifted(acc, n), rest)
    decreases n
  {
    if n < 10 {
      assert (Decimal(n) + rest)[1..] == rest;
    } else {
      var tail := [DigitOf(n % 10)] + rest;
      ReadDecimal(acc, n / 10, tail);
      assert Decimal(n) + rest == Decimal(n / 10) + tail;
      assert tail[1..] == rest;
    }
  }

  lemma {:induction false} DecimalDigits(n: nat)
    ensures Decimal(n) != "" && forall k :: 0 <= k < |Decimal(n)| ==> IsDigit(Decimal(n)[k])
  {
    if n >= 10 {
      DecimalDigits(n / 10);
    }
  }

  lemma {:induction false} SignedStarts(n: int)
    ensures Signed(n) != "" && '\n' !in Signed(n) && !IsSpace(Signed(n)[0])
  {
    DecimalDigits(if n < 0 then -n else n);
  }

  lemma {:induction false} StrtolSigned(n: int, rest: string)
    requires rest == "" || !IsDigit(rest[0])
    ensures Strtol(Signed(n) + rest) == (n, rest)
  {
    var m: nat := if n < 0 then -n else n;
    var s := Signed(n) + rest;
    DecimalDigits(m);
    ReadDecimal(0, m, rest);
    ShiftedFromZero(m);
    hide Decimal, Shifted;
    assert (Decimal(m) + rest)[0] == Decimal(m)[0];
    if n < 0 {
      assert s == "-" + Decimal(m) + rest;
      assert s[0] == '-' && s[1..] == Decimal(m) + rest;
    }
  }

  /** A plus sign makes no difference, and only negative numbers are printed with a sign. */
  lemma {:induction false} Signs(n: nat, rest: string)
    requires rest == "" || !IsDigit(rest[0])
    ensures Strtol("+" + Decimal(n) + rest) == (n, rest)
    ensures '-' !in Signed(n) && '+' !in Signed(n)
  {
    var s := "+" + Decimal(n) + rest;
    DecimalDigits(n);
    ReadDecimal(0, n, rest);
    ShiftedFromZero(n);
    hide Decimal, Shifted;
    assert s[1..] == Decimal(n) + rest && s[0] == '+';
    assert (Decimal(n) + rest)[0] == Decimal(n)[0];
  }

  lemma {:induction false} FirstLineEnds(a: string, b: string)
    requires '\n' !in a
    ensures FirstLine(a + "\n" + b) == a
  {
    if a == "" {
      assert (a + "\n" + b)[0] == '\n';
    } else {
      FirstLineEnds(a[1..], b);
      assert (a + "\n" + b)[1..] == a[1..] + "\n" + b;
      assert (a + "\n" + b)[0] == a[0];
    }
  }

  /** What Save writes, Load reads back. */
  lemma {:induction false} StatsRoundTrip(runs: int, average: int)
    ensures ParseStats(StatsLine(runs, average)) == (runs, average) && StatsLine(runs, average) != ""
  {
    var tail := " " + Signed(average);
    var line := Signed(runs) + tail;
    SignedStarts(runs);
    SignedStarts(average);
    FirstLineEnds(line, "");
    assert StatsLine(runs, average) == line + "\n" + "";
    StrtolSigned(runs, tail);
    StrtolAfterSpace(average);
  }

  lemma {:induction false} StrtolAfterSpace(n: int)
    ensures Strtol(" " + Signed(n)).0 == n
  {
    SignedStarts(n);
    StrtolSigned(n, "");
    assert (" " + Signed(n))[1..] == Signed(n) == Signed(n) + "";
    assert SkipSpaces(" " + Signed(n)) == SkipSpaces(Signed(n));
  }

  // ----- one bugreport

  /** Progress with a growth factor of `num / den`. */
  class Progress {
    const num: nat
    const den: nat
    var initialMax: int
    var progress: int
    var max: int
    var nRuns: int
    var averageMax: int

    ghost predicate Valid()
      reads this
    {
      num >= den > 0 && 0 <= progress <= max && max > 0
    }

    /** `content` is the stats file's text, or nothing when it cannot be read. */
    constructor (num: nat, den: nat, content: Option<string>)
      requires num >= den > 0
      ensures Valid() && progress == 0 && this.num == num && this.den == den
      ensures initialMax == max
      ensures (nRuns, averageMax) == Loaded(content) && max == Estimate(content)
    {
      this.num, this.den := num, den;
      initialMax, progress, max, nRuns, averageMax := DEFAULT_MAX, 0, DEFAULT_MAX, 0, 0;
      new;
      if content.Some? && content.value != "" {
        var first := Strtol(FirstLine(content.value));
        nRuns, averageMax := first.0, Strtol(first.1).0;
        if nRuns <= 0 || averageMax <= 0 || nRuns > STATS_MAX_N_RUNS || averageMax > STATS_MAX_AVERAGE {
          initialMax := DEFAULT_MAX;
        } else {
          initialMax := averageMax;
        }
        max := initialMax;
      }
    }

    /** The new maximum is the progress times the growth factor, rounded down. */
    method Inc(delta: int) returns (changed: bool)
      requires Valid()
      modifies this`progress, this`max
      ensures Valid() && (progress, max) == Advanced(num, den, old(progress), old(max), delta)
      ensures changed <==> delta >= 0 && old(progress) + delta > old(max)
      ensures changed ==> max * den <= progress * num < max * den + den
      ensures !changed ==> max == old(max)
    {
      changed := false;
      if delta >= 0 {
        progress := progress + delta;
        if progress > max {
          GrowthCovers(num, den, progress);
          max := progress * num / den;
          changed := true;
        }
      }
    }

    /** The stats file's new text; with -1 runs on file the source divides by zero and there is none. */
    method Save() returns (content: Option<string>)
      ensures content == Saved(nRuns, averageMax, progress) && (content == None <==> nRuns == -1)
      ensures content.Some? ==>
                ParseStats(content.value) == (nRuns + 1, FloorDiv(nRuns * averageMax + progress, nRuns + 1))
    {
      var total := nRuns * averageMax + progress;
      var runs := nRuns + 1;
      if runs == 0 {
        return None;
      }
      var average := FloorDiv(total, runs);
      StatsRoundTrip(runs, average);
      content := Some(StatsLine(runs, average));
    }
  }

  /** Division rounded down. */
  function FloorDiv(a: int, b: int): (q: int)
    requires b != 0
    ensures b > 0 ==> q * b <= a < q * b + b
    ensures b < 0 ==> q * b + b < a <= q * b
  {
    if b > 0 then a / b else (-a) / (-b)
  }

  function Advanced(num: nat, den: nat, progress: int, max: int, delta: int): (int, int)
    requires den > 0
  {
    if delta < 0 then (progress, max)
    else if progress + delta <= max then (progress + delta, max)
    else (progress + delta, (progress + delta) * num / den)
  }

  lemma {:induction false} GrowthCovers(num: nat, den: nat, p: int)
    requires num >= den > 0 && p >= 0
    ensures p * num / den >= p
  {
    assert p * num >= p * den;
    DivAtLeast(p * num, p, den);
  }

  /** A maximum that has just grown covers the progress exactly when the growth factor is at least one. */
  lemma {:induction false} GrowthFactorMatters(num: nat, den: nat, p: int)
    requires den > 0 && p > 0
    ensures p * num / den >= p <==> num >= den
  {
    if num >= den {
      GrowthCovers(num, den, p);
    } else {
      MulBelow(p, num, den);
      DivBelow(p * num, p, den);
    }
  }

  // ----- which percentages are reported

  /** The estimate, the last percentage reported and all of them, in order. */
  datatype Meter = Meter(progress: int, max: int, last: int, reported: seq<int>)

  function Percent(progress: int, max: int): int
    requires max > 0
  {
    100 * progress / max
  }

  function Updated(num: nat, den: nat, m: Meter, delta: int, notify: bool): Meter
    requires den > 0 && m.max > 0
  {
    var (progress, max) := Advanced(num, den, m.progress, m.max, delta);
    if !notify || max <= 0 || (m.last > 0 && Percent(progress, max) <= m.last) then m.(progress := progress, max := max)
    else Meter(progress, max, Percent(progress, max), m.reported + [Percent(progress, max)])
  }

  /** Percentages in 0..100 that, once positive, only go up. */
  ghost predicate Rising(s: seq<int>) {
    && (forall i :: 0 <= i < |s| ==> 0 <= s[i] <= 100)
    && (forall i, j :: 0 <= i < j < |s| ==> s[i] == 0 || s[i] < s[j])
  }

  ghost predicate Good(m: Meter) {
    && 0 <= m.progress <= m.max && m.max > 0 && Rising(m.reported)
    && m.last == if m.reported == [] then 0 else m.reported[|m.reported| - 1]
  }

  lemma {:induction false} PercentInRange(progress: int, max: int)
    requires 0 <= progress <= max && max > 0
    ensures 0 <= Percent(progress, max) <= 100
  {
    DivAtMost(100 * progress, 100, max);
    DivAtLeast(100 * progress, 0, max);
  }

  lemma {:induction false} UpdateKeepsGood(num: nat, den: nat, m: Meter, delta: int, notify: bool)
    requires num >= den > 0 && Good(m)
    ensures Good(Updated(num, den, m, delta, notify))
    ensures Updated(num, den, m, delta, notify).max >= m.max
  {
    var (progress, max) := Advanced(num, den, m.progress, m.max, delta);
    if delta >= 0 {
      GrowthCovers(num, den, m.progress + delta);
    }
    PercentInRange(progress, max);
    hide Percent;
    var s, percent := m.reported, Percent(progress, max);
    if notify && !(m.last > 0 && percent <= m.last) {
      forall i | 0 <= i < |s|
        ensures s[i] == 0 || s[i] < percent
      {
        assert i < |s| - 1 ==> s[i] == 0 || s[i] < s[|s| - 1];
      }
    }
  }

  /**
    An update reports exactly if reports are asked for and none was positive
    yet or a whole percent was gained since the last; what it reports is the
    share of the maximum reached, in percent, rounded down.
   */
  lemma {:induction false} ReportsExactly(num: nat, den: nat, m: Meter, delta: int, notify: bool)
    requires num >= den > 0 && Good(m)
    ensures var r := Updated(num, den, m, delta, notify);
            && r.progress == m.progress + (if delta >= 0 then delta else 0)
            && (r.reported != m.reported <==> notify && (m.last == 0 || 100 * r.progress >= (m.last + 1) * r.max))
            && (r.reported != m.reported ==>
                  r.reported == m.reported + [r.last] && r.last * r.max <= 100 * r.progress < (r.last + 1) * r.max)
            && (r.reported == m.reported ==> r.last == m.last)
  {
    var r := Updated(num, den, m, delta, notify);
    UpdateKeepsGood(num, den, m, delta, notify);
    hide Rising;
    PercentRounds(r.progress, r.max, m.last + 1);
  }

  lemma {:induction false} PercentRounds(progress: int, max: int, p: int)
    requires max > 0
    ensures Percent(progress, max) * max <= 100 * progress < (Percent(progress, max) + 1) * max
    ensures Percent(progress, max) >= p <==> 100 * progress >= p * max
  {
    if 100 * progress >= p * max {
      DivAtLeast(100 * progress, p, max);
    } else {
      DivBelow(100 * progress, p, max);
    }
  }

  function Run(num: nat, den: nat, m: Meter, updates: seq<(int, bool)>): Meter
    requires num >= den > 0 && Good(m)
    ensures Good(Run(num, den, m, updates))
  {
    if updates == [] then m
    else
      var n := |updates| - 1;
      var before := Run(num, den, m, updates[..n]);
      UpdateKeepsGood(num, den, before, updates[n].0, updates[n].1);
      Updated(num, den, before, updates[n].0, updates[n].1)
  }

  /** Over any updates: the maximum covers the progress, and the reported percentages rise. */
  lemma {:induction false} ReportsRise(num: nat, den: nat, max: int, updates: seq<(int, bool)>)
    requires num >= den > 0 && max > 0
    ensures var m := Run(num, den, Meter(0, max, 0, []), updates);
            && 0 <= m.progress <= m.max && max <= m.max
            && (forall i :: 0 <= i < |m.reported| ==> 0 <= m.reported[i] <= 100)
            && (forall i, j :: 0 <= i < j < |m.reported| && m.reported[i] > 0 ==> m.reported[i] < m.reported[j])
            && m.progress == SumOf(updates)
    decreases |updates|
  {
    if updates != [] {
      var n := |updates| - 1;
      ReportsRise(num, den, max, updates[..n]);
      UpdateKeepsGood(num, den, Run(num, den, Meter(0, max, 0, []), updates[..n]), updates[n].0, updates[n].1);
    }
  }

  /** The deltas that count: negative ones are ignored. */
  function SumOf(updates: seq<(int, bool)>): int {
    if updates == [] then 0
    else
      var delta := updates[|updates| - 1].0;
      SumOf(updates[..|updates| - 1]) + if delta >= 0 then delta else 0
  }

  /** The part of Dumpstate that reports; `reported` is what the listener was told. */
  class Dumpstate {
    const progress: Progress?
    const notify: bool
    var last: int
    var reported: seq<int>

    ghost predicate Valid()
      reads this, progress
    {
      progress != null && progress.Valid() && Good(Value())
    }

    function Value(): Meter
      requires progress != null
      reads this, progress
    {
      Meter(progress.progress, progress.max, last, reported)
    }

    method UpdateProgress(delta: int)
      requires progress != null ==> Valid()
      modifies this`last, this`reported, progress
      ensures progress != null ==> unchanged(progress`initialMax, progress`nRuns, progress`averageMax)
      ensures progress == null ==> last == old(last) && reported == old(reported)
      ensures progress != null ==>
                Valid() && Value() == Updated(progress.num, progress.den, old(Value()), delta, notify)
    {
      if progress == null {
        return;
      }
      UpdateKeepsGood(progress.num, progress.den, Value(), delta, notify);
      var changed := progress.Inc(delta);
      if !notify {
        return;
      }
      var percent := 100 * progress.progress / progress.max;
      if last > 0 && percent <= last {
        return;
      }
      last := percent;
      reported := reported + [percent];
    }
  }

  // ----- the average over many bugreports

  function Sum(ps: seq<nat>): nat {
    if ps == [] then 0 else Sum(ps[..|ps| - 1]) + ps[|ps| - 1]
  }

  /** The number of runs and the average taken from a stats file. */
  function Loaded(content: Option<string>): (int, int) {
    if content.Some? && content.value != "" then ParseStats(content.value) else (0, 0)
  }

  predicate InRange(nRuns: int, averageMax: int) {
    0 < nRuns <= STATS_MAX_N_RUNS && 0 < averageMax <= STATS_MAX_AVERAGE
  }

  /** The maximum a bugreport starts with. */
  function Estimate(content: Option<string>): int {
    var (nRuns, averageMax) := Loaded(content);
    if InRange(nRuns, averageMax) then averageMax else DEFAULT_MAX
  }

  function Saved(nRuns: int, averageMax: int, progress: int): Option<string> {
    if nRuns == -1 then None
    else Some(StatsLine(nRuns + 1, FloorDiv(nRuns * averageMax + progress, nRuns + 1)))
  }

  lemma {:induction false} SpacesSkipped(blanks: string, rest: string)
    requires forall k :: 0 <= k < |blanks| ==> IsSpace(blanks[k]) && blanks[k] != '\n'
    ensures SkipSpaces(blanks + rest) == SkipSpaces(rest) && FirstLine(blanks + rest) == blanks + FirstLine(rest)
  {
    if blanks == "" {
      assert blanks + rest == rest && blanks + FirstLine(rest) == FirstLine(rest);
    } else {
      SpacesSkipped(blanks[1..], rest);
      assert (blanks + rest)[1..] == blanks[1..] + rest && (blanks + rest)[0] == blanks[0];
    }
  }

  /** A stats file that does not begin with a number counts no runs and gives the default estimate. */
  lemma {:induction false} NoNumberNoRuns(blanks: string, rest: string)
    requires forall k :: 0 <= k < |blanks| ==> IsSpace(blanks[k]) && blanks[k] != '\n'
    requires rest != "" ==> rest[0] == '\n' || !(IsSpace(rest[0]) || IsDigit(rest[0]) || rest[0] in {'-', '+'})
    ensures Loaded(Some(blanks + rest)).0 == 0 && Estimate(Some(blanks + rest)) == 5000
  {
    SpacesSkipped(blanks, rest);
    SpacesSkipped(blanks, FirstLine(rest));
  }

  /** Bugreports that end with progress `ps` can all be saved, when the file first holds `first`. */
  ghost predicate AllSaved(first: Option<string>, ps: seq<nat>)
    decreases |ps|, 0
  {
    ps != [] ==> AllSaved(first, ps[..|ps| - 1]) && Loaded(StatsFile(first, ps[..|ps| - 1])).0 != -1
  }

  /** The stats file after them. */
  ghost function StatsFile(first: Option<string>, ps: seq<nat>): Option<string>
    requires AllSaved(first, ps)
    decreases |ps|, 1
  {
    if ps == [] then first
    else
      var (nRuns, averageMax) := Loaded(StatsFile(first, ps[..|ps| - 1]));
      Saved(nRuns, averageMax, ps[|ps| - 1])
  }

  /** Whatever is on file, the next save counts one run more than what was read. */
  lemma {:induction false} SavedParses(n: int, a: int, p: int)
    requires n != -1
    ensures Loaded(Saved(n, a, p)) == (n + 1, FloorDiv(n * a + p, n + 1))
  {
    hide StatsLine, ParseStats, FloorDiv;
    StatsRoundTrip(n + 1, FloorDiv(n * a + p, n + 1));
  }

  lemma {:induction false} RunsAreCounted(first: Option<string>, ps: seq<nat>)
    requires AllSaved(first, ps)
    ensures Loaded(StatsFile(first, ps)).0 == Loaded(first).0 + |ps|
    decreases |ps|
  {
    hide Loaded, Saved, FloorDiv;
    if ps != [] {
      var before := ps[..|ps| - 1];
      RunsAreCounted(first, before);
      var (n, a) := Loaded(StatsFile(first, before));
      SavedParses(n, a, ps[|ps| - 1]);
    }
  }

  /** A number of bugreports can be saved exactly when the count on file does not pass through -1. */
  lemma {:induction false} SavedExactly(first: Option<string>, ps: seq<nat>)
    ensures AllSaved(first, ps) <==> Loaded(first).0 >= 0 || Loaded(first).0 + |ps| < 0
    decreases |ps|
  {
    hide Loaded;
    if ps != [] {
      var before := ps[..|ps| - 1];
      SavedExactly(first, before);
      if AllSaved(first, before) {
        RunsAreCounted(first, before);
      }
    }
  }

  /** Saving never divides by zero, however many bugreports follow, exactly when the count on file is not negative. */
  lemma {:induction false} AlwaysSavedExactly(first: Option<string>)
    ensures (forall ps: seq<nat> :: AllSaved(first, ps)) <==> Loaded(first).0 >= 0
  {
    hide Loaded;
    var n := Loaded(first).0;
    if n >= 0 {
      forall ps: seq<nat>
        ensures AllSaved(first, ps)
      {
        SavedExactly(first, ps);
      }
    } else {
      var ps: seq<nat> := seq(-n, i => 0);
      SavedExactly(first, ps);
    }
  }

  /** A stats file that makes the next save divide by zero. */
  lemma {:induction false} MinusOneRuns()
    ensures Loaded(Some("-1 5\n")) == (-1, 5) && forall p: nat :: !AllSaved(Some("-1 5\n"), [p])
  {
    assert Signed(-1) == "-1" && Signed(5) == "5";
    assert StatsLine(-1, 5) == "-1 5\n";
    StatsRoundTrip(-1, 5);
    forall p: nat
      ensures !AllSaved(Some("-1 5\n"), [p])
    {
      hide Loaded, ParseStats;
      SavedExactly(Some("-1 5\n"), [p]);
    }
  }

  /** What is on file leaves no trace in the next average exactly when it counts no runs. */
  lemma {:induction false} LeavesNoTraceExactly(n: int, a: int)
    ensures (forall p: int :: Saved(n, a, p) == Saved(0, 0, p)) <==> n == 0
  {
    hide Loaded, FloorDiv, StatsLine;
    if n == 0 {
      forall p: int
        ensures Saved(n, a, p) == Saved(0, 0, p)
      {
        assert n * a + p == 0 * 0 + p;
      }
    } else {
      if n != -1 {
        SavedParses(n, a, 0);
      }
      SavedParses(0, 0, 0);
      assert Saved(n, a, 0) != Saved(0, 0, 0);
    }
  }

  /** A line that Load rejects as out of range still enters the average. */
  lemma {:induction false} InvalidLineCounts()
    ensures Loaded(Some("2000 7\n")) == (2000, 7) && Estimate(Some("2000 7\n")) == DEFAULT_MAX
    ensures Loaded(Saved(2000, 7, 2008)) == (2001, 8) && Loaded(Saved(0, 0, 2008)) == (1, 2008)
  {
    LargeCountLine();
    StatsRoundTrip(2000, 7);
    hide StatsLine, ParseStats, Saved;
    SavedParses(2000, 7, 2008);
    SavedParses(0, 0, 2008);
  }

  lemma {:induction false} LargeCountLine()
    ensures StatsLine(2000, 7) == "2000 7\n"
  {
    assert Decimal(2) == "2" && Decimal(20) == "20";
    assert Decimal(200) == "200";
    assert Decimal(2000) == "2000";
    assert Decimal(7) == "7";
  }

  /** How much is lost by rounding down: at most 0 + 1 + ... + (n - 1). */
  ghost predicate CloseAverage(ps: seq<nat>, average: int) {
    && |ps| * average <= Sum(ps)
    && 2 * (Sum(ps) - |ps| * average) <= |ps| * (|ps| - 1)
  }

  lemma {:induction false} OneMoreRun(n: nat, a: nat, p: nat, sum: nat)
    requires n * a <= sum && 2 * (sum - n * a) <= n * (n - 1)
    ensures var b := FloorDiv(n * a + p, n + 1);
            b >= 0 && (n + 1) * b <= sum + p && 2 * (sum + p - (n + 1) * b) <= (n + 1) * n
  {
    var total := n * a + p;
    assert total >= 0;
    DivAtLeast(total, 0, n + 1);
    var b, r := total / (n + 1), total % (n + 1);
    assert total == (n + 1) * b + r && 0 <= r <= n;
    assert (n + 1) * n == n * (n - 1) + 2 * n;
  }

  /**
    After n bugreports the stats file holds n and an average that is at most the
    true mean of their progress, and less than it by at most (n - 1) / 2.
   */
  lemma {:induction false} AverageIsClose(ps: seq<nat>)
    ensures AllSaved(None, ps)
    ensures var (runs, average) := Loaded(StatsFile(None, ps));
            runs == |ps| && average >= 0 && CloseAverage(ps, average)
    decreases |ps|
  {
    SavedExactly(None, ps);
    hide Saved, FloorDiv;
    if ps != [] {
      var before, p := ps[..|ps| - 1], ps[|ps| - 1];
      AverageIsClose(before);
      var (n, a) := Loaded(StatsFile(None, before));
      hide Loaded;
      OneMoreRun(n, a, p, Sum(before));
      SavedParses(n, a, p);
    }
  }

  /**
    A bugreport starts from the saved average exactly as long as at most 1000
    were saved and their average is in range; the count on file never comes
    back, so after more of them the estimate is the default for good.
   */
  lemma {:induction false} EstimateGivesUp(first: Option<string>, ps: seq<nat>)
    requires Loaded(first).0 >= 0
    ensures AllSaved(first, ps)
    ensures Loaded(first).0 + |ps| > STATS_MAX_N_RUNS ==> Estimate(StatsFile(first, ps)) == DEFAULT_MAX
    ensures var average := Loaded(StatsFile(first, ps)).1;
            Estimate(StatsFile(first, ps)) ==
            if 0 < Loaded(first).0 + |ps| <= STATS_MAX_N_RUNS && 0 < average <= STATS_MAX_AVERAGE
            then average else DEFAULT_MAX
  {
    hide Loaded;
    SavedExactly(first, ps);
    RunsAreCounted(first, ps);
  }
}
