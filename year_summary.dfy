/** The year screen: worked days grouped by month, one row per populated
    month sorted by month key, and a TOTAL row folded over the rows. */
module YearSummary {
  import opened Dates
  import Finance

  datatype MonthRow = MonthRow(month: string, workedDays: nat, gross: real, net: real, taxes: real)

  const TotalLabel: string := "TOTAL"

  /** Every worked entry is a day `format` can read (it throws on any other). */
  predicate ParsableWorkedDays(m: map<string, bool>)
  {
    forall d :: d in m && m[d] ==> IsDate(d)
  }

  /** The dates whose value is true. */
  function TrueDays(m: map<string, bool>): set<string>
  {
    set d | d in m && m[d]
  }

  /** The worked days among `dates` that fall in month `k`. */
  function WorkedIn(m: map<string, bool>, dates: set<string>, k: string): set<string>
  {
    set d | d in dates && d in m && m[d] && IsDate(d) && MonthKey(d) == k
  }

  /** The month keys of the worked days among `dates`. */
  function MonthsOf(m: map<string, bool>, dates: set<string>): set<string>
  {
    set d | d in dates && d in m && m[d] && IsDate(d) :: MonthKey(d)
  }

  /** Worked-day count per month, over the entries in `dates`. */
  function CountsOver(m: map<string, bool>, dates: set<string>): map<string, nat>
  {
    map k | k in MonthsOf(m, dates) :: |WorkedIn(m, dates, k)|
  }

  /** The `months` dictionary the screen builds from all entries. */
  function MonthCounts(m: map<string, bool>): map<string, nat>
  {
    CountsOver(m, m.Keys)
  }

  lemma MonthsOfStep(m: map<string, bool>, dates: set<string>, d: string)
    requires d in m
    ensures m[d] && IsDate(d) ==> MonthsOf(m, dates + {d}) == MonthsOf(m, dates) + {MonthKey(d)}
    ensures !(m[d] && IsDate(d)) ==> MonthsOf(m, dates + {d}) == MonthsOf(m, dates)
  {
  }

  lemma WorkedInStep(m: map<string, bool>, dates: set<string>, d: string, k: string)
    requires d in m && d !in dates
    ensures m[d] && IsDate(d) && MonthKey(d) == k ==>
      WorkedIn(m, dates + {d}, k) == WorkedIn(m, dates, k) + {d} && d !in WorkedIn(m, dates, k)
    ensures !(m[d] && IsDate(d) && MonthKey(d) == k) ==> WorkedIn(m, dates + {d}, k) == WorkedIn(m, dates, k)
  {
  }

  lemma PopulatedMonthListed(m: map<string, bool>, dates: set<string>, k: string)
    ensures WorkedIn(m, dates, k) != {} ==> k in MonthsOf(m, dates)
  {
  }

  /** The month of one more worked entry `d` grows by exactly that entry. */
  lemma WorkedMonthGrows(m: map<string, bool>, dates: set<string>, d: string)
    requires d in m && d !in dates && m[d] && IsDate(d)
    ensures |WorkedIn(m, dates + {d}, MonthKey(d))| ==
      (if MonthKey(d) in MonthsOf(m, dates) then |WorkedIn(m, dates, MonthKey(d))| else 0) + 1
  {
    var k := MonthKey(d);
    WorkedInStep(m, dates, d, k);
    PopulatedMonthListed(m, dates, k);
    if k !in MonthsOf(m, dates) {
      assert WorkedIn(m, dates + {d}, k) == {d};
    }
  }

  /** One more worked entry `d` adds one to its month's count. */
  lemma CountsOverWorkedStep(m: map<string, bool>, dates: set<string>, d: string)
    requires d in m && d !in dates && m[d] && IsDate(d)
    ensures var c := CountsOver(m, dates);
      var k := MonthKey(d);
      CountsOver(m, dates + {d}) == c[k := (if k in c then c[k] else 0) + 1]
  {
    var c, c' := CountsOver(m, dates), CountsOver(m, dates + {d});
    var k := MonthKey(d);
    var expected := c[k := (if k in c then c[k] else 0) + 1];
    MonthsOfStep(m, dates, d);
    assert c'.Keys == expected.Keys;
    WorkedMonthGrows(m, dates, d);
    assert c'[k] == expected[k];
    forall j | j in c' && j != k ensures c'[j] == expected[j] {
      WorkedInStep(m, dates, d, j);
    }
    assert c' == expected;
  }

  /** One more entry whose value is false leaves the counts alone. */
  lemma CountsOverIdleStep(m: map<string, bool>, dates: set<string>, d: string)
    requires d in m && d !in dates && !m[d]
    ensures CountsOver(m, dates + {d}) == CountsOver(m, dates)
  {
    var c, c' := CountsOver(m, dates), CountsOver(m, dates + {d});
    MonthsOfStep(m, dates, d);
    forall j | j in c' ensures c'[j] == c[j] {
      WorkedInStep(m, dates, d, j);
    }
  }

  /** `months[monthKey] = (months[monthKey] || 0) + 1`. */
  function Bump(months: map<string, nat>, k: string): (r: map<string, nat>)
    ensures r.Keys == months.Keys + {k}
    ensures r[k] == (if k in months then months[k] else 0) + 1
    ensures forall j :: j in months && j != k ==> r[j] == months[j]
  {
    months[k := (if k in months then months[k] else 0) + 1]
  }

  /** One visited entry: a worked day bumps its month, any other entry is skipped. */
  lemma CountStep(m: map<string, bool>, seen: set<string>, d: string)
    requires ParsableWorkedDays(m) && d in m && d !in seen
    ensures CountsOver(m, seen + {d}) ==
      if m[d] then Bump(CountsOver(m, seen), MonthKey(d)) else CountsOver(m, seen)
  {
    if m[d] {
      CountsOverWorkedStep(m, seen, d);
    } else {
      CountsOverIdleStep(m, seen, d);
    }
  }

  /** The counting loop: visits the entries in an unspecified order (that of
      `Object.entries`) and bumps the month of each worked day. */
  method CountWorkedDays(workDays: map<string, bool>) returns (months: map<string, nat>)
    requires ParsableWorkedDays(workDays)
    ensures months == MonthCounts(workDays)
  {
    months := map[];
    var pending := workDays.Keys;
    ghost var seen: set<string> := {};
    assert MonthsOf(workDays, seen) == {};
    while pending != {}
      invariant pending !! seen && pending + seen == workDays.Keys
      invariant months == CountsOver(workDays, seen)
      decreases |pending|
    {
      var d :| d in pending;
      assert d in workDays && d !in seen;
      CountStep(workDays, seen, d);
      if workDays[d] {
        months := Bump(months, MonthKey(d));
      }
      pending := pending - {d};
      seen := seen + {d};
    }
    assert seen == workDays.Keys;
  }

  /** A month appears in the dictionary exactly when it has a worked day, with
      the number of its worked days; no month is counted as zero. */
  lemma MonthCountsExact(m: map<string, bool>, k: string)
    ensures k in MonthCounts(m) <==> WorkedIn(m, m.Keys, k) != {}
    ensures k in MonthCounts(m) ==> MonthCounts(m)[k] == |WorkedIn(m, m.Keys, k)| >= 1
  {
    if WorkedIn(m, m.Keys, k) != {} {
      var d :| d in WorkedIn(m, m.Keys, k);
      assert MonthKey(d) in MonthsOf(m, m.Keys);
    }
    if k in MonthCounts(m) {
      var d :| d in m && m[d] && IsDate(d) && MonthKey(d) == k;
      assert d in WorkedIn(m, m.Keys, k);
    }
  }

  /** A worked day of any year is counted under its own month. */
  lemma EveryWorkedDayCounted(m: map<string, bool>, d: string)
    requires d in m && m[d] && IsDate(d)
    ensures MonthKey(d) in MonthCounts(m)
    ensures d in WorkedIn(m, m.Keys, MonthKey(d))
  {
  }

  /** An entry whose value is false contributes nothing: the counts are those
      of the map without it. */
  lemma FalseEntryIgnored(m: map<string, bool>, d: string)
    requires d in m && !m[d]
    ensures MonthCounts(m) == MonthCounts(m - {d})
  {
    var m' := m - {d};
    assert MonthsOf(m, m.Keys) == MonthsOf(m', m'.Keys);
    forall k ensures WorkedIn(m, m.Keys, k) == WorkedIn(m', m'.Keys, k) { }
  }

  /** The row the screen derives for a month with `count` worked days. */
  function RowFor(month: string, count: nat, rate: real): (r: MonthRow)
    ensures r.month == month && r.workedDays == count && r.gross == Finance.Earnings(count, rate)
    ensures r.net + r.taxes == r.gross
    ensures r.net == Finance.CalculateNetFromGross(r.gross).net
    ensures r.taxes == Finance.Taxes(Finance.CalculateNetFromGross(r.gross))
  {
    var gross := Finance.Earnings(count, rate);
    var t := Finance.CalculateNetFromGross(gross);
    MonthRow(month, count, gross, t.net, t.substituteTax + t.inpsContribution)
  }

  /** The keys of `months`, in the unspecified order `Object.entries` uses. */
  method MonthEntries(months: map<string, nat>) returns (keys: seq<string>)
    ensures forall i, j :: 0 <= i < j < |keys| ==> keys[i] != keys[j]
    ensures forall k :: k in keys <==> k in months
  {
    keys := [];
    var pending := months.Keys;
    while pending != {}
      invariant forall i, j :: 0 <= i < j < |keys| ==> keys[i] != keys[j]
      invariant forall k :: k in keys <==> k in months && k !in pending
      invariant pending <= months.Keys
      decreases |pending|
    {
      var k :| k in pending;
      keys := keys + [k];
      pending := pending - {k};
    }
  }

  /** `x` does not come after `y` under the sort's comparator. */
  predicate NotAfter(x: MonthRow, y: MonthRow)
  {
    !LexLess(y.month, x.month)
  }

  predicate AdjacentSorted(s: seq<MonthRow>)
  {
    forall i :: 0 < i < |s| ==> NotAfter(s[i - 1], s[i])
  }

  predicate StrictlyIncreasing(s: seq<MonthRow>)
  {
    forall i, j :: 0 <= i < j < |s| ==> LexLess(s[i].month, s[j].month)
  }

  /** Neighbours in `s[lo..hi]` are in order. */
  predicate SortedBetween(s: seq<MonthRow>, lo: nat, hi: nat)
    requires lo <= hi <= |s|
  {
    forall k :: lo < k < hi ==> NotAfter(s[k - 1], s[k])
  }

  /** `summaryData.sort((a, b) => a.month.localeCompare(b.month))`, in place
      (by insertion). */
  method SortByMonth(a: array<MonthRow>)
    modifies a
    ensures AdjacentSorted(a[..])
    ensures multiset(a[..]) == multiset(old(a[..]))
  {
    if a.Length == 0 { return; }
    var i := 1;
    while i < a.Length
      invariant 1 <= i <= a.Length
      invariant SortedBetween(a[..], 0, i)
      invariant multiset(a[..]) == multiset(old(a[..]))
    {
      InsertAt(a, i);
      i := i + 1;
    }
  }

  /** One swap of the insertion: the out-of-order element moves one place
      left and the two sorted runs move with it. */
  lemma SwapStep(s: seq<MonthRow>, i: nat, j: nat)
    requires 0 < j <= i < |s|
    requires SortedBetween(s, 0, j) && SortedBetween(s, j, i + 1)
    requires j < i ==> NotAfter(s[j - 1], s[j + 1])
    requires LexLess(s[j].month, s[j - 1].month)
    ensures var t := s[j - 1 := s[j]][j := s[j - 1]];
      && SortedBetween(t, 0, j - 1) && SortedBetween(t, j - 1, i + 1)
      && (0 < j - 1 ==> NotAfter(t[j - 2], t[j]))
      && multiset(t) == multiset(s)
  {
    LexLessAsymmetric(s[j].month, s[j - 1].month);
  }

  /** The insertion stops where its element is not before its left neighbour. */
  lemma InsertDone(s: seq<MonthRow>, i: nat, j: nat)
    requires j <= i < |s|
    requires SortedBetween(s, 0, j) && SortedBetween(s, j, i + 1)
    requires j > 0 ==> !LexLess(s[j].month, s[j - 1].month)
    ensures SortedBetween(s, 0, i + 1)
  {
  }

  /** Moves `a[i]` left into the sorted prefix `a[..i]`. */
  method InsertAt(a: array<MonthRow>, i: nat)
    requires 0 < i < a.Length && SortedBetween(a[..], 0, i)
    modifies a
    ensures SortedBetween(a[..], 0, i + 1)
    ensures multiset(a[..]) == multiset(old(a[..]))
  {
    var j := i;
    while j > 0 && LexLess(a[j].month, a[j - 1].month)
      invariant 0 <= j <= i
      invariant SortedBetween(a[..], 0, j) && SortedBetween(a[..], j, i + 1)
      invariant 0 < j < i ==> NotAfter(a[j - 1], a[j + 1])
      invariant multiset(a[..]) == multiset(old(a[..]))
      decreases j
    {
      ghost var s := a[..];
      SwapStep(s, i, j);
      a[j - 1], a[j] := a[j], a[j - 1];
      assert a[..] == s[j - 1 := s[j]][j := s[j - 1]];
      j := j - 1;
    }
    InsertDone(a[..], i, j);
  }

  /** The month keys the rows carry. */
  function MonthsIn(s: seq<MonthRow>): set<string>
  {
    set r | r in s :: r.month
  }

  /** What the screen's summary list is for `workDays` at `rate`: one row per
      populated month, with that month's count, strictly increasing by key. */
  predicate IsSummaryOf(summary: seq<MonthRow>, workDays: map<string, bool>, rate: real)
  {
    && StrictlyIncreasing(summary)
    && MonthsIn(summary) == MonthCounts(workDays).Keys
    && forall i :: 0 <= i < |summary| ==>
         summary[i].month in MonthCounts(workDays) &&
         summary[i] == RowFor(summary[i].month, MonthCounts(workDays)[summary[i].month], rate)
  }

  lemma {:induction false} DistinctAtMostOnce(s: seq<MonthRow>, x: MonthRow)
    requires forall i, j :: 0 <= i < j < |s| ==> s[i] != s[j]
    ensures multiset(s)[x] <= 1
  {
    if s != [] {
      var n := |s| - 1;
      assert s == s[..n] + [s[n]];
      DistinctAtMostOnce(s[..n], x);
      if x == s[n] {
        assert x !in s[..n];
      }
    }
  }

  lemma RepeatedTwice(s: seq<MonthRow>, i: nat, j: nat)
    requires i < j < |s| && s[i] == s[j]
    ensures multiset(s)[s[i]] >= 2
  {
    assert s == s[..j] + s[j..];
    assert s[i] in s[..j] && s[j] in s[j..];
  }

  lemma {:induction false} AdjacentStrictIsStrict(s: seq<MonthRow>)
    requires forall i :: 0 < i < |s| ==> LexLess(s[i - 1].month, s[i].month)
    ensures StrictlyIncreasing(s)
  {
    if |s| > 1 {
      AdjacentStrictIsStrict(s[1..]);
      forall j | 1 < j < |s| ensures LexLess(s[0].month, s[j].month) {
        assert LexLess(s[1..][0].month, s[1..][j - 1].month);
        LexLessTransitive(s[0].month, s[1].month, s[j].month);
      }
    }
  }

  /** `Object.entries(months).map(...)`: one row per key, in the order given. */
  function RowsOf(keys: seq<string>, months: map<string, nat>, rate: real): (rows: seq<MonthRow>)
    requires forall k :: k in keys ==> k in months
    ensures |rows| == |keys|
    ensures forall i :: 0 <= i < |keys| ==> rows[i] == RowFor(keys[i], months[keys[i]], rate)
  {
    seq(|keys|, i requires 0 <= i < |keys| => RowFor(keys[i], months[keys[i]], rate))
  }

  /** Every row of a reordering of the rows belongs to a month of `months`
      and is that month's row; all months are still there. */
  lemma PermutedRowsMatch(keys: seq<string>, months: map<string, nat>, rate: real, t: seq<MonthRow>)
    requires forall k :: k in keys <==> k in months
    requires multiset(t) == multiset(RowsOf(keys, months, rate))
    ensures forall i :: 0 <= i < |t| ==> t[i].month in months && t[i] == RowFor(t[i].month, months[t[i].month], rate)
    ensures MonthsIn(t) == months.Keys
  {
    var rows := RowsOf(keys, months, rate);
    forall i | 0 <= i < |t|
      ensures t[i].month in months && t[i] == RowFor(t[i].month, months[t[i].month], rate)
    {
      assert t[i] in multiset(rows);
      var p :| 0 <= p < |rows| && rows[p] == t[i];
    }
    forall k | k in months ensures k in MonthsIn(t) {
      var p :| 0 <= p < |keys| && keys[p] == k;
      assert rows[p] in multiset(t);
      assert rows[p] in t;
    }
  }

  /** A sorted reordering of rows built from distinct keys is strictly
      increasing: neighbours with one key would be one row occurring twice. */
  lemma PermutedRowsStrict(keys: seq<string>, months: map<string, nat>, rate: real, t: seq<MonthRow>)
    requires forall i, j :: 0 <= i < j < |keys| ==> keys[i] != keys[j]
    requires forall k :: k in keys <==> k in months
    requires multiset(t) == multiset(RowsOf(keys, months, rate))
    requires AdjacentSorted(t)
    ensures StrictlyIncreasing(t)
  {
    var rows := RowsOf(keys, months, rate);
    forall i, j | 0 <= i < j < |rows| ensures rows[i] != rows[j] {
      assert rows[i].month == keys[i] && rows[j].month == keys[j];
    }
    PermutedRowsMatch(keys, months, rate, t);
    forall i | 0 < i < |t| ensures LexLess(t[i - 1].month, t[i].month) {
      if t[i - 1].month == t[i].month {
        RepeatedTwice(t, i - 1, i);
        DistinctAtMostOnce(rows, t[i]);
        assert false;
      }
      LexLessTotal(t[i - 1].month, t[i].month);
    }
    AdjacentStrictIsStrict(t);
  }

  /** `fetchData`'s summary: count per month, one row per month, sorted. */
  method FetchSummary(workDays: map<string, bool>, rate: real) returns (summary: seq<MonthRow>)
    requires ParsableWorkedDays(workDays)
    ensures IsSummaryOf(summary, workDays, rate)
  {
    var months := CountWorkedDays(workDays);
    var keys := MonthEntries(months);
    var rows := RowsOf(keys, months, rate);
    var a := new MonthRow[|rows|](i requires 0 <= i < |rows| => rows[i]);
    assert a[..] == rows;
    SortByMonth(a);
    summary := a[..];
    PermutedRowsMatch(keys, months, rate, summary);
    PermutedRowsStrict(keys, months, rate, summary);
  }

  // ---- The TOTAL row ----

  /** The reducer of `summary.reduce(...)`. */
  function Accumulate(acc: MonthRow, curr: MonthRow): MonthRow
  {
    MonthRow(TotalLabel, acc.workedDays + curr.workedDays, acc.gross + curr.gross,
             acc.net + curr.net, acc.taxes + curr.taxes)
  }

  /** The left fold `reduce` performs. */
  function FoldRows(acc: MonthRow, rows: seq<MonthRow>): MonthRow
    decreases |rows|
  {
    if rows == [] then acc else FoldRows(Accumulate(acc, rows[0]), rows[1..])
  }

  const ZeroTotal: MonthRow := MonthRow(TotalLabel, 0, 0.0, 0.0, 0.0)

  /** The TOTAL row of the year screen. */
  function Total(rows: seq<MonthRow>): MonthRow
  {
    FoldRows(ZeroTotal, rows)
  }

  function SumDays(rows: seq<MonthRow>): nat
  {
    if rows == [] then 0 else rows[0].workedDays + SumDays(rows[1..])
  }

  function SumGross(rows: seq<MonthRow>): real
  {
    if rows == [] then 0.0 else rows[0].gross + SumGross(rows[1..])
  }

  function SumNet(rows: seq<MonthRow>): real
  {
    if rows == [] then 0.0 else rows[0].net + SumNet(rows[1..])
  }

  function SumTaxes(rows: seq<MonthRow>): real
  {
    if rows == [] then 0.0 else rows[0].taxes + SumTaxes(rows[1..])
  }

  lemma {:induction false} FoldRowsSums(acc: MonthRow, rows: seq<MonthRow>)
    requires acc.month == TotalLabel
    decreases |rows|
    ensures FoldRows(acc, rows) == MonthRow(TotalLabel, acc.workedDays + SumDays(rows),
      acc.gross + SumGross(rows), acc.net + SumNet(rows), acc.taxes + SumTaxes(rows))
  {
    if rows != [] {
      FoldRowsSums(Accumulate(acc, rows[0]), rows[1..]);
    }
  }

  /** Each field of TOTAL is the sum of that field over the rows. */
  lemma TotalIsFieldwiseSum(rows: seq<MonthRow>)
    ensures Total(rows) == MonthRow(TotalLabel, SumDays(rows), SumGross(rows), SumNet(rows), SumTaxes(rows))
  {
    FoldRowsSums(ZeroTotal, rows);
  }

  /** Rows the screen builds at one rate. */
  predicate RowsAtRate(rows: seq<MonthRow>, rate: real)
  {
    forall i :: 0 <= i < |rows| ==> rows[i] == RowFor(rows[i].month, rows[i].workedDays, rate)
  }

  lemma {:induction false} SumGrossAtRate(rows: seq<MonthRow>, rate: real)
    requires forall i :: 0 <= i < |rows| ==> rows[i].gross == Finance.Earnings(rows[i].workedDays, rate)
    ensures SumGross(rows) == Finance.Earnings(SumDays(rows), rate)
  {
    if rows != [] {
      var rest := rows[1..];
      assert forall i :: 0 <= i < |rest| ==> rest[i] == rows[i + 1];
      SumGrossAtRate(rest, rate);
      Finance.EarningsAdd(rows[0].workedDays, SumDays(rest), rate);
    }
  }

  lemma {:induction false} SumNetAndTaxes(rows: seq<MonthRow>)
    requires forall i :: 0 <= i < |rows| ==>
      rows[i].net == Finance.CalculateNetFromGross(rows[i].gross).net &&
      rows[i].taxes == Finance.Taxes(Finance.CalculateNetFromGross(rows[i].gross))
    ensures SumNet(rows) == Finance.CalculateNetFromGross(SumGross(rows)).net
    ensures SumTaxes(rows) == Finance.Taxes(Finance.CalculateNetFromGross(SumGross(rows)))
  {
    if rows != [] {
      var rest := rows[1..];
      assert forall i :: 0 <= i < |rest| ==> rest[i] == rows[i + 1];
      SumNetAndTaxes(rest);
      Finance.Additive(rows[0].gross, SumGross(rest));
    }
  }

  lemma SumsAtRate(rows: seq<MonthRow>, rate: real)
    requires RowsAtRate(rows, rate)
    ensures SumGross(rows) == Finance.Earnings(SumDays(rows), rate)
    ensures SumNet(rows) == Finance.CalculateNetFromGross(SumGross(rows)).net
    ensures SumTaxes(rows) == Finance.Taxes(Finance.CalculateNetFromGross(SumGross(rows)))
  {
    forall i | 0 <= i < |rows|
      ensures rows[i].gross == Finance.Earnings(rows[i].workedDays, rate)
      ensures rows[i].net == Finance.CalculateNetFromGross(rows[i].gross).net
      ensures rows[i].taxes == Finance.Taxes(Finance.CalculateNetFromGross(rows[i].gross))
    {
      var r := RowFor(rows[i].month, rows[i].workedDays, rate);
      assert rows[i] == r;
    }
    SumGrossAtRate(rows, rate);
    SumNetAndTaxes(rows);
  }

  /** TOTAL keeps the per-row relations: its gross is its day count times the
      rate, net plus taxes is the gross, and summing the monthly net and taxes
      gives what the formula computes on the yearly gross. */
  lemma TotalAtRate(rows: seq<MonthRow>, rate: real)
    requires RowsAtRate(rows, rate)
    ensures Total(rows).month == TotalLabel
    ensures Total(rows).workedDays == SumDays(rows)
    ensures Total(rows).gross == Finance.Earnings(Total(rows).workedDays, rate)
    ensures Total(rows).net + Total(rows).taxes == Total(rows).gross
    ensures Total(rows).net == Finance.CalculateNetFromGross(Total(rows).gross).net
    ensures Total(rows).taxes == Finance.Taxes(Finance.CalculateNetFromGross(Total(rows).gross))
  {
    SumsAtRate(rows, rate);
    TotalIsFieldwiseSum(rows);
  }

  /** The worked days whose month is one of `ks`. */
  function DaysInMonths(m: map<string, bool>, ks: set<string>): set<string>
  {
    set d | d in m && m[d] && IsDate(d) && MonthKey(d) in ks
  }

  /** The tail of a strictly increasing list is one, and does not repeat the
      head's month. */
  lemma StrictTail(rows: seq<MonthRow>)
    requires rows != [] && StrictlyIncreasing(rows)
    ensures StrictlyIncreasing(rows[1..])
    ensures rows[0].month !in MonthsIn(rows[1..])
    ensures MonthsIn(rows) == {rows[0].month} + MonthsIn(rows[1..])
  {
    var rest := rows[1..];
    forall i, j | 0 <= i < j < |rest| ensures LexLess(rest[i].month, rest[j].month) {
      assert rest[i] == rows[i + 1] && rest[j] == rows[j + 1];
    }
    forall r | r in rest ensures r.month != rows[0].month {
      var p :| 0 <= p < |rest| && rest[p] == r;
      assert LexLess(rows[0].month, rows[p + 1].month);
      LexLessIrreflexive(rows[0].month);
    }
    assert rows == [rows[0]] + rest;
  }

  lemma DaysInMonthsSplit(m: map<string, bool>, k: string, ks: set<string>)
    requires k !in ks
    ensures DaysInMonths(m, {k} + ks) == WorkedIn(m, m.Keys, k) + DaysInMonths(m, ks)
    ensures WorkedIn(m, m.Keys, k) !! DaysInMonths(m, ks)
  {
  }

  lemma {:induction false} SumDaysCountsDates(rows: seq<MonthRow>, m: map<string, bool>)
    requires StrictlyIncreasing(rows)
    requires forall i :: 0 <= i < |rows| ==> rows[i].workedDays == |WorkedIn(m, m.Keys, rows[i].month)|
    ensures SumDays(rows) == |DaysInMonths(m, MonthsIn(rows))|
  {
    if rows == [] {
      assert DaysInMonths(m, MonthsIn(rows)) == {};
    } else {
      var rest := rows[1..];
      StrictTail(rows);
      assert forall i :: 0 <= i < |rest| ==> rest[i] == rows[i + 1];
      SumDaysCountsDates(rest, m);
      DaysInMonthsSplit(m, rows[0].month, MonthsIn(rest));
    }
  }

  /** The TOTAL day count is the number of true entries, of every year. */
  lemma TotalCountsTrueDays(summary: seq<MonthRow>, workDays: map<string, bool>, rate: real)
    requires ParsableWorkedDays(workDays)
    requires IsSummaryOf(summary, workDays, rate)
    ensures Total(summary).workedDays == |TrueDays(workDays)|
  {
    var counts := MonthCounts(workDays);
    forall i | 0 <= i < |summary| ensures summary[i].workedDays == |WorkedIn(workDays, workDays.Keys, summary[i].month)| {
      MonthCountsExact(workDays, summary[i].month);
    }
    SumDaysCountsDates(summary, workDays);
    forall d | d in TrueDays(workDays) ensures d in DaysInMonths(workDays, MonthsIn(summary)) {
      EveryWorkedDayCounted(workDays, d);
    }
    assert DaysInMonths(workDays, MonthsIn(summary)) == TrueDays(workDays);
    TotalIsFieldwiseSum(summary);
  }

  /** The whole year screen: the sorted rows and their TOTAL. */
  method YearScreen(workDays: map<string, bool>, rate: real) returns (summary: seq<MonthRow>, total: MonthRow)
    requires ParsableWorkedDays(workDays)
    ensures IsSummaryOf(summary, workDays, rate)
    ensures total == Total(summary)
    ensures total.month == TotalLabel && total.workedDays == |TrueDays(workDays)|
    ensures total.gross == Finance.Earnings(|TrueDays(workDays)|, rate)
    ensures total.net + total.taxes == total.gross
    ensures total.net == Finance.CalculateNetFromGross(total.gross).net
  {
    summary := FetchSummary(workDays, rate);
    total := Total(summary);
    TotalCountsTrueDays(summary, workDays, rate);
    TotalAtRate(summary, rate);
  }
}
