/** How the synthetic AML data set spreads its laundering cases over typologies, rows and the calendar. */
module LaunderingAllocation {
  import opened Options
  import opened Reals

  datatype Typology = Normal | Structuring | Layering | Integration

  // ----- counts

  function LaunderingCount(nTransactions: nat, ratio: real): (n: int)
    ensures n >= 5 && (n > 5 ==> NearestTo(n, nTransactions as real * ratio))
    ensures n == 5 ==> nTransactions as real * ratio <= 5.5
  {
    var r := Round(nTransactions as real * ratio);
    if r > 5 then r else 5
  }

  /** Half of the cases, three tenths of them, and what is left. */
  function Integrations(n: int, structuring: int, layering: int): int {
    n - structuring - layering
  }

  /** Whatever way the two products are rounded to nearest, no count is negative and they add up to n. */
  lemma CountsAddUp(n: nat, structuring: int, layering: int)
    requires NearestTo(structuring, 0.5 * n as real) && NearestTo(layering, 0.3 * n as real)
    ensures structuring >= 0 && layering >= 0 && Integrations(n, structuring, layering) >= 0
    ensures structuring + layering + Integrations(n, structuring, layering) == n
  {
    assert Integrations(n, structuring, layering) as real >= 0.2 * n as real - 1.0;
    assert n > 0 ==> 0.2 * n as real - 1.0 > -1.0;
  }

  /** With Python's rounding and the floor of five, every typology occurs. */
  lemma EveryTypologyOccurs(n: nat)
    requires n >= 5
    ensures var (s, l) := (Round(0.5 * n as real), Round(0.3 * n as real));
            s >= 1 && l >= 1 && Integrations(n, s, l) >= 1
  {
    var s, l := Round(0.5 * n as real), Round(0.3 * n as real);
    if n == 5 {
      assert (2.5).Floor == 2 && (1.5).Floor == 1;
      assert 0.5 * n as real == 2.5 && 0.3 * n as real == 1.5;
    } else {
      assert Integrations(n, s, l) as real >= 0.2 * n as real - 1.0;
    }
  }

  // ----- rows

  function Repeat(t: Typology, n: nat): seq<Typology> {
    seq(n, _ => t)
  }

  /** The typologies before shuffling. */
  function TypologyList(structuring: nat, layering: nat, integration: nat): seq<Typology> {
    Repeat(Structuring, structuring) + Repeat(Layering, layering) + Repeat(Integration, integration)
  }

  lemma {:induction false} RepeatCounts(t: Typology, n: nat)
    ensures multiset(Repeat(t, n)) == multiset{}[t := n]
  {
    if n > 0 {
      RepeatCounts(t, n - 1);
      assert Repeat(t, n) == Repeat(t, n - 1) + [t];
    }
  }

  lemma ListCounts(s: nat, l: nat, i: nat)
    ensures multiset(TypologyList(s, l, i)) == multiset{}[Structuring := s][Layering := l][Integration := i]
    ensures |TypologyList(s, l, i)| == s + l + i
  {
    RepeatCounts(Structuring, s);
    RepeatCounts(Layering, l);
    RepeatCounts(Integration, i);
  }

  datatype Row = Row(dayOfMonth: int, month: int, isLaundering: bool, typology: Typology)

  function DayOfMonth(simDay: int): int {
    (simDay - 1) % 30 + 1
  }

  function Month(simDay: int): int {
    (simDay - 1) / 30 % 12 + 1
  }

  /** The chosen rows before row i. */
  function ChosenBefore(chosen: set<nat>, i: nat): set<nat> {
    set k | k in chosen && k < i
  }

  lemma OneMoreChosen(chosen: set<nat>, i: nat)
    ensures |ChosenBefore(chosen, i + 1)| == |ChosenBefore(chosen, i)| + if i in chosen then 1 else 0
    ensures |ChosenBefore(chosen, i)| <= |chosen|
    ensures i in chosen ==> |ChosenBefore(chosen, i)| < |chosen|
  {
    var before := ChosenBefore(chosen, i);
    if i in chosen {
      assert ChosenBefore(chosen, i + 1) == before + {i};
      SubsetSize(before + {i}, chosen);
    } else {
      assert ChosenBefore(chosen, i + 1) == before;
      SubsetSize(before, chosen);
    }
  }

  lemma SubsetSize(a: set<nat>, b: set<nat>)
    requires a <= b
    ensures |a| <= |b|
  {
    assert b == a + (b - a);
  }

  /** The laundering rows of a table, in order. */
  function Laundering(rows: seq<Row>): seq<Typology> {
    if rows == [] then []
    else
      var front, r := Laundering(rows[..|rows| - 1]), rows[|rows| - 1];
      if r.isLaundering then front + [r.typology] else front
  }

  /** Day and month stay in a calendar of twelve months of thirty days, and tell the simulation day. */
  lemma CalendarExact(simDay: int)
    requires 1 <= simDay
    ensures 1 <= DayOfMonth(simDay) <= 30 && 1 <= Month(simDay) <= 12
    ensures simDay <= 360 ==> 30 * (Month(simDay) - 1) + DayOfMonth(simDay) == simDay
  {
  }

  // ----- simulation days

  /** The whole part of the i-th of n points spread evenly from 1 to 195. */
  function SimDay(i: nat, n: nat): int
    requires i < n
  {
    if n == 1 then 1 else 1 + 194 * i / (n - 1)
  }

  /** The days start at 1, never go back and stay within the 195 days of the simulation. */
  lemma SimDaysSpread(i: nat, j: nat, n: nat)
    requires i <= j < n
    ensures SimDay(0, n) == 1 <= SimDay(i, n) <= SimDay(j, n) <= 195
    ensures n > 1 ==> SimDay(n - 1, n) == 195
  {
    if n > 1 {
      QuotientMonotone(0, 194 * i, n - 1);
      QuotientMonotone(194 * i, 194 * j, n - 1);
      QuotientMonotone(194 * j, 194 * (n - 1), n - 1);
      QuotientExact(194, n - 1);
    }
  }

  /** The days are spread evenly: the i-th is the whole part of 1 + 194 i / (n - 1). */
  lemma SimDayEven(i: nat, n: nat)
    requires i < n && n > 1
    ensures (SimDay(i, n) - 1) * (n - 1) <= 194 * i < SimDay(i, n) * (n - 1)
  {
    QuotientBounds(194 * i, n - 1);
  }

  lemma QuotientBounds(a: nat, d: nat)
    requires d > 0
    ensures a / d * d <= a < (a / d + 1) * d
  {
  }

  lemma QuotientMonotone(a: nat, b: nat, d: nat)
    requires a <= b && d > 0
    ensures a / d <= b / d
  {
    if a / d > b / d {
      ProductMonotone(d, b / d + 1, a / d);
      assert false;
    }
  }

  lemma QuotientExact(q: nat, d: nat)
    requires d > 0
    ensures q * d / d == q
  {
    var r := q * d / d;
    if r < q {
      ProductMonotone(d, r + 1, q);
      assert false;
    }
  }

  lemma ProductMonotone(d: nat, x: nat, y: nat)
    requires x <= y
    ensures d * x <= d * y
  {
  }

  /** What a row must be, whatever its amounts and accounts. */
  ghost predicate RowFits(row: Row, i: nat, chosen: set<nat>, simDay: int) {
    && (row.isLaundering <==> i in chosen) && (!row.isLaundering ==> row.typology == Normal)
    && 1 <= row.dayOfMonth <= 30 && 1 <= row.month <= 7 && 30 * (row.month - 1) + row.dayOfMonth == simDay
  }

  /** Fills one row for each transaction.  `chosen` are the laundering rows, as many distinct ones as there
      are typologies in the shuffled list; the pointer into the list never leaves it and ends at its length. */
  method FillRows(n: nat, chosen: set<nat>, typologies: seq<Typology>, simDays: seq<int>) returns (rows: seq<Row>)
    requires (forall i :: i in chosen ==> i < n) && |chosen| == |typologies| && |simDays| == n
    requires forall i :: 0 <= i < n ==> 1 <= simDays[i] <= 195
    ensures |rows| == n && Laundering(rows) == typologies
    ensures forall i :: 0 <= i < n ==> RowFits(rows[i], i, chosen, simDays[i])
  {
    rows := [];
    var pointer := 0;
    assert ChosenBefore(chosen, 0) == {} && ChosenBefore(chosen, n) == chosen;
    for i := 0 to n
      invariant |rows| == i && pointer == |ChosenBefore(chosen, i)| <= |typologies|
      invariant Laundering(rows) == typologies[..pointer]
      invariant forall k :: 0 <= k < i ==> RowFits(rows[k], k, chosen, simDays[k])
    {
      var day := simDays[i];
      CalendarExact(day);
      OneMoreChosen(chosen, i);
      OneMoreChosen(chosen, i + 1);
      var row := Row(DayOfMonth(day), Month(day), false, Normal);
      if i in chosen {
        row := Row(DayOfMonth(day), Month(day), true, typologies[pointer]);
        pointer := pointer + 1;
      }
      assert RowFits(row, i, chosen, day);
      assert (rows + [row])[..i] == rows;
      rows := rows + [row];
    }
    assert typologies[..pointer] == typologies;
  }

  datatype Counts = Counts(structuring: nat, layering: nat, integration: nat)

  /** What each typology is allotted. */
  function Allotment(count: nat): (a: Counts)
    ensures a.structuring + a.layering + a.integration == count
    ensures NearestTo(a.structuring, 0.5 * count as real) && NearestTo(a.layering, 0.3 * count as real)
    ensures count >= 5 ==> a.structuring >= 1 && a.layering >= 1 && a.integration >= 1
  {
    var s, l := Round(0.5 * count as real), Round(0.3 * count as real);
    CountsAddUp(count, s, l);
    if count >= 5 then
      EveryTypologyOccurs(count);
      Counts(s, l, Integrations(count, s, l))
    else Counts(s, l, Integrations(count, s, l))
  }

  function Allotted(a: Counts): multiset<Typology> {
    multiset{}[Structuring := a.structuring][Layering := a.layering][Integration := a.integration]
  }

  /** What the random generator gives when asked to shuffle the typologies and to draw distinct rows. */
  ghost predicate Drawn(n: nat, count: nat, shuffled: seq<Typology>, chosen: set<nat>) {
    var a := Allotment(count);
    && multiset(shuffled) == multiset(TypologyList(a.structuring, a.layering, a.integration))
    && (forall i :: i in chosen ==> i < n) && |chosen| == count
  }

  /** The table for a number of transactions and a ratio.  Drawing more distinct rows than there are fails;
      otherwise the laundering rows carry each typology exactly as often as it was allotted, and none is missing. */
  method GenerateTable(n: nat, ratio: real, shuffled: seq<Typology>, chosen: set<nat>)
    returns (table: Option<seq<Row>>, a: Counts)
    requires LaunderingCount(n, ratio) <= n ==> Drawn(n, LaunderingCount(n, ratio), shuffled, chosen)
    ensures table.Some? <==> LaunderingCount(n, ratio) <= n
    ensures a == Allotment(LaunderingCount(n, ratio))
    ensures a.structuring >= 1 && a.layering >= 1 && a.integration >= 1
    ensures table.Some? ==> multiset(Laundering(table.value)) == Allotted(a)
    ensures table.Some? ==>
              |table.value| == n && forall i :: 0 <= i < n ==> RowFits(table.value[i], i, chosen, SimDay(i, n))
  {
    var count := LaunderingCount(n, ratio);
    a := Allotment(count);
    if count > n {
      return None, a;
    }
    ShuffledCounts(shuffled, a);
    var simDays := seq(n, i requires 0 <= i < n => SimDay(i, n));
    forall i | 0 <= i < n ensures 1 <= simDays[i] <= 195 {
      SimDaysSpread(i, i, n);
    }
    var rows := FillRows(n, chosen, shuffled, simDays);
    table := Some(rows);
  }

  lemma ShuffledCounts(shuffled: seq<Typology>, a: Counts)
    requires multiset(shuffled) == multiset(TypologyList(a.structuring, a.layering, a.integration))
    ensures multiset(shuffled) == Allotted(a) && |shuffled| == a.structuring + a.layering + a.integration
  {
    ListCounts(a.structuring, a.layering, a.integration);
    var list := TypologyList(a.structuring, a.layering, a.integration);
    assert |multiset(shuffled)| == |shuffled| && |multiset(list)| == |list|;
  }
}
