/**
 * The weekly dashboard: the day-by-hour mood heatmap, which is filled in place
 * entry by entry, the per-day counts and averages, the colour of a mood and
 * the average over the whole week. Day keys and hours come from the date
 * library and are inputs here; averages are real numbers.
 */
module WeeklyView {
  import opened Wrappers

  /** An entry as the week view reads it: its day key, its hour of the day and its mood (None for `null`). */
  datatype Entry = Entry(dayKey: string, hour: int, mood: Option<real>)

  const FirstHour: int := 8
  const LastHour: int := 22

  predicate InHours(h: int) {
    FirstHour <= h <= LastHour
  }

  /** One day of the heatmap: a cell per hour, None for an empty (`null`) cell. */
  type Row = map<int, Option<real>>

  /** The heatmap: a row per day key. */
  type Grid = map<string, Row>

  /** The hours from the first one up to, not including, `h`. */
  function HoursBelow(h: int): (s: set<int>)
    decreases h - FirstHour
  {
    if h <= FirstHour then {} else HoursBelow(h - 1) + {h - 1}
  }

  lemma {:induction false} HoursBelowIs(h: int)
    ensures forall k :: k in HoursBelow(h) <==> FirstHour <= k < h
    ensures h >= FirstHour ==> |HoursBelow(h)| == h - FirstHour
    decreases h - FirstHour
  {
    if h > FirstHour {
      HoursBelowIs(h - 1);
    }
  }

  /** The empty cells of the hours from the first one up to, not including, `h`. */
  function RowBelow(h: int): Row {
    map k | k in HoursBelow(h) :: None
  }

  /** A row of empty cells, one for each hour from 8 to 22. */
  function EmptyRow(): (r: Row)
    ensures IsRow(r)
  {
    HoursBelowIs(LastHour + 1);
    RowBelow(LastHour + 1)
  }

  /** The heatmap before any entry is placed: an empty row for each day key. */
  function EmptyGrid(days: seq<string>): (g: Grid)
    ensures g.Keys == set d | d in days
    ensures WellFormed(g)
  {
    map d | d in days :: EmptyRow()
  }

  /** Whether a row has a cell for exactly the hours 8 to 22. */
  ghost predicate IsRow(r: Row) {
    forall h :: h in r <==> InHours(h)
  }

  /** Every row has a cell for exactly the hours 8 to 22. */
  ghost predicate WellFormed(g: Grid) {
    forall d | d in g :: IsRow(g[d])
  }

  /** `null` read as a number, as `+` does. */
  function MoodOrZero(mood: Option<real>): real {
    mood.GetOr(0.0)
  }

  /** What a cell becomes when an entry's mood lands in it: the mood if it was empty, else the mean of the two. */
  function Merge(cell: Option<real>, mood: Option<real>): Option<real> {
    if cell.None? then mood else Some((cell.value + MoodOrZero(mood)) / 2.0)
  }

  /** One entry placed in the heatmap, which changes only when its day is shown and its hour is in 8..22. */
  function Place(g: Grid, e: Entry): Grid
    requires WellFormed(g)
  {
    if e.dayKey in g && InHours(e.hour) then
      g[e.dayKey := g[e.dayKey][e.hour := Merge(g[e.dayKey][e.hour], e.mood)]]
    else g
  }

  lemma PlaceWellFormed(g: Grid, e: Entry)
    requires WellFormed(g)
    ensures WellFormed(Place(g, e)) && Place(g, e).Keys == g.Keys
  {
  }

  /** The entries placed one after the other, in their order. */
  function PlaceAll(g: Grid, entries: seq<Entry>): (r: Grid)
    requires WellFormed(g)
    ensures WellFormed(r) && r.Keys == g.Keys
  {
    if entries == [] then g
    else
      var before := PlaceAll(g, entries[..|entries| - 1]);
      PlaceWellFormed(before, entries[|entries| - 1]);
      Place(before, entries[|entries| - 1])
  }

  /** The heatmap object that the view builds and then fills in place. */
  class Heatmap {
    var cells: Grid

    ghost predicate Valid()
      reads this
    {
      WellFormed(cells)
    }

    /** A row per day key, each with an empty cell for every hour from 8 to 22. */
    constructor (days: seq<string>)
      ensures Valid() && cells == EmptyGrid(days)
    {
      cells := map[];
      new;
      var i := 0;
      while i < |days|
        invariant 0 <= i <= |days|
        invariant cells == EmptyGrid(days[..i])
      {
        var dayKey := days[i];
        cells := cells[dayKey := map[]];
        assert RowBelow(FirstHour) == map[];
        var hour := FirstHour;
        while hour <= LastHour
          invariant FirstHour <= hour <= LastHour + 1
          invariant cells == EmptyGrid(days[..i])[dayKey := RowBelow(hour)]
        {
          RowBelowStep(hour);
          cells := cells[dayKey := cells[dayKey][hour := None]];
          hour := hour + 1;
        }
        GridStep(days, i);
        i := i + 1;
      }
      assert days[..|days|] == days;
    }

    /** Places one entry: only the cell of its day and hour can change. */
    method Add(e: Entry)
      requires Valid()
      modifies this
      ensures Valid() && cells == Place(old(cells), e)
    {
      if e.dayKey in cells && FirstHour <= e.hour <= LastHour {
        var row := cells[e.dayKey];
        if row[e.hour] == None {
          cells := cells[e.dayKey := row[e.hour := e.mood]];
        } else {
          cells := cells[e.dayKey := row[e.hour := Some((row[e.hour].value + MoodOrZero(e.mood)) / 2.0)]];
        }
      }
    }

    /** Places every entry, in order. */
    method Fill(entries: seq<Entry>)
      requires Valid()
      modifies this
      ensures Valid() && cells == PlaceAll(old(cells), entries)
    {
      var i := 0;
      while i < |entries|
        invariant 0 <= i <= |entries|
        invariant Valid() && cells == PlaceAll(old(cells), entries[..i])
      {
        Add(entries[i]);
        assert entries[..i + 1][..i] == entries[..i];
        i := i + 1;
      }
      assert entries[..|entries|] == entries;
    }
  }

  /** The heatmap of a week: the empty grid of its days, filled with the entries. */
  method HeatmapData(days: seq<string>, entries: seq<Entry>) returns (h: Heatmap)
    ensures fresh(h) && h.Valid() && h.cells == PlaceAll(EmptyGrid(days), entries)
  {
    h := new Heatmap(days);
    h.Fill(entries);
  }

  lemma RowBelowStep(h: int)
    requires FirstHour <= h
    ensures RowBelow(h)[h := None] == RowBelow(h + 1)
  {
    assert HoursBelow(h + 1) == HoursBelow(h) + {h};
    assert RowBelow(h)[h := None].Keys == RowBelow(h + 1).Keys;
  }

  lemma GridStep(days: seq<string>, i: nat)
    requires i < |days|
    ensures EmptyGrid(days[..i])[days[i] := EmptyRow()] == EmptyGrid(days[..i + 1])
  {
    assert days[..i + 1] == days[..i] + [days[i]];
    var a := EmptyGrid(days[..i])[days[i] := EmptyRow()];
    var b := EmptyGrid(days[..i + 1]);
    assert forall d :: d in days[..i + 1] <==> d in days[..i] || d == days[i];
    assert a.Keys == b.Keys;
  }

  /* ---------------------------------------------------------------------- */
  /* The shape of the heatmap                                                */
  /* ---------------------------------------------------------------------- */

  /** Whether no day key repeats, which holds of the seven days the date library gives. */
  predicate Distinct(days: seq<string>) {
    forall i, j | 0 <= i < j < |days| :: days[i] != days[j]
  }

  /** Distinct keys make a set of the same size. */
  lemma {:induction false} DistinctCard(days: seq<string>)
    requires Distinct(days)
    ensures |set d | d in days| == |days|
  {
    if days != [] {
      var rest := days[1..];
      DistinctCard(rest);
      var s := set d | d in days;
      var t := set d | d in rest;
      assert s == t + {days[0]};
      forall j | 0 <= j < |rest| ensures rest[j] != days[0] {
        assert rest[j] == days[j + 1];
      }
      assert days[0] !in t;
    }
  }

  /**
   * The grid of a week has exactly its seven day keys, and each row has
   * exactly fifteen cells, for the hours 8 to 22, all empty.
   */
  lemma EmptyGridShape(days: seq<string>)
    requires |days| == 7 && Distinct(days)
    ensures |EmptyGrid(days)| == 7 && EmptyGrid(days).Keys == set d | d in days
    ensures forall d | d in EmptyGrid(days) :: EmptyGrid(days)[d] == EmptyRow()
    ensures |EmptyRow()| == 15 && forall h :: h in EmptyRow() <==> InHours(h)
    ensures forall h | h in EmptyRow() :: EmptyRow()[h] == None
  {
    DistinctCard(days);
    EmptyRowShape();
  }

  /** The empty row has one empty cell for each hour from 8 to 22. */
  lemma EmptyRowShape()
    ensures |EmptyRow()| == 15 && forall h :: h in EmptyRow() <==> InHours(h)
    ensures forall h | h in EmptyRow() :: EmptyRow()[h] == None
  {
    HoursBelowIs(LastHour + 1);
    assert EmptyRow().Keys == HoursBelow(LastHour + 1);
  }

  /* ---------------------------------------------------------------------- */
  /* Placing entries                                                         */
  /* ---------------------------------------------------------------------- */

  /** An entry of a day not shown, or of an hour outside 8..22, changes nothing. */
  lemma PlaceOutsideIgnored(g: Grid, e: Entry)
    requires WellFormed(g)
    requires e.dayKey !in g || !InHours(e.hour)
    ensures Place(g, e) == g
  {
  }

  /** Placing an entry changes at most the one cell of its day and hour, and that cell becomes the merge. */
  lemma PlaceChangesOneCell(g: Grid, e: Entry, d: string, h: int)
    requires WellFormed(g) && d in g && h in g[d]
    ensures h in Place(g, e)[d]
    ensures (d, h) != (e.dayKey, e.hour) ==> Place(g, e)[d][h] == g[d][h]
    ensures (d, h) == (e.dayKey, e.hour) ==> Place(g, e)[d][h] == Merge(g[d][h], e.mood)
  {
  }

  /** Two moods in one hour give their mean. */
  lemma MergeTwoIsMean(a: real, b: real)
    ensures Merge(Merge(None, Some(a)), Some(b)) == Some((a + b) / 2.0)
  {
  }

  /** Three moods in one hour do not give their mean: the last counts for half. */
  lemma MergeThreeWeights(a: real, b: real, c: real)
    ensures Merge(Merge(Merge(None, Some(a)), Some(b)), Some(c)) == Some(a / 4.0 + b / 4.0 + c / 2.0)
    ensures Merge(Merge(Merge(None, Some(a)), Some(b)), Some(c)) == Some((a + b + c) / 3.0) <==> a + b == 2.0 * c
  {
  }

  /** A `null` mood halves an occupied cell and leaves an empty cell empty. */
  lemma MergeNullMood(cell: Option<real>)
    ensures cell.Some? ==> Merge(cell, None) == Some(cell.value / 2.0)
    ensures cell.None? ==> Merge(cell, None) == None
  {
  }

  /** The moods of all cells lie within `lo..hi`. */
  predicate CellsWithin(g: Grid, lo: real, hi: real) {
    forall d, h | d in g && h in g[d] && g[d][h].Some? :: lo <= g[d][h].value <= hi
  }

  /** Entries that all carry a mood within `lo..hi`. */
  predicate MoodsWithin(entries: seq<Entry>, lo: real, hi: real) {
    forall i | 0 <= i < |entries| :: entries[i].mood.Some? && lo <= entries[i].mood.value <= hi
  }

  /** Merging a mood in range into a cell in range stays in range. */
  lemma MergeWithin(cell: Option<real>, mood: real, lo: real, hi: real)
    requires cell.Some? ==> lo <= cell.value <= hi
    requires lo <= mood <= hi
    ensures Merge(cell, Some(mood)).Some? && lo <= Merge(cell, Some(mood)).value <= hi
  {
  }

  lemma PlaceWithin(g: Grid, e: Entry, lo: real, hi: real)
    requires WellFormed(g) && CellsWithin(g, lo, hi)
    requires e.mood.Some? && lo <= e.mood.value <= hi
    ensures CellsWithin(Place(g, e), lo, hi)
  {
    if e.dayKey in g && InHours(e.hour) {
      MergeWithin(g[e.dayKey][e.hour], e.mood.value, lo, hi);
    }
  }

  /** A cell only ever holds a value between the least and the greatest mood placed in it, as long as none is `null`. */
  lemma {:induction false} PlaceAllWithin(g: Grid, entries: seq<Entry>, lo: real, hi: real)
    requires WellFormed(g) && CellsWithin(g, lo, hi) && MoodsWithin(entries, lo, hi)
    ensures CellsWithin(PlaceAll(g, entries), lo, hi)
  {
    if entries != [] {
      var init := entries[..|entries| - 1];
      var e := entries[|entries| - 1];
      assert MoodsWithin(init, lo, hi) by {
        forall i | 0 <= i < |init| ensures init[i].mood.Some? && lo <= init[i].mood.value <= hi {
          assert init[i] == entries[i];
        }
      }
      PlaceAllWithin(g, init, lo, hi);
      PlaceWithin(PlaceAll(g, init), e, lo, hi);
    }
  }

  /** Starting from the empty grid, entries with moods 1 to 5 only ever colour cells with values 1 to 5. */
  lemma HeatmapWithinScale(days: seq<string>, entries: seq<Entry>)
    requires MoodsWithin(entries, 1.0, 5.0)
    ensures CellsWithin(PlaceAll(EmptyGrid(days), entries), 1.0, 5.0)
  {
    PlaceAllWithin(EmptyGrid(days), entries, 1.0, 5.0);
  }

  /* ---------------------------------------------------------------------- */
  /* Daily statistics                                                        */
  /* ---------------------------------------------------------------------- */

  /** A day's count of entries and its average mood (None for `null`). */
  datatype DayStat = DayStat(dayKey: string, count: nat, avgMood: Option<real>)

  /** The entries of a day, in their order. */
  function DayEntries(dayKey: string, entries: seq<Entry>): (r: seq<Entry>)
    ensures |r| <= |entries|
    ensures forall i | 0 <= i < |r| :: r[i].dayKey == dayKey && r[i] in entries
  {
    if entries == [] then []
    else
      var rest := DayEntries(dayKey, entries[1..]);
      if entries[0].dayKey == dayKey then [entries[0]] + rest else rest
  }

  /** The moods that are not `null`, in order. */
  function Moods(entries: seq<Entry>): (m: seq<real>)
    ensures |m| <= |entries|
  {
    if entries == [] then []
    else if entries[0].mood.Some? then [entries[0].mood.value] + Moods(entries[1..])
    else Moods(entries[1..])
  }

  function Sum(xs: seq<real>): real {
    if xs == [] then 0.0 else xs[0] + Sum(xs[1..])
  }

  /** The arithmetic mean, None for no values. */
  function Mean(xs: seq<real>): Option<real> {
    if |xs| > 0 then Some(Sum(xs) / |xs| as real) else None
  }

  /** `avgMood ? … : null`: a mean of zero is falsy and shown as no average. */
  function Shown(avg: Option<real>): Option<real> {
    if avg.Some? && avg.value != 0.0 then avg else None
  }

  /** The statistics of one day. */
  function Stat(dayKey: string, entries: seq<Entry>): DayStat {
    var de := DayEntries(dayKey, entries);
    DayStat(dayKey, |de|, Shown(Mean(Moods(de))))
  }

  /** The statistics of each day of the week, in the order of the days. */
  function DailyStats(days: seq<string>, entries: seq<Entry>): (r: seq<DayStat>)
    ensures |r| == |days|
    ensures forall i | 0 <= i < |days| :: r[i] == Stat(days[i], entries)
  {
    seq(|days|, i requires 0 <= i < |days| => Stat(days[i], entries))
  }

  /** How many entries fall on a day. */
  function Occurrences(dayKey: string, entries: seq<Entry>): nat {
    if entries == [] then 0
    else (if entries[0].dayKey == dayKey then 1 else 0) + Occurrences(dayKey, entries[1..])
  }

  /** A day's count is the number of entries on that day. */
  lemma {:induction false} CountIsOccurrences(dayKey: string, entries: seq<Entry>)
    ensures Stat(dayKey, entries).count == Occurrences(dayKey, entries)
  {
    if entries != [] {
      CountIsOccurrences(dayKey, entries[1..]);
    }
  }

  /** Entries whose day is one of the given days. */
  function InWeek(days: seq<string>, entries: seq<Entry>): nat {
    if entries == [] then 0
    else (if entries[0].dayKey in days then 1 else 0) + InWeek(days, entries[1..])
  }

  function TotalCount(stats: seq<DayStat>): nat {
    if stats == [] then 0 else stats[0].count + TotalCount(stats[1..])
  }

  /** Counting per day over distinct days adds up to the entries of the week. */
  lemma {:induction false} OccurrencesSum(days: seq<string>, entries: seq<Entry>)
    requires Distinct(days)
    ensures TotalCount(DailyStats(days, entries)) == InWeek(days, entries)
  {
    if days == [] {
      InWeekNone(entries);
    } else {
      var stats := DailyStats(days, entries);
      assert stats[1..] == DailyStats(days[1..], entries);
      OccurrencesSum(days[1..], entries);
      CountIsOccurrences(days[0], entries);
      InWeekSplit(days, entries);
    }
  }

  lemma {:induction false} InWeekNone(entries: seq<Entry>)
    ensures InWeek([], entries) == 0
  {
    if entries != [] {
      InWeekNone(entries[1..]);
    }
  }

  /** The first day's entries plus those of the other days are those of the week. */
  lemma {:induction false} InWeekSplit(days: seq<string>, entries: seq<Entry>)
    requires days != [] && Distinct(days)
    ensures InWeek(days, entries) == Occurrences(days[0], entries) + InWeek(days[1..], entries)
  {
    if entries != [] {
      InWeekSplit(days, entries[1..]);
      var d := entries[0].dayKey;
      assert d in days <==> d == days[0] || d in days[1..];
      forall j | 0 <= j < |days[1..]| ensures days[1..][j] != days[0] {
        assert days[1..][j] == days[j + 1];
      }
    }
  }

  /** Every mood of a day's entries is one of the day's moods. */
  lemma {:induction false} MoodsOfDay(dayKey: string, entries: seq<Entry>, lo: real, hi: real)
    requires forall i | 0 <= i < |entries| :: entries[i].mood.Some? ==> lo <= entries[i].mood.value <= hi
    ensures forall k | 0 <= k < |Moods(DayEntries(dayKey, entries))| :: lo <= Moods(DayEntries(dayKey, entries))[k] <= hi
  {
    MoodsWithinRange(DayEntries(dayKey, entries), lo, hi);
  }

  lemma {:induction false} MoodsWithinRange(entries: seq<Entry>, lo: real, hi: real)
    requires forall e | e in entries :: e.mood.Some? ==> lo <= e.mood.value <= hi
    ensures forall k | 0 <= k < |Moods(entries)| :: lo <= Moods(entries)[k] <= hi
  {
    if entries != [] {
      MoodsWithinRange(entries[1..], lo, hi);
    }
  }

  /** Values within `lo..hi` sum to within `n·lo..n·hi`. */
  lemma {:induction false} SumWithin(xs: seq<real>, lo: real, hi: real)
    requires forall k | 0 <= k < |xs| :: lo <= xs[k] <= hi
    ensures |xs| as real * lo <= Sum(xs) <= |xs| as real * hi
  {
    if xs != [] {
      SumWithin(xs[1..], lo, hi);
    }
  }

  /** The mean of values within `lo..hi` is within `lo..hi`. */
  lemma MeanWithin(xs: seq<real>, lo: real, hi: real)
    requires xs != [] && forall k | 0 <= k < |xs| :: lo <= xs[k] <= hi
    ensures Mean(xs).Some? && lo <= Mean(xs).value <= hi
  {
    SumWithin(xs, lo, hi);
    var n := |xs| as real;
    assert lo * n <= Sum(xs) <= hi * n;
    DivideBounds(Sum(xs), n, lo, hi);
  }

  lemma DivideBounds(s: real, n: real, lo: real, hi: real)
    requires n > 0.0 && lo * n <= s <= hi * n
    ensures lo <= s / n <= hi
  {
  }

  /**
   * A day's average is shown exactly when it has a mood and their mean is
   * not zero; it is then that mean, and it lies within the range of the moods.
   */
  lemma AverageOfDay(dayKey: string, entries: seq<Entry>, lo: real, hi: real)
    requires 0.0 < lo <= hi
    requires forall i | 0 <= i < |entries| :: entries[i].mood.Some? ==> lo <= entries[i].mood.value <= hi
    ensures Stat(dayKey, entries).avgMood.Some? <==> |Moods(DayEntries(dayKey, entries))| > 0
    ensures Stat(dayKey, entries).avgMood.Some? ==>
      Stat(dayKey, entries).avgMood == Mean(Moods(DayEntries(dayKey, entries))) &&
      lo <= Stat(dayKey, entries).avgMood.value <= hi
  {
    var m := Moods(DayEntries(dayKey, entries));
    MoodsOfDay(dayKey, entries, lo, hi);
    if m != [] {
      MeanWithin(m, lo, hi);
    }
  }

  /** Some entry of the day has a mood. */
  predicate DayHasMood(dayKey: string, entries: seq<Entry>) {
    exists j | 0 <= j < |entries| :: entries[j].dayKey == dayKey && entries[j].mood.Some?
  }

  /** Every mood lies within `lo..hi`. */
  predicate MoodsIn(entries: seq<Entry>, lo: real, hi: real) {
    forall j | 0 <= j < |entries| :: entries[j].mood.Some? ==> lo <= entries[j].mood.value <= hi
  }

  /** A day's entries have a mood exactly when some entry of that day has one. */
  lemma {:induction false} DayMoodsIff(dayKey: string, entries: seq<Entry>)
    ensures |Moods(DayEntries(dayKey, entries))| > 0 <==> DayHasMood(dayKey, entries)
  {
    if entries != [] {
      var e, rest := entries[0], entries[1..];
      DayMoodsIff(dayKey, rest);
      assert DayHasMood(dayKey, rest) ==> DayHasMood(dayKey, entries) by {
        if DayHasMood(dayKey, rest) {
          var j :| 0 <= j < |rest| && rest[j].dayKey == dayKey && rest[j].mood.Some?;
          assert entries[j + 1] == rest[j];
        }
      }
      assert DayHasMood(dayKey, entries) ==> (e.dayKey == dayKey && e.mood.Some?) || DayHasMood(dayKey, rest) by {
        if DayHasMood(dayKey, entries) {
          var j :| 0 <= j < |entries| && entries[j].dayKey == dayKey && entries[j].mood.Some?;
          if j > 0 {
            assert rest[j - 1] == entries[j];
          }
        }
      }
      var de := DayEntries(dayKey, rest);
      if e.dayKey == dayKey {
        assert ([e] + de)[0] == e && ([e] + de)[1..] == de;
      }
    }
  }

  /**
   * The statistic of the i-th day: it is that day's, it counts the entries with
   * its key, and, when every mood is within 1..5, it shows an average exactly
   * when the day has a mood, and that average is within 1..5.
   */
  lemma DailyStatsAt(days: seq<string>, entries: seq<Entry>, i: nat)
    requires i < |days|
    ensures |DailyStats(days, entries)| == |days|
    ensures DailyStats(days, entries)[i].dayKey == days[i]
    ensures DailyStats(days, entries)[i].count == Occurrences(days[i], entries)
    ensures MoodsIn(entries, 1.0, 5.0) ==>
      (DailyStats(days, entries)[i].avgMood.Some? <==> DayHasMood(days[i], entries))
    ensures MoodsIn(entries, 1.0, 5.0) && DailyStats(days, entries)[i].avgMood.Some? ==>
      1.0 <= DailyStats(days, entries)[i].avgMood.value <= 5.0
  {
    CountIsOccurrences(days[i], entries);
    DayMoodsIff(days[i], entries);
    if MoodsIn(entries, 1.0, 5.0) {
      AverageOfDay(days[i], entries, 1.0, 5.0);
    }
  }

  /** A day without moods, or without entries at all, shows no average. */
  lemma NoMoodNoAverage(dayKey: string, entries: seq<Entry>)
    requires forall i | 0 <= i < |entries| :: entries[i].dayKey == dayKey ==> entries[i].mood.None?
    ensures Stat(dayKey, entries).avgMood == None
  {
    NoMoods(dayKey, entries);
  }

  lemma {:induction false} NoMoods(dayKey: string, entries: seq<Entry>)
    requires forall i | 0 <= i < |entries| :: entries[i].dayKey == dayKey ==> entries[i].mood.None?
    ensures Moods(DayEntries(dayKey, entries)) == []
  {
    if entries != [] {
      NoMoods(dayKey, entries[1..]);
    }
  }

  /* ---------------------------------------------------------------------- */
  /* Colours and the weekly average                                          */
  /* ---------------------------------------------------------------------- */

  const Gray: string := "bg-gray-100"
  const Green: string := "bg-green-500"
  const Yellow: string := "bg-yellow-500"
  const Orange: string := "bg-orange-500"
  const Red: string := "bg-red-500"

  /** The colour class of a mood: gray for none, then green, yellow, orange and red bands. */
  function MoodColor(mood: Option<real>): string {
    if mood.None? then Gray
    else if mood.value >= 4.0 then Green
    else if mood.value >= 3.0 then Yellow
    else if mood.value >= 2.0 then Orange
    else Red
  }

  /** The rank of a colour band, from red up to green. */
  function Band(color: string): int {
    if color == Green then 4 else if color == Yellow then 3 else if color == Orange then 2 else if color == Red then 1 else 0
  }

  /** Each band is the half-open interval of moods its legend names. */
  lemma MoodColorBands(m: real)
    ensures MoodColor(Some(m)) == Green <==> 4.0 <= m
    ensures MoodColor(Some(m)) == Yellow <==> 3.0 <= m < 4.0
    ensures MoodColor(Some(m)) == Orange <==> 2.0 <= m < 3.0
    ensures MoodColor(Some(m)) == Red <==> m < 2.0
    ensures MoodColor(Some(m)) != Gray && MoodColor(None) == Gray
  {
  }

  /** A higher mood never gets a lower band. */
  lemma MoodColorMonotone(a: real, b: real)
    requires a <= b
    ensures 1 <= Band(MoodColor(Some(a))) <= Band(MoodColor(Some(b))) <= 4
  {
  }

  /** `e.mood` is truthy: present and not zero. */
  predicate HasTruthyMood(e: Entry) {
    e.mood.Some? && e.mood.value != 0.0
  }

  /** The truthy moods: every kept value is an entry's truthy mood, and every truthy mood is kept (as a set of values). */
  function TruthyMoods(entries: seq<Entry>): (m: seq<real>)
    ensures |m| <= |entries|
    ensures forall k | 0 <= k < |m| :: m[k] != 0.0
    ensures forall k | 0 <= k < |m| :: exists i | 0 <= i < |entries| :: HasTruthyMood(entries[i]) && entries[i].mood.value == m[k]
    ensures forall i | 0 <= i < |entries| && HasTruthyMood(entries[i]) :: entries[i].mood.value in m
  {
    if entries == [] then []
    else if HasTruthyMood(entries[0]) then [entries[0].mood.value] + TruthyMoods(entries[1..])
    else TruthyMoods(entries[1..])
  }

  /**
   * The average mood of the week: the sum of the truthy moods over their
   * number. With no truthy mood this divides zero by zero, which is shown as
   * "NaN"; None stands for that.
   */
  function WeekAverage(entries: seq<Entry>): Option<real> {
    Mean(TruthyMoods(entries))
  }

  /** The week's average is defined exactly when some entry has a truthy mood. */
  lemma {:induction false} WeekAverageDefined(entries: seq<Entry>)
    ensures WeekAverage(entries).Some? <==> exists i | 0 <= i < |entries| :: HasTruthyMood(entries[i])
  {
    if entries != [] {
      WeekAverageDefined(entries[1..]);
      if exists i | 0 <= i < |entries[1..]| :: HasTruthyMood(entries[1..][i]) {
        var i :| 0 <= i < |entries[1..]| && HasTruthyMood(entries[1..][i]);
        assert HasTruthyMood(entries[i + 1]);
      }
      if exists i | 0 <= i < |entries| :: HasTruthyMood(entries[i]) {
        var i :| 0 <= i < |entries| && HasTruthyMood(entries[i]);
        if i > 0 {
          assert HasTruthyMood(entries[1..][i - 1]);
        }
      }
    }
  }

  /** When every mood is present and positive, the week's average is the mean of all the moods. */
  lemma {:induction false} WeekAverageOfPositiveMoods(entries: seq<Entry>)
    requires forall i | 0 <= i < |entries| :: entries[i].mood.Some? && entries[i].mood.value > 0.0
    ensures TruthyMoods(entries) == Moods(entries)
  {
    if entries != [] {
      WeekAverageOfPositiveMoods(entries[1..]);
    }
  }
}
