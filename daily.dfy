/**
 * The daily dashboard: the points of the mood and energy chart, the colour of
 * a mood badge, the label of an energy level and the insight line shown under
 * an entry. Times are formatted by the date library and are inputs here.
 */
module DailyView {
  import opened Wrappers
  import Js
  import Extraction
  import WeeklyView

  type Json = Js.Json

  /**
   * An entry as the day view reads it: its timestamp (for ordering), the
   * formatted `HH:mm` time of the chart, its mood and energy code, and its
   * insights value (None when the field is absent).
   */
  datatype Entry = Entry(timestamp: int, time: string, mood: Option<real>, energy: Option<string>, insights: Option<Json>)

  /** A point of the chart: its time, its mood and its energy as a number, None for `null`. */
  datatype Point = Point(time: string, mood: Option<real>, energy: Option<int>)

  /* ---------------------------------------------------------------------- */
  /* Energy                                                                  */
  /* ---------------------------------------------------------------------- */

  /** The chart's number for an energy code: H is 3, M is 2, L is 1, anything else `null`. */
  function EnergyValue(energy: Option<string>): (v: Option<int>)
    ensures v.Some? ==> 1 <= v.value <= 3
  {
    if energy == Some("H") then Some(3)
    else if energy == Some("M") then Some(2)
    else if energy == Some("L") then Some(1)
    else None
  }

  /** The label of an energy code. */
  function EnergyLabel(energy: Option<string>): string {
    if energy == Some("H") then "High"
    else if energy == Some("M") then "Medium"
    else if energy == Some("L") then "Low"
    else "N/A"
  }

  /** Exactly the three codes H, M and L have a number, and they get 3, 2 and 1. */
  lemma EnergyValueIff(energy: Option<string>)
    ensures EnergyValue(energy).Some? <==> energy.Some? && energy.value in {"H", "M", "L"}
    ensures EnergyValue(energy) == Some(3) <==> energy == Some("H")
    ensures EnergyValue(energy) == Some(2) <==> energy == Some("M")
    ensures EnergyValue(energy) == Some(1) <==> energy == Some("L")
  {
  }

  /** Exactly the three codes get a label other than "N/A", and the label names the level of the chart's number. */
  lemma EnergyLabelIff(energy: Option<string>)
    ensures EnergyLabel(energy) != "N/A" <==> energy.Some? && energy.value in {"H", "M", "L"}
    ensures EnergyLabel(energy) == "High" <==> energy == Some("H")
    ensures EnergyLabel(energy) == "Medium" <==> energy == Some("M")
    ensures EnergyLabel(energy) == "Low" <==> energy == Some("L")
  {
  }

  /** The label and the chart agree: the label is "N/A" exactly when the point has no energy, and a higher level has a higher number. */
  lemma LabelMatchesValue(energy: Option<string>)
    ensures EnergyLabel(energy) == "N/A" <==> EnergyValue(energy).None?
    ensures EnergyValue(energy) == Some(3) <==> EnergyLabel(energy) == "High"
    ensures EnergyValue(energy) == Some(2) <==> EnergyLabel(energy) == "Medium"
    ensures EnergyValue(energy) == Some(1) <==> EnergyLabel(energy) == "Low"
  {
  }

  /** The codes are case-sensitive: a lower-case code has no number and reads "N/A". */
  lemma EnergyCaseSensitive()
    ensures EnergyValue(Some("h")) == None && EnergyLabel(Some("h")) == "N/A"
    ensures EnergyValue(Some("high")) == None && EnergyLabel(Some("high")) == "N/A"
  {
  }

  /* ---------------------------------------------------------------------- */
  /* The chart                                                               */
  /* ---------------------------------------------------------------------- */

  /** The sequence in reverse order, built on a copy. */
  function Reverse<T>(s: seq<T>): (r: seq<T>)
    ensures |r| == |s|
  {
    if s == [] then [] else Reverse(s[1..]) + [s[0]]
  }

  /** The element at position `i` of the reversal is the one `i` places from the end. */
  lemma {:induction false} ReverseAt<T>(s: seq<T>, i: nat)
    requires i < |s|
    ensures Reverse(s)[i] == s[|s| - 1 - i]
  {
    if i < |s| - 1 {
      ReverseAt(s[1..], i);
    }
  }

  /** Reversing twice gives back the sequence. */
  lemma ReverseReverse<T>(s: seq<T>)
    ensures Reverse(Reverse(s)) == s
  {
    forall i | 0 <= i < |s| ensures Reverse(Reverse(s))[i] == s[i] {
      ReverseAt(Reverse(s), i);
      ReverseAt(s, |s| - 1 - i);
    }
  }

  /** The chart point of one entry. */
  function ChartPoint(e: Entry): (p: Point)
    ensures p.time == e.time && p.mood == e.mood
    ensures p.energy == EnergyValue(e.energy)
  {
    Point(e.time, e.mood, EnergyValue(e.energy))
  }

  function Points(entries: seq<Entry>): (r: seq<Point>)
    ensures |r| == |entries|
  {
    if entries == [] then [] else [ChartPoint(entries[0])] + Points(entries[1..])
  }

  lemma {:induction false} PointsAt(entries: seq<Entry>, i: nat)
    requires i < |entries|
    ensures Points(entries)[i] == ChartPoint(entries[i])
  {
    if i > 0 {
      PointsAt(entries[1..], i - 1);
    }
  }

  /** The chart: the entries of the day reversed, each turned into its point. */
  function ChartData(entries: seq<Entry>): (r: seq<Point>)
    ensures |r| == |entries|
  {
    Points(Reverse(entries))
  }

  /** The chart has one point per entry, and point `i` is the entry `i` places from the end of the list. */
  lemma ChartDataAt(entries: seq<Entry>, i: nat)
    requires i < |entries|
    ensures ChartData(entries)[i] == ChartPoint(entries[|entries| - 1 - i])
  {
    PointsAt(Reverse(entries), i);
    ReverseAt(entries, i);
  }

  /** Newest first, as the day's entries are listed. */
  predicate NewestFirst(entries: seq<Entry>) {
    forall i, j | 0 <= i < j < |entries| :: entries[i].timestamp >= entries[j].timestamp
  }

  /** Oldest first. */
  predicate OldestFirst(entries: seq<Entry>) {
    forall i, j | 0 <= i < j < |entries| :: entries[i].timestamp <= entries[j].timestamp
  }

  /** Reversing a newest-first list makes it oldest first, so the chart runs forward in time. */
  lemma ChartIsChronological(entries: seq<Entry>)
    requires NewestFirst(entries)
    ensures OldestFirst(Reverse(entries))
  {
    var r := Reverse(entries);
    forall i, j | 0 <= i < j < |r| ensures r[i].timestamp <= r[j].timestamp {
      ReverseAt(entries, i);
      ReverseAt(entries, j);
    }
  }

  /** The first point is the oldest entry and the last point the newest. */
  lemma ChartEnds(entries: seq<Entry>)
    requires entries != []
    ensures ChartData(entries)[0] == ChartPoint(entries[|entries| - 1])
    ensures ChartData(entries)[|entries| - 1] == ChartPoint(entries[0])
  {
    ChartDataAt(entries, 0);
    ChartDataAt(entries, |entries| - 1);
  }

  /* ---------------------------------------------------------------------- */
  /* Mood colour                                                             */
  /* ---------------------------------------------------------------------- */

  const Gray: string := "bg-gray-200"

  /** The colour of a mood badge: gray for a falsy mood (`null` or zero), then green, yellow and red. */
  function MoodColor(mood: Option<real>): string {
    if mood.None? || mood.value == 0.0 then Gray
    else if mood.value >= 4.0 then WeeklyView.Green
    else if mood.value >= 3.0 then WeeklyView.Yellow
    else WeeklyView.Red
  }

  /** The bands: green from 4, yellow from 3 below 4, red below 3 (zero aside), gray for no mood or zero. */
  lemma MoodColorBands(m: real)
    ensures MoodColor(Some(m)) == Gray <==> m == 0.0
    ensures MoodColor(Some(m)) == WeeklyView.Green <==> 4.0 <= m
    ensures MoodColor(Some(m)) == WeeklyView.Yellow <==> 3.0 <= m < 4.0
    ensures MoodColor(Some(m)) == WeeklyView.Red <==> m < 3.0 && m != 0.0
    ensures MoodColor(None) == Gray
  {
  }

  /**
   * The day view and the week view colour a mood alike except in three
   * places: moods from 2 up to 3 are red here and orange there, a missing
   * mood is a different gray, and a zero mood is gray here and red there.
   */
  lemma ColorsAgainstWeek(mood: Option<real>)
    ensures mood.Some? && mood.value != 0.0 && !(2.0 <= mood.value < 3.0) ==>
      MoodColor(mood) == WeeklyView.MoodColor(mood)
    ensures mood.Some? && 2.0 <= mood.value < 3.0 ==>
      MoodColor(mood) == WeeklyView.Red && WeeklyView.MoodColor(mood) == WeeklyView.Orange
    ensures mood.None? ==> MoodColor(mood) == Gray && WeeklyView.MoodColor(mood) == WeeklyView.Gray
    ensures mood == Some(0.0) ==> MoodColor(mood) == Gray && WeeklyView.MoodColor(mood) == WeeklyView.Red
    ensures Gray != WeeklyView.Gray && WeeklyView.Red != WeeklyView.Orange
  {
  }

  /** A badge is only drawn for a truthy mood, so a drawn badge is never gray. */
  lemma DrawnBadgeColored(mood: Option<real>)
    requires mood.Some? && mood.value != 0.0
    ensures MoodColor(mood) in {WeeklyView.Green, WeeklyView.Yellow, WeeklyView.Red}
  {
  }

  /* ---------------------------------------------------------------------- */
  /* Insights                                                                */
  /* ---------------------------------------------------------------------- */

  /** JavaScript's `a || b`: `a` when it is truthy, otherwise `b`, whatever `b` is. */
  function Or(a: Option<Json>, b: Option<Json>): Option<Json> {
    if Js.TruthyOpt(a) then a else b
  }

  /** What the insight panel shows: nothing, or a panel holding a value (None for `undefined`). */
  datatype Panel = NoPanel | Panel(text: Option<Json>)

  /**
   * The insight panel of an entry: drawn when `insights` is truthy and has a
   * key, holding the observation, else the notable change, else the
   * energy/mood mismatch.
   */
  function InsightPanel(insights: Option<Json>): Panel {
    if Js.TruthyOpt(insights) && Js.KeyCount(insights.value) > 0 then
      var v := insights.value;
      Panel(Or(Or(Js.Member(v, "observation"), Js.Member(v, "notable_change")), Js.Member(v, "energy_mood_mismatch")))
    else NoPanel
  }

  /** The panel is drawn exactly for a truthy value with at least one key. */
  lemma PanelIff(insights: Option<Json>)
    ensures InsightPanel(insights).Panel? <==> Js.TruthyOpt(insights) && Js.KeyCount(insights.value) > 0
    ensures insights.Some? && insights.value.Obj? ==>
      (InsightPanel(insights).Panel? <==> |insights.value.members| > 0)
  {
  }

  /**
   * The text is the first truthy one of the observation, the notable change
   * and the mismatch; when none is truthy it is the mismatch as it stands,
   * which may be `undefined`, `null` or empty.
   */
  lemma InsightPrecedence(m: map<string, Json>)
    requires |m| > 0
    ensures var p := InsightPanel(Some(Js.Obj(m)));
      p.Panel? &&
      ("observation" in m && Js.Truthy(m["observation"]) ==> p.text == Some(m["observation"])) &&
      (!("observation" in m && Js.Truthy(m["observation"])) && "notable_change" in m && Js.Truthy(m["notable_change"]) ==>
        p.text == Some(m["notable_change"])) &&
      (!("observation" in m && Js.Truthy(m["observation"])) && !("notable_change" in m && Js.Truthy(m["notable_change"])) ==>
        p.text == Js.Member(Js.Obj(m), "energy_mood_mismatch"))
  {
  }

  /** The text is truthy exactly when one of the three insights is. */
  lemma InsightTextTruthyIff(m: map<string, Json>)
    requires |m| > 0
    ensures Js.TruthyOpt(InsightPanel(Some(Js.Obj(m))).text) <==>
      exists k | k in {"observation", "notable_change", "energy_mood_mismatch"} :: k in m && Js.Truthy(m[k])
  {
    var keys := {"observation", "notable_change", "energy_mood_mismatch"};
    if exists k | k in keys :: k in m && Js.Truthy(m[k]) {
      var k :| k in keys && k in m && Js.Truthy(m[k]);
      assert k == "observation" || k == "notable_change" || k == "energy_mood_mismatch";
    }
  }

  /** An object whose keys are all other than the three shows an empty panel. */
  lemma OtherKeysEmptyPanel(m: map<string, Json>)
    requires |m| > 0
    requires "observation" !in m && "notable_change" !in m && "energy_mood_mismatch" !in m
    ensures InsightPanel(Some(Js.Obj(m))) == Panel(None)
  {
  }

  /** The empty insights object of the fallback record draws no panel, and neither does a missing or `null` value. */
  lemma FallbackInsightsHidden(body: string)
    ensures InsightPanel(Some(Extraction.Fallback(body).members["insights"])) == NoPanel
    ensures InsightPanel(None) == NoPanel && InsightPanel(Some(Js.Null)) == NoPanel
  {
    Extraction.FallbackShape(body);
  }
}
