/**
 * The `entries` collection: the fields its schema declares, the record the
 * messaging hook fills from an extracted check-in, and which field values the
 * schema admits.
 */
module Entries {
  import opened Wrappers
  import Js
  import Extraction

  type Json = Js.Json

  /** The fields the collection declares. */
  datatype Field =
    | Timestamp | RawText | Mood | Energy | Doing | Intention | DoingCategory
    | Location | SocialContext | Insights | ResponseTimeSeconds | WordCount

  /** A record's values by field; None is a field set to `undefined`. */
  type Fields = map<Field, Option<Json>>

  /** The kinds of field the collection uses, with the options that constrain them. */
  datatype FieldKind =
    | Date
    | Text
    | Number(min: Option<real>, max: Option<real>, noDecimal: bool)
    | Select(values: seq<string>)
    | AnyJson

  /** The field's name in the schema, which is also the property of the extracted JSON it is read from. */
  function Name(f: Field): string {
    match f
    case Timestamp => "timestamp"
    case RawText => "raw_text"
    case Mood => "mood"
    case Energy => "energy"
    case Doing => "doing"
    case Intention => "intention"
    case DoingCategory => "doing_category"
    case Location => "location"
    case SocialContext => "social_context"
    case Insights => "insights"
    case ResponseTimeSeconds => "response_time_seconds"
    case WordCount => "word_count"
  }

  /** Only the time of the check-in and its text are required. */
  predicate Required(f: Field) {
    f == Timestamp || f == RawText
  }

  /** Each field's type and options in the schema. */
  function Kind(f: Field): FieldKind {
    match f
    case Timestamp => Date
    case RawText => Text
    case Mood => Number(Some(1.0), Some(5.0), true)
    case Energy => Select(["L", "M", "H"])
    case Doing => Text
    case Intention => Text
    case DoingCategory => Select(["work", "social", "rest", "exercise", "chores", "transit"])
    case Location => Text
    case SocialContext => Text
    case Insights => AnyJson
    case ResponseTimeSeconds => Number(None, None, false)
    case WordCount => Number(None, None, true)
  }

  /** The fields filled from the extracted JSON rather than by the hook itself. */
  predicate Extracted(f: Field) {
    f != Timestamp && f != RawText && f != ResponseTimeSeconds
  }

  /** Every field, in the schema's order. */
  const AllFields: seq<Field> := [
    Timestamp, RawText, Mood, Energy, Doing, Intention, DoingCategory,
    Location, SocialContext, Insights, ResponseTimeSeconds, WordCount]

  lemma FieldListed(f: Field)
    ensures f in AllFields
  {
    match f
    case Timestamp =>
    case RawText =>
    case Mood =>
    case Energy =>
    case Doing =>
    case Intention =>
    case DoingCategory =>
    case Location =>
    case SocialContext =>
    case Insights =>
    case ResponseTimeSeconds =>
    case WordCount =>
  }

  predicate IsInteger(n: real) {
    n == n.Floor as real
  }

  /** A value that leaves the field empty: unset, `null` or the empty string. */
  predicate Blank(v: Option<Json>) {
    v.None? || v.value.Null? || v.value == Js.Str("")
  }

  /** Whether a present value has the type and meets the options of its field. */
  predicate Fits(v: Json, kind: FieldKind) {
    match kind
    case Date => v.Str?
    case Text => v.Str?
    case Number(lo, hi, noDecimal) =>
      && v.Num?
      && (lo.Some? ==> lo.value <= v.n)
      && (hi.Some? ==> v.n <= hi.value)
      && (noDecimal ==> IsInteger(v.n))
    case Select(values) => v.Str? && v.s in values
    case AnyJson => true
  }

  predicate FieldConforms(r: Fields, f: Field) {
    var v := if f in r then r[f] else None;
    if Blank(v) then !Required(f) else Fits(v.value, Kind(f))
  }

  /** Whether a record holds only values the schema admits as they are, without conversion. */
  predicate Conforms(r: Fields) {
    forall f: Field :: FieldConforms(r, f)
  }

  /** A message as the value of a field: an absent one stays `undefined`. */
  function TextValue(s: Option<string>): Option<Json> {
    match s
    case Some(t) => Some(Js.Str(t))
    case None => None
  }

  /**
   * The values the hook gives a record: the clock's ISO time, the message,
   * each of the extracted properties as it was read (possibly `undefined`) and
   * a `null` response time. Reading properties of `null` throws, so the
   * extracted value is not `null`.
   */
  function EntryFields(now: string, raw: Option<string>, x: Json): Fields
    requires !x.Null?
  {
    map f | f in AllFields :: EntryValue(now, raw, x, f)
  }

  function EntryValue(now: string, raw: Option<string>, x: Json, f: Field): Option<Json>
    requires !x.Null?
  {
    match f
    case Timestamp => Some(Js.Str(now))
    case RawText => TextValue(raw)
    case ResponseTimeSeconds => Some(Js.Null)
    case _ => Js.Member(x, Name(f))
  }

  /** A record being filled field by field. */
  class Record {
    var fields: Fields

    constructor()
      ensures fields == map[]
    {
      fields := map[];
    }

    /** `record.set(name, value)` for the field of that name. */
    method Set(key: Field, value: Option<Json>)
      modifies this
      ensures fields == old(fields)[key := value]
    {
      fields := fields[key := value];
    }
  }

  /** Builds the record the way the hook does, one `set` per field. */
  method BuildRecord(now: string, raw: Option<string>, x: Json) returns (r: Record)
    requires !x.Null?
    ensures fresh(r) && r.fields == EntryFields(now, raw, x)
  {
    r := new Record();
    r.Set(Timestamp, Some(Js.Str(now)));
    r.Set(RawText, TextValue(raw));
    r.Set(Mood, Js.Member(x, Name(Mood)));
    r.Set(Energy, Js.Member(x, Name(Energy)));
    r.Set(Doing, Js.Member(x, Name(Doing)));
    r.Set(Intention, Js.Member(x, Name(Intention)));
    r.Set(DoingCategory, Js.Member(x, Name(DoingCategory)));
    r.Set(Location, Js.Member(x, Name(Location)));
    r.Set(SocialContext, Js.Member(x, Name(SocialContext)));
    r.Set(Insights, Js.Member(x, Name(Insights)));
    r.Set(ResponseTimeSeconds, Some(Js.Null));
    r.Set(WordCount, Js.Member(x, Name(WordCount)));
    SameEntry(r.fields, now, raw, x);
  }

  /** The twelve `set` calls, in order, give the entry. */
  lemma SameEntry(m: Fields, now: string, raw: Option<string>, x: Json)
    requires !x.Null?
    requires m == map[Timestamp := Some(Js.Str(now))][RawText := TextValue(raw)]
      [Mood := Js.Member(x, Name(Mood))][Energy := Js.Member(x, Name(Energy))]
      [Doing := Js.Member(x, Name(Doing))][Intention := Js.Member(x, Name(Intention))]
      [DoingCategory := Js.Member(x, Name(DoingCategory))][Location := Js.Member(x, Name(Location))]
      [SocialContext := Js.Member(x, Name(SocialContext))][Insights := Js.Member(x, Name(Insights))]
      [ResponseTimeSeconds := Some(Js.Null)][WordCount := Js.Member(x, Name(WordCount))]
    ensures m == EntryFields(now, raw, x)
  {
    var e := EntryFields(now, raw, x);
    forall f: Field ensures f in m && m[f] == e[f] {
      SameEntryAt(m, now, raw, x, f);
    }
    assert m.Keys == e.Keys;
  }

  lemma SameEntryAt(m: Fields, now: string, raw: Option<string>, x: Json, f: Field)
    requires !x.Null?
    requires m == map[Timestamp := Some(Js.Str(now))][RawText := TextValue(raw)]
      [Mood := Js.Member(x, Name(Mood))][Energy := Js.Member(x, Name(Energy))]
      [Doing := Js.Member(x, Name(Doing))][Intention := Js.Member(x, Name(Intention))]
      [DoingCategory := Js.Member(x, Name(DoingCategory))][Location := Js.Member(x, Name(Location))]
      [SocialContext := Js.Member(x, Name(SocialContext))][Insights := Js.Member(x, Name(Insights))]
      [ResponseTimeSeconds := Some(Js.Null)][WordCount := Js.Member(x, Name(WordCount))]
    ensures f in m && m[f] == EntryValue(now, raw, x, f)
  {
    match f
    case Timestamp =>
    case RawText =>
    case Mood =>
    case Energy =>
    case Doing =>
    case Intention =>
    case DoingCategory =>
    case Location =>
    case SocialContext =>
    case Insights =>
    case ResponseTimeSeconds =>
    case WordCount =>
  }

  /* ---------------------------------------------------------------------- */
  /* Properties                                                              */
  /* ---------------------------------------------------------------------- */

  /** The record sets every field of the schema. */
  lemma EntryHasEveryField(now: string, raw: Option<string>, x: Json)
    requires !x.Null?
    ensures forall f: Field :: f in EntryFields(now, raw, x)
  {
    forall f: Field ensures f in EntryFields(now, raw, x) {
      FieldListed(f);
    }
  }

  /** What the model extracted is copied unchecked; the clock and the message are stored, the response time is `null`. */
  lemma EntryCopiesExtraction(now: string, raw: Option<string>, x: Json)
    requires !x.Null?
    ensures forall f | Extracted(f) :: EntryFields(now, raw, x)[f] == Js.Member(x, Name(f))
    ensures EntryFields(now, raw, x)[Timestamp] == Some(Js.Str(now))
    ensures EntryFields(now, raw, x)[RawText] == TextValue(raw)
    ensures EntryFields(now, raw, x)[ResponseTimeSeconds] == Some(Js.Null)
  {
  }

  /** The extracted fields are exactly the properties the model is asked for. */
  lemma ExtractedNamesAsked(f: Field)
    ensures Extracted(f) <==> Name(f) in Extraction.ExtractedKeys
  {
  }

  /** A value that is not an object leaves every extracted field `undefined`. */
  lemma NonObjectLeavesFieldsUndefined(now: string, raw: Option<string>, x: Json)
    requires !x.Null? && !x.Obj?
    ensures forall f | Extracted(f) :: EntryFields(now, raw, x)[f] == None
  {
  }

  /** The fallback record fits the schema whenever the clock and the message are non-empty. */
  lemma FallbackConforms(now: string, body: string)
    requires now != "" && body != ""
    ensures Conforms(EntryFields(now, Some(body), Extraction.Fallback(body)))
  {
    forall f: Field ensures FieldConforms(EntryFields(now, Some(body), Extraction.Fallback(body)), f) {
      FallbackFieldConforms(now, body, f);
    }
  }

  lemma FallbackFieldConforms(now: string, body: string, f: Field)
    requires now != "" && body != ""
    ensures FieldConforms(EntryFields(now, Some(body), Extraction.Fallback(body)), f)
  {
    if f == WordCount {
      FallbackWordCountConforms(now, body);
    } else if Extracted(f) && f != Insights {
      FallbackNullConforms(now, body, f);
    }
  }

  lemma FallbackWordCountConforms(now: string, body: string)
    ensures FieldConforms(EntryFields(now, Some(body), Extraction.Fallback(body)), WordCount)
  {
    var n := Extraction.WordCount(body);
    assert (n as real).Floor == n;
    assert Extraction.Fallback(body).members["word_count"] == Js.Num(n as real);
  }

  lemma FallbackNullConforms(now: string, body: string, f: Field)
    requires Extracted(f) && f != Insights && f != WordCount
    ensures EntryFields(now, Some(body), Extraction.Fallback(body))[f] == Some(Js.Null)
  {
    Extraction.FallbackShape(body);
    FieldListed(f);
  }

  /** The reply is stored as it came: a mood of 7 goes into the record, which the schema then refuses. */
  lemma MoodOutOfRangeIsCopied(now: string, body: string)
    ensures EntryFields(now, Some(body), Js.Obj(map["mood" := Js.Num(7.0)]))[Mood] == Some(Js.Num(7.0))
    ensures !Conforms(EntryFields(now, Some(body), Js.Obj(map["mood" := Js.Num(7.0)])))
  {
    var r := EntryFields(now, Some(body), Js.Obj(map["mood" := Js.Num(7.0)]));
    assert !FieldConforms(r, Mood);
  }
}
