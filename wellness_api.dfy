/** The wellness endpoint (pages/api/wellness.js): the athlete's wellness
    records mapped to resting heart rate, heart-rate variability and weight,
    keeping only the days with at least one reading. The request to the
    training platform is an input: its outcome is passed in. */
module WellnessApi {
  import opened Js

  /** A wellness record as the platform returns it. */
  datatype WellnessRecord = WellnessRecord(id: Text, restingHR: Num, hrvSDNN: Num, weight: Num)

  /** A row of the response. Absent readings are null. */
  datatype WellnessRow = WellnessRow(date: Text, rhr: Num, hrv: Num, weight: Num)

  /** What the fetch produced: a thrown error, a non-ok response, or a parsed
      body, which is an array (`Some`) or anything else (`None`). */
  datatype Fetched = Threw | NotOk | Body(records: Option<seq<WellnessRecord>>)

  /** `x || null`: a zero or absent reading becomes null. */
  function OrNull(x: Num): (r: Num)
    ensures r.Some? <==> Truthy(x)
    ensures r.Some? ==> r == x
  {
    if Truthy(x) then x else None
  }

  function ToRow(w: WellnessRecord): WellnessRow {
    WellnessRow(w.id, OrNull(w.restingHR), OrNull(w.hrvSDNN), OrNull(w.weight))
  }

  /** `w.rhr || w.hrv || w.weight`. */
  predicate HasReading(r: WellnessRow) {
    Truthy(r.rhr) || Truthy(r.hrv) || Truthy(r.weight)
  }

  /** `raw.map(...).filter(...)`. */
  function Rows(raw: seq<WellnessRecord>): (rows: seq<WellnessRow>)
    ensures |rows| <= |raw|
    ensures forall i :: 0 <= i < |rows| ==> HasReading(rows[i])
  {
    if raw == [] then []
    else
      var row := ToRow(raw[|raw| - 1]);
      Rows(raw[..|raw| - 1]) + (if HasReading(row) then [row] else [])
  }

  /** The handler's `wellness` array; the status is 200 in every case. */
  function Wellness(f: Fetched): (rows: seq<WellnessRow>)
    ensures !f.Body? ==> rows == []
    ensures f.Body? && f.records.None? ==> rows == []
  {
    match f
    case Threw => []
    case NotOk => []
    case Body(records) => if records.Some? then Rows(records.value) else []
  }

  /** One record on its own: kept, mapped, exactly when it has a reading. */
  lemma RowsOfOne(w: WellnessRecord)
    ensures Rows([w]) == if HasReading(ToRow(w)) then [ToRow(w)] else []
  {
    assert [w][..0] == [];
  }

  /** Mapping and filtering a concatenation is concatenating the results, so
      kept rows stay in input order. */
  lemma {:induction false} RowsAppend(a: seq<WellnessRecord>, b: seq<WellnessRecord>)
    ensures Rows(a + b) == Rows(a) + Rows(b)
  {
    if b == [] {
      assert a + b == a;
    } else {
      var b' := b[..|b| - 1];
      RowsAppend(a, b');
      assert (a + b)[..|a + b| - 1] == a + b';
      assert (a + b)[|a + b| - 1] == b[|b| - 1];
    }
  }

  /** A record is dropped exactly when all three readings are zero or absent. */
  lemma DroppedIffNoReading(w: WellnessRecord)
    ensures Rows([w]) == [] <==> !Truthy(w.restingHR) && !Truthy(w.hrvSDNN) && !Truthy(w.weight)
  {
    RowsOfOne(w);
  }

  /** Every record with a reading is in the response, mapped. */
  lemma {:induction false} RecordWithReadingKept(raw: seq<WellnessRecord>, i: nat)
    requires i < |raw| && HasReading(ToRow(raw[i]))
    ensures ToRow(raw[i]) in Rows(raw)
  {
    var init := raw[..|raw| - 1];
    if i < |raw| - 1 {
      assert raw[i] == init[i];
      RecordWithReadingKept(init, i);
    }
  }
}
