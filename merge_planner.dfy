/** The per-row decision of run.py (lines 62 and 68-77): the snapshot of the
    project's subjects by code, the skip-or-apply plan for one row, and the
    update document sent to the store. */
module MergePlanner {
  import opened Base

  /** The JSON-like values that make up an update document. */
  datatype Json = Null | Str(s: string) | Object(members: map<string, Json>)

  /** An existing subject of the project: its human-readable code and its
      store identifier. */
  datatype SubjectRef = SubjectRef(code: string, id: string)

  /** The decision for one row once the match-column cell has been removed. */
  datatype Plan =
    | Apply(subjectId: string, fields: Row)
    | Skip(code: Option<string>)

  /** A cell as it appears in the update document. */
  function CellJson(c: Option<string>): Json
  {
    match c
    case None => Null
    case Some(s) => Str(s)
  }

  /** The remaining row fields as a JSON object, field by field. */
  function FieldsObject(fields: Row): (j: Json)
    ensures j.Object? && j.members.Keys == fields.Keys
  {
    Object(map k | k in fields :: CellJson(fields[k]))
  }

  /** Reads a JSON object of strings and nulls back as row fields. */
  function ObjectFields(j: Json): Option<Row>
  {
    if j.Object? && forall k | k in j.members :: !j.members[k].Object? then
      Some(map k | k in j.members :: if j.members[k].Str? then Some(j.members[k].s) else None)
    else None
  }

  /** The update sent to the store for one matched row (run.py line 74):
      `{'info': fields}`, or `{'info': {info_key: fields}}` when `info_key`
      is truthy. */
  function UpdateDoc(fields: Row, infoKey: Option<string>): (d: Json)
    ensures d.Object? && d.members.Keys == {"info"}
  {
    Object(map["info" := if Truthy(infoKey) then Object(map[infoKey.value := FieldsObject(fields)])
                         else FieldsObject(fields)])
  }

  /** Recovers the imported fields from an update document, looking under
      `info` and, when `info_key` is truthy, under that key inside it. */
  function InfoFields(d: Json, infoKey: Option<string>): Option<Row>
  {
    if d.Object? && "info" in d.members then
      var info := d.members["info"];
      if !Truthy(infoKey) then ObjectFields(info)
      else if info.Object? && info.members.Keys == {infoKey.value} then ObjectFields(info.members[infoKey.value])
      else None
    else None
  }

  /** Encoding row fields as an object loses nothing. */
  lemma FieldsRoundTrip(fields: Row)
    ensures ObjectFields(FieldsObject(fields)) == Some(fields)
  {
    var j := FieldsObject(fields);
    var back := map k | k in j.members :: if j.members[k].Str? then Some(j.members[k].s) else None;
    assert back == fields by {
      forall k | k in fields ensures back[k] == fields[k] {
        match fields[k]
        case None =>
        case Some(s) =>
      }
    }
  }

  /** The update document carries exactly the row's remaining fields, at the
      place `info_key` says: flat under `info`, or nested one level deeper. */
  lemma UpdateDocRoundTrip(fields: Row, infoKey: Option<string>)
    ensures InfoFields(UpdateDoc(fields, infoKey), infoKey) == Some(fields)
    ensures Truthy(infoKey) ==> UpdateDoc(fields, infoKey).members["info"].Object?
                                && UpdateDoc(fields, infoKey).members["info"].members.Keys == {infoKey.value}
  {
    FieldsRoundTrip(fields);
  }

  /** The codes of a subject listing. */
  function Codes(subjects: seq<SubjectRef>): set<string>
  {
    set i | 0 <= i < |subjects| :: subjects[i].code
  }

  /** `{subj.code: subj for subj in subjects}` (run.py line 62): later
      subjects overwrite earlier ones with the same code. */
  function Snapshot(subjects: seq<SubjectRef>): (m: map<string, SubjectRef>)
    ensures m.Keys == Codes(subjects)
    ensures forall c | c in m :: m[c].code == c
  {
    if subjects == [] then map[]
    else
      var init := subjects[..|subjects| - 1];
      var last := subjects[|subjects| - 1];
      assert Codes(subjects) == Codes(init) + {last.code} by {
        assert forall i | 0 <= i < |init| :: init[i] == subjects[i];
      }
      Snapshot(init)[last.code := last]
  }

  /** When codes repeat, the last subject listed with a code is the one the
      snapshot keeps for it. */
  lemma {:induction false} SnapshotLastWins(subjects: seq<SubjectRef>, i: int)
    requires 0 <= i < |subjects|
    requires forall j | i < j < |subjects| :: subjects[j].code != subjects[i].code
    ensures Snapshot(subjects)[subjects[i].code] == subjects[i]
  {
    if i < |subjects| - 1 {
      var init := subjects[..|subjects| - 1];
      SnapshotLastWins(init, i);
    }
  }

  /** A cell names a known subject: it is truthy and a key of the snapshot
      (run.py line 70). */
  predicate Known(code: Option<string>, snapshot: map<string, SubjectRef>)
  {
    Truthy(code) && code.value in snapshot
  }

  /** One row's decision (run.py lines 69-77): pop the match-column cell,
      which fails when the row has no such key; skip unless the cell is a
      known code; otherwise apply the remaining fields to that subject. */
  function PlanRow(row: Row, column: string, snapshot: map<string, SubjectRef>): (r: Result<Plan, ImportError>)
    ensures r.Failure? <==> column !in row
    ensures r.Failure? ==> r.error == MissingKey(column)
    ensures r.Success? ==> (r.value.Skip? <==> !Known(row[column], snapshot))
    ensures r.Success? && r.value.Skip? ==> r.value.code == row[column]
    ensures r.Success? && r.value.Apply? ==>
              && r.value.subjectId == snapshot[row[column].value].id
              && r.value.fields.Keys == row.Keys - {column}
              && forall k | k in r.value.fields :: r.value.fields[k] == row[k]
  {
    if column !in row then Failure(MissingKey(column))
    else
      var code := row[column];
      var fields := row - {column};
      if Known(code, snapshot) then Success(Apply(snapshot[code.value].id, fields))
      else Success(Skip(code))
  }
}
