/** The import run of run.py (lines 36-81) once the CSV has been decoded and
    split into headers and rows: resolve the match column, take the subject
    snapshot, walk the rows in file order issuing store updates, and finish
    with a project note. The store client is a recorder of the calls made on
    it, so every dry-run, skip, payload and ordering property is a statement
    about the recorded calls. */
module Import {
  import opened Base
  import opened ColumnResolver
  import opened MergePlanner

  /** The configuration options the run reads. */
  datatype Config = Config(matchColumn: Option<string>, infoKey: Option<string>, dryRun: bool)

  /** The decoded CSV: header names in declared order and the rows in file order. */
  datatype Table = Table(headers: seq<string>, rows: seq<Row>)

  /** A call on the subject store. */
  datatype Event =
    | Modify(subjectId: string, update: Json)
    | Note(projectId: string, message: string)

  datatype Outcome = Completed | Aborted(error: ImportError)

  /** The calls a run makes, in order, and how it ends. */
  datatype Report = Report(trace: seq<Event>, outcome: Outcome)

  /** The audit note appended at the end of a run (run.py line 78). */
  function NoteMessage(filename: string): (msg: string)
    ensures |msg| == |"Imported subject metadata from "| + |filename|
    ensures msg[..|"Imported subject metadata from "|] == "Imported subject metadata from "
    ensures msg[|"Imported subject metadata from "|..] == filename
  {
    "Imported subject metadata from " + filename
  }

  /** The subject store client, seen through the calls the run makes on it. */
  class Store {
    var calls: seq<Event>

    constructor ()
      ensures calls == []
    {
      calls := [];
    }

    /** `modify_subject(subject_id, subject_update)` (run.py line 75). */
    method ModifySubject(subjectId: string, update: Json)
      modifies this
      ensures calls == old(calls) + [Modify(subjectId, update)]
    {
      calls := calls + [Modify(subjectId, update)];
    }

    /** `add_project_note(project_id, msg)` (run.py line 81). */
    method AddProjectNote(projectId: string, message: string)
      modifies this
      ensures calls == old(calls) + [Note(projectId, message)]
    {
      calls := calls + [Note(projectId, message)];
    }
  }

  /** The store calls one planned row causes: an update for an applied row
      unless this is a dry run, nothing otherwise. */
  function RowCalls(plan: Plan, infoKey: Option<string>, dryRun: bool): seq<Event>
  {
    if plan.Apply? && !dryRun then [Modify(plan.subjectId, UpdateDoc(plan.fields, infoKey))] else []
  }

  /** Prefixes the calls already made to the report of the rest of a run. */
  function After(done: seq<Event>, rest: Report): Report
  {
    Report(done + rest.trace, rest.outcome)
  }

  /** The row loop (run.py lines 68-77) as a reference definition: rows in
      order; the first row without the match column aborts the loop, keeping
      the calls already made. */
  function ImportRows(rows: seq<Row>, column: string, snapshot: map<string, SubjectRef>,
                      infoKey: Option<string>, dryRun: bool): (r: Report)
    ensures r.outcome == Completed || r.outcome == Aborted(MissingKey(column))
    ensures forall i | 0 <= i < |r.trace| :: r.trace[i].Modify?
  {
    if rows == [] then Report([], Completed)
    else
      match PlanRow(rows[0], column, snapshot)
      case Failure(e) => Report([], Aborted(e))
      case Success(plan) =>
        After(RowCalls(plan, infoKey, dryRun), ImportRows(rows[1..], column, snapshot, infoKey, dryRun))
  }

  /** The whole run (run.py lines 36-81) as a reference definition. */
  function RunSpec(cfg: Config, table: Table, filename: string, projectId: string,
                   subjects: seq<SubjectRef>): (r: Report)
    ensures r.outcome == Aborted(NoMatchColumn) ==> r.trace == []
    ensures r.outcome.Aborted? ==> forall i | 0 <= i < |r.trace| :: r.trace[i].Modify?
    ensures !cfg.dryRun && r.outcome == Completed ==> r.trace != [] && r.trace[|r.trace| - 1].Note?
  {
    match ResolveColumn(table.headers, cfg.matchColumn)
    case Failure(e) => Report([], Aborted(e))
    case Success(column) =>
      var loop := ImportRows(table.rows, column, Snapshot(subjects), cfg.infoKey, cfg.dryRun);
      if loop.outcome.Aborted? then loop
      else After(loop.trace, Report(if cfg.dryRun then [] else [Note(projectId, NoteMessage(filename))], Completed))
  }

  /** The import run as the source performs it, calling the store as it goes. */
  method Run(store: Store, cfg: Config, table: Table, filename: string, projectId: string,
             subjects: seq<SubjectRef>) returns (outcome: Outcome)
    modifies store
    ensures store.calls == old(store.calls) + RunSpec(cfg, table, filename, projectId, subjects).trace
    ensures outcome == RunSpec(cfg, table, filename, projectId, subjects).outcome
    ensures cfg.dryRun ==> store.calls == old(store.calls)
  {
    DryRunMakesNoCalls(cfg, table, filename, projectId, subjects);
    var resolved := ResolveMatchColumn(table.headers, cfg.matchColumn);
    if resolved.Failure? {
      return Aborted(resolved.error);
    }
    var column := resolved.value;
    var snapshot := Snapshot(subjects);
    var rows := table.rows;
    ghost var done: seq<Event> := [];
    var i := 0;
    while i < |rows|
      invariant 0 <= i <= |rows|
      invariant store.calls == old(store.calls) + done
      invariant After(done, ImportRows(rows[i..], column, snapshot, cfg.infoKey, cfg.dryRun))
                == ImportRows(rows, column, snapshot, cfg.infoKey, cfg.dryRun)
    {
      ImportRowsAt(rows, i, column, snapshot, cfg.infoKey, cfg.dryRun);
      var subjectInfo := rows[i];
      if column !in subjectInfo {
        return Aborted(MissingKey(column));
      }
      var subjectCode := subjectInfo[column];
      subjectInfo := subjectInfo - {column};
      ghost var calls: seq<Event> := [];
      if subjectCode.Some? && subjectCode.value != "" && subjectCode.value in snapshot {
        var subjectId := snapshot[subjectCode.value].id;
        if !cfg.dryRun {
          store.ModifySubject(subjectId, UpdateDoc(subjectInfo, cfg.infoKey));
          calls := [Modify(subjectId, UpdateDoc(subjectInfo, cfg.infoKey))];
        }
      }
      assert calls == RowCalls(PlanRow(rows[i], column, snapshot).value, cfg.infoKey, cfg.dryRun);
      AfterAssociates(done, calls, ImportRows(rows[i + 1..], column, snapshot, cfg.infoKey, cfg.dryRun));
      done := done + calls;
      i := i + 1;
    }
    if !cfg.dryRun {
      store.AddProjectNote(projectId, NoteMessage(filename));
    }
    outcome := Completed;
  }

  /** One step of the row loop: the report of the rows from `i` on. */
  lemma ImportRowsAt(rows: seq<Row>, i: int, column: string, snapshot: map<string, SubjectRef>,
                     infoKey: Option<string>, dryRun: bool)
    requires 0 <= i < |rows|
    ensures column !in rows[i] ==>
              ImportRows(rows[i..], column, snapshot, infoKey, dryRun) == Report([], Aborted(MissingKey(column)))
    ensures column in rows[i] ==>
              ImportRows(rows[i..], column, snapshot, infoKey, dryRun)
              == After(RowCalls(PlanRow(rows[i], column, snapshot).value, infoKey, dryRun),
                       ImportRows(rows[i + 1..], column, snapshot, infoKey, dryRun))
  {
    assert rows[i..][0] == rows[i];
    assert rows[i..][1..] == rows[i + 1..];
  }

  lemma AfterAssociates(a: seq<Event>, b: seq<Event>, r: Report)
    ensures After(a, After(b, r)) == After(a + b, r)
  {
    assert a + (b + r.trace) == (a + b) + r.trace;
  }

  // ---------------------------------------------------------------------
  // Properties of the run

  lemma {:induction false} DryRunLoopMakesNoCalls(rows: seq<Row>, column: string,
                                                 snapshot: map<string, SubjectRef>, infoKey: Option<string>)
    ensures ImportRows(rows, column, snapshot, infoKey, true).trace == []
  {
    if rows != [] {
      DryRunLoopMakesNoCalls(rows[1..], column, snapshot, infoKey);
    }
  }

  /** A dry run makes no store call at all: no update and no note. */
  lemma DryRunMakesNoCalls(cfg: Config, table: Table, filename: string, projectId: string,
                           subjects: seq<SubjectRef>)
    ensures cfg.dryRun ==> RunSpec(cfg, table, filename, projectId, subjects).trace == []
  {
    if cfg.dryRun && ResolveColumn(table.headers, cfg.matchColumn).Success? {
      DryRunLoopMakesNoCalls(table.rows, ResolveColumn(table.headers, cfg.matchColumn).value,
                             Snapshot(subjects), cfg.infoKey);
    }
  }

  /** Without a configured column and with no header matching `id|subject`,
      the run fails before any store call. */
  lemma UnresolvedColumnAborts(cfg: Config, table: Table, filename: string, projectId: string,
                               subjects: seq<SubjectRef>)
    requires !Truthy(cfg.matchColumn)
    requires forall i | 0 <= i < |table.headers| :: !IdOrSubject(table.headers[i])
    ensures RunSpec(cfg, table, filename, projectId, subjects) == Report([], Aborted(NoMatchColumn))
  {
    FirstMatchingIsFirst(table.headers);
  }

  /** Every row has exactly the headers as keys, as the CSV dictionary reader
      yields them. */
  predicate WellFormed(table: Table)
  {
    forall i | 0 <= i < |table.rows| :: table.rows[i].Keys == set h | h in table.headers
  }

  /** A configured match column is not checked up front: when it is not a
      header of a well-formed table with rows, the run fails on the first row,
      before any store call. */
  lemma ConfiguredColumnMissingAborts(cfg: Config, table: Table, filename: string, projectId: string,
                                      subjects: seq<SubjectRef>)
    requires WellFormed(table) && table.rows != []
    requires Truthy(cfg.matchColumn) && cfg.matchColumn.value !in table.headers
    ensures RunSpec(cfg, table, filename, projectId, subjects)
            == Report([], Aborted(MissingKey(cfg.matchColumn.value)))
  {
    assert cfg.matchColumn.value !in table.rows[0];
  }

  lemma {:induction false} LoopCompletesIff(rows: seq<Row>, column: string, snapshot: map<string, SubjectRef>,
                                           infoKey: Option<string>, dryRun: bool)
    ensures ImportRows(rows, column, snapshot, infoKey, dryRun).outcome == Completed
            <==> forall i | 0 <= i < |rows| :: column in rows[i]
    ensures ImportRows(rows, column, snapshot, infoKey, dryRun).outcome != Completed
            ==> ImportRows(rows, column, snapshot, infoKey, dryRun).outcome == Aborted(MissingKey(column))
    ensures forall i | 0 <= i < |ImportRows(rows, column, snapshot, infoKey, dryRun).trace| ::
              ImportRows(rows, column, snapshot, infoKey, dryRun).trace[i].Modify?
  {
    if rows != [] {
      LoopCompletesIff(rows[1..], column, snapshot, infoKey, dryRun);
      assert forall i | 1 <= i < |rows| :: rows[i] == rows[1..][i - 1];
    }
  }

  /** A run completes exactly when its match column resolves and every row
      has that column; otherwise it aborts with the matching error. */
  lemma CompletesIff(cfg: Config, table: Table, filename: string, projectId: string,
                     subjects: seq<SubjectRef>)
    ensures RunSpec(cfg, table, filename, projectId, subjects).outcome == Completed
            <==> && ResolveColumn(table.headers, cfg.matchColumn).Success?
                 && forall i | 0 <= i < |table.rows| ::
                      ResolveColumn(table.headers, cfg.matchColumn).value in table.rows[i]
  {
    var r := ResolveColumn(table.headers, cfg.matchColumn);
    if r.Success? {
      LoopCompletesIff(table.rows, r.value, Snapshot(subjects), cfg.infoKey, cfg.dryRun);
    }
  }

  /** An auto-detected match column is a header, so on a well-formed table
      the run never aborts for a missing key. */
  lemma DetectedColumnCompletes(cfg: Config, table: Table, filename: string, projectId: string,
                                subjects: seq<SubjectRef>)
    requires WellFormed(table) && !Truthy(cfg.matchColumn)
    requires exists i | 0 <= i < |table.headers| :: IdOrSubject(table.headers[i])
    ensures RunSpec(cfg, table, filename, projectId, subjects).outcome == Completed
  {
    FirstMatchingIsFirst(table.headers);
    var k :| IsFirstMatch(table.headers, k) && table.headers[k] == FirstMatching(table.headers).value;
    var column := table.headers[k];
    forall i | 0 <= i < |table.rows| ensures column in table.rows[i] {
      assert column in set h | h in table.headers;
    }
    CompletesIff(cfg, table, filename, projectId, subjects);
  }

  /** The note is written only by a completed run that is not a dry run, and
      then it is the last call and the only note. */
  lemma NoteOnlyAtEnd(cfg: Config, table: Table, filename: string, projectId: string,
                      subjects: seq<SubjectRef>)
    ensures var rep := RunSpec(cfg, table, filename, projectId, subjects);
            forall i | 0 <= i < |rep.trace| ::
              rep.trace[i].Note? <==> (i == |rep.trace| - 1 && rep.outcome == Completed && !cfg.dryRun)
    ensures var rep := RunSpec(cfg, table, filename, projectId, subjects);
            rep.outcome == Completed && !cfg.dryRun ==>
              rep.trace != [] && rep.trace[|rep.trace| - 1] == Note(projectId, NoteMessage(filename))
  {
    var r := ResolveColumn(table.headers, cfg.matchColumn);
    if r.Success? {
      LoopCompletesIff(table.rows, r.value, Snapshot(subjects), cfg.infoKey, cfg.dryRun);
    }
  }

  /** The rows that name a known subject, in file order, each as the target
      subject's identifier and the row without its match column. */
  function Matched(rows: seq<Row>, column: string, snapshot: map<string, SubjectRef>): seq<(string, Row)>
  {
    if rows == [] then []
    else
      var rest := Matched(rows[1..], column, snapshot);
      if column in rows[0] && Known(rows[0][column], snapshot)
      then [(snapshot[rows[0][column].value].id, rows[0] - {column})] + rest
      else rest
  }

  /** One update call per matched row, in the same order. */
  function UpdateCalls(matched: seq<(string, Row)>, infoKey: Option<string>): (calls: seq<Event>)
    ensures |calls| == |matched|
  {
    seq(|matched|, i requires 0 <= i < |matched| => Modify(matched[i].0, UpdateDoc(matched[i].1, infoKey)))
  }

  lemma {:induction false} LoopCallsAreMatched(rows: seq<Row>, column: string, snapshot: map<string, SubjectRef>,
                                              infoKey: Option<string>)
    requires forall i | 0 <= i < |rows| :: column in rows[i]
    ensures ImportRows(rows, column, snapshot, infoKey, false).trace
            == UpdateCalls(Matched(rows, column, snapshot), infoKey)
  {
    if rows != [] {
      var tail := rows[1..];
      assert forall i | 0 <= i < |tail| :: tail[i] == rows[i + 1];
      LoopCallsAreMatched(tail, column, snapshot, infoKey);
      var m := Matched(rows, column, snapshot);
      var mt := Matched(tail, column, snapshot);
      if Known(rows[0][column], snapshot) {
        assert m == [m[0]] + mt;
        assert UpdateCalls(m, infoKey) == [UpdateCalls(m, infoKey)[0]] + UpdateCalls(mt, infoKey);
      }
    }
  }

  /** A completed run that is not a dry run makes exactly one update per
      matched row, in file order, each sent to the subject the code names with
      that row's remaining fields, and then exactly one note. */
  lemma CompletedRunCalls(cfg: Config, table: Table, filename: string, projectId: string,
                          subjects: seq<SubjectRef>)
    requires !cfg.dryRun
    requires RunSpec(cfg, table, filename, projectId, subjects).outcome == Completed
    ensures ResolveColumn(table.headers, cfg.matchColumn).Success?
    ensures RunSpec(cfg, table, filename, projectId, subjects).trace
            == UpdateCalls(Matched(table.rows, ResolveColumn(table.headers, cfg.matchColumn).value, Snapshot(subjects)),
                           cfg.infoKey)
               + [Note(projectId, NoteMessage(filename))]
  {
    CompletesIff(cfg, table, filename, projectId, subjects);
    var column := ResolveColumn(table.headers, cfg.matchColumn).value;
    LoopCallsAreMatched(table.rows, column, Snapshot(subjects), cfg.infoKey);
  }

  /** The end-to-end scenario: the CSV "subject_id,age" with rows A1,30 and
      B9,40 against a project holding only A1 (identifier x1). */
  lemma ScenarioAppliesKnownRowOnly(filename: string, projectId: string, dryRun: bool)
    ensures var table := Table(["subject_id", "age"],
                               [map["subject_id" := Some("A1"), "age" := Some("30")],
                                map["subject_id" := Some("B9"), "age" := Some("40")]]);
            RunSpec(Config(None, None, dryRun), table, filename, projectId, [SubjectRef("A1", "x1")])
            == if dryRun then Report([], Completed)
               else Report([Modify("x1", Object(map["info" := Object(map["age" := Str("30")])])),
                            Note(projectId, "Imported subject metadata from " + filename)], Completed)
  {
    var headers := ["subject_id", "age"];
    var a1 := map["subject_id" := Some("A1"), "age" := Some("30")];
    var b9 := map["subject_id" := Some("B9"), "age" := Some("40")];
    var rows := [a1, b9];
    assert MatchesAt("subject_id", "subject", 0);
    assert ResolveColumn(headers, None) == Success("subject_id");
    var snapshot := Snapshot([SubjectRef("A1", "x1")]);
    assert snapshot == map["A1" := SubjectRef("A1", "x1")];
    var fields := map["age" := Some("30")];
    assert a1 - {"subject_id"} == fields;
    assert PlanRow(a1, "subject_id", snapshot) == Success(Apply("x1", fields));
    assert "B9" != "A1" by { assert "B9"[0] != "A1"[0]; }
    assert PlanRow(b9, "subject_id", snapshot) == Success(Skip(Some("B9")));
    assert FieldsObject(fields) == Object(map["age" := Str("30")]);
    assert rows[1..] == [b9] && [b9][1..] == [];
    assert ImportRows([], "subject_id", snapshot, None, dryRun) == Report([], Completed);
    assert RowCalls(Skip(Some("B9")), None, dryRun) == [];
    assert ImportRows([b9], "subject_id", snapshot, None, dryRun) == Report([], Completed);
    var calls := if dryRun then [] else [Modify("x1", Object(map["info" := Object(map["age" := Str("30")])]))];
    assert ImportRows(rows, "subject_id", snapshot, None, dryRun) == Report(calls, Completed);
  }
}
