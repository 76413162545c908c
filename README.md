# CSV subject-metadata import — a Dafny model

The system merges a CSV file of subject-level metadata into the subjects of a
project. Each row is matched to an existing subject by a code column. The
row's remaining columns are written into that subject's `info` field, either
flat or nested under a configured `info_key`. A dry run computes every
decision but changes nothing. A run that is not a dry run ends with an audit
note on the project.

This model covers the decision logic of `main` in `run.py`. That logic starts
once the CSV has been decoded and split into header names and rows:

- **`Base`** (`base.dfy`): optional values, results, the run's fatal errors,
  the row type, and Python truthiness of configuration strings and cells.
- **`ColumnResolver`** (`column_resolver.dfy`): chooses the match column.
  A truthy configured column is used as given. Otherwise the headers are
  scanned in declared order. The first one in which `id|subject` occurs,
  ignoring case, is chosen. If none matches, the run fails.
- **`MergePlanner`** (`merge_planner.dfy`): builds the code-to-subject
  snapshot. Decides skip or apply for one row. Builds the update document
  `{'info': fields}` or `{'info': {info_key: fields}}`.
- **`Import`** (`import_runner.dfy`): the run itself. The store client is a
  `Store` object that records every call made on it: `Modify(subjectId,
  update)` and `Note(projectId, message)`. `Run` is the source's loop,
  proved equal to the reference definition `RunSpec`. The lemmas state the
  dry-run, skip, payload and ordering properties about `RunSpec`'s calls.

Inputs that come from I/O or the network are parameters. These are the file
name, the project identifier, the project's subject listing `(code, id)`, the
decoded header list and the rows. A row is a `map<string, Option<string>>`. A
`None` cell stands for the padding the CSV dictionary reader adds to short
lines.

Behaviour of the code worth knowing, which the model follows:

- A configured `match_column` is not checked against the headers. The first
  row without that key aborts the run, because `pop` raises `KeyError`. Calls
  already made stay made.
- Duplicate header names are not rejected. A row is a map, so one value per
  name survives, as with a Python dict.
- An unresolvable match column calls `sys.exit(1)`, but `sys` is never
  imported. The code therefore raises `NameError`. Either way the run stops
  before any store call. The model reports `Aborted(NoMatchColumn)`.
- An empty header list behaves like a list with no match. The reader is
  built over `content.split('\n')`, which always has at least one line. An
  empty first line therefore gives `fieldnames == []`. The scan then falls
  into its `else` branch and fails with `NameError` at run.py line 45.

The case-insensitive comparison follows Python 3's regular-expression
IGNORECASE for `str` patterns; the script's interpreter line does not pin the
Python version, and this model assumes Python 3. A character matches a pattern letter when it is
that letter or its ASCII upper case. There are three more equivalents: U+0130
and U+0131 match `i`, and U+017F matches `s`.

## Model

| member | source | states |
|---|---|---|
| `ColumnResolver.ResolveColumn` | run.py:36-37 | A truthy configured match column is the result, used verbatim; an empty or absent one falls back to the header scan |
| `ColumnResolver.FirstMatching` | run.py:38-45 | The header scan, testing each name with `IdOrSubject` (the search for `id` or `subject`, character by character through `CharMatchesCI`); when it fails, the error is the unresolved-match-column failure |
| `ColumnResolver.CaseEquivalents` | run.py:38-40 | For each letter of the pattern, exactly the characters the IGNORECASE search accepts: `i` matches `i`, `I`, U+0130 and U+0131; `s` matches `s`, `S` and U+017F; each of `d u b j e c t` matches only itself and its ASCII upper case |
| `ColumnResolver.ContainsCIIgnoresAsciiCase` | run.py:38-40 | Searching for a lower-case pattern finds it in a name iff it finds it in the name's ASCII lower-casing |
| `ColumnResolver.IdOrSubjectIgnoresAsciiCase` | run.py:38-40 | A header contains `id` or `subject`, ignoring case, iff its ASCII lower-cased form does |
| `ColumnResolver.FirstMatchingIsFirst` | run.py:38-45 | The scan succeeds iff some header contains `id` or `subject` ignoring case, and then returns the first such header in declared order, with no earlier header matching |
| `ColumnResolver.ResolveMatchColumn` | run.py:36-45 | The `for … break … else` loop returns exactly the reference resolution: the configured column without scanning, else the first matching header; it fails iff nothing is configured and no header matches |
| `ColumnResolver.StudyIdResolves` | run.py:38-42 | Headers `study_id, age, sex` with nothing configured resolve to `study_id` |
| `ColumnResolver.AgeSexDoesNotResolve` | run.py:39-45 | Headers `age, sex` with nothing configured fail to resolve |
| `MergePlanner.FieldsObject` | run.py:74 | The fields object has exactly the row's remaining keys |
| `MergePlanner.FieldsRoundTrip` | run.py:74 | Reading the fields object back gives the row's fields unchanged, `None` cells included |
| `MergePlanner.UpdateDoc` | run.py:74 | The update document has the single top-level key `info` |
| `MergePlanner.UpdateDocRoundTrip` | run.py:74 | The update carries exactly the row's remaining fields: directly under `info` when `info_key` is unset or empty, otherwise under `info.<info_key>` as the only key there |
| `MergePlanner.Snapshot` | run.py:62 | The snapshot's keys are exactly the codes of the subject listing, and each key maps to a subject with that code |
| `MergePlanner.SnapshotLastWins` | run.py:62 | When codes repeat, a code maps to the last subject listed with it |
| `MergePlanner.PlanRow` | run.py:68-77 | A row without the match column fails with `KeyError`. A row is skipped iff its code is `None`, empty or unknown. Otherwise it applies to the snapshot subject's id, with the match column removed and every other field unchanged |
| `Import.NoteMessage` | run.py:78 | The note is `Imported subject metadata from ` followed by the file name |
| `Import.Store.ModifySubject` | run.py:75 | A subject update appends exactly one `Modify` call to the store's record |
| `Import.Store.AddProjectNote` | run.py:81 | A project note appends exactly one `Note` call to the store's record |
| `Import.Run` | run.py:36-81 | The run makes exactly the calls of the reference run, in order, and ends with its outcome; a dry run leaves the store's record unchanged |
| `Import.ImportRows` | run.py:68-77 | Reference definition of the row loop: rows in order, each contributing its calls, stopping at the first row without the match column; it ends completed or aborted with `KeyError` on that column, and it only ever issues updates |
| `Import.RunSpec` | run.py:36-81 | Reference definition of the whole run: resolution, snapshot, row loop, then the note unless dry run; an unresolved column leaves no call, an aborted run made only updates, and a completed non-dry run ends with a note |
| `Import.DryRunLoopMakesNoCalls` | run.py:73 | In dry-run mode the row loop makes no call, whatever the rows |
| `Import.DryRunMakesNoCalls` | run.py:64-81 | A dry run makes no store call at all: neither an update nor the note |
| `Import.UnresolvedColumnAborts` | run.py:36-45 | With nothing configured and no header matching, the run aborts before any store call |
| `Import.ConfiguredColumnMissingAborts` | run.py:36-37 | A configured column that is not a header of a well-formed table with rows aborts the run at the first row with `KeyError`, before any store call |
| `Import.LoopCompletesIff` | run.py:68-77 | The row loop completes iff every row has the match column, otherwise aborts with `KeyError` on it; it only ever issues updates |
| `Import.CompletesIff` | run.py:36-81 | A run completes iff its match column resolves and every row has that column |
| `Import.DetectedColumnCompletes` | run.py:38-42 | An auto-detected column is a header, so a well-formed table never aborts the loop |
| `Import.NoteOnlyAtEnd` | run.py:78-81 | A note appears iff the run completed and is not a dry run; then it is the single note and the last call, with the fixed message and the project id |
| `Import.UpdateCalls` | run.py:73-75 | Reference definition used by `CompletedRunCalls`: the i-th call is `Modify` of the i-th matched row's subject id with that row's update document; its ensures only fixes the length |
| `Import.LoopCallsAreMatched` | run.py:68-77 | Outside dry-run mode, the row loop's calls are one update per matched row, in file order |
| `Import.CompletedRunCalls` | run.py:62-81 | A completed run that is not a dry run makes one update per matched row, in file order, each to that code's subject with that row's payload, followed by exactly one note |
| `Import.ScenarioAppliesKnownRowOnly` | run.py:36-81 | Headers `subject_id,age`, rows `A1,30` and `B9,40`, and a project holding only `A1` (id `x1`) give `modify_subject("x1", {"info": {"age": "30"}})` and then the note; a dry run gives no call |

## Left out

- Reading the input file and taking its base name (run.py lines 16-19): file I/O. The file name is a parameter.
- Encoding detection and decoding (run.py lines 22-25): a statistical foreign library. The model starts from decoded, parsed rows.
- Delimiter sniffing and the CSV grammar of the dictionary reader (run.py lines 28-31): library code. The table is given as header names plus rows.
- Over-long CSV lines: the dictionary reader puts the extra fields in a list under the key `None`. The model's rows have string keys only.
- Field order inside the update document: Python dicts keep insertion order, and the model's maps do not.
- Resolving the project from the input's hierarchy (run.py lines 52-58): reading the id when the input sits in a project (lines 54-55) and otherwise a network call to look up the container (line 57). The project id is a parameter.
- Fetching the project's subjects (run.py line 62): a network call. The listing is a parameter.
- Failures raised by the store client during an update or the note: not modelled. Every call is recorded as made.
- Logging (run.py lines 24, 30, 33, 44, 46, 50, 61, 66, 72, 77, 79) and the gear context setup (run.py lines 84-88): side effects only.
- What the store does with an update (replacing the `info` field or the `info_key` entry): the store's contents are not modelled, only the calls made on it.
