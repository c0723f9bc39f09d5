/**
 * What the actor and movie import services share: rows are string-keyed
 * mappings, each row ends either in a created record or in exactly one error
 * message, and the service accumulates created_count, skipped_count, the
 * error list and (standing for the datastore writes) the created records.
 */
module ImportCore {
  import opened Text

  /** One record of the imported file, column name to cell text. */
  type Row = map<string, string>

  /** row.get(key, ''). */
  function Get(row: Row, key: string): string
  {
    if key in row then row[key] else ""
  }

  /** How one row ends: a record is created, or the row is skipped with one message. */
  datatype RowOutcome<R> = Created(record: R) | Skipped(message: string)

  /** The service's counters and error list, plus the records it created (in order). */
  datatype ImportState<R> = ImportState(createdCount: nat, skippedCount: nat, errors: seq<string>, created: seq<R>)

  /** The state of a freshly constructed service. */
  function Initial<R>(): ImportState<R>
  {
    ImportState(0, 0, [], [])
  }

  /** The bookkeeping of one row: a creation bumps created_count, a skip appends its message and bumps skipped_count. */
  function Apply<R>(st: ImportState<R>, o: RowOutcome<R>): ImportState<R>
  {
    match o
    case Created(r) => st.(createdCount := st.createdCount + 1, created := st.created + [r])
    case Skipped(m) => st.(skippedCount := st.skippedCount + 1, errors := st.errors + [m])
  }

  /** The state after processing rows with the given outcomes, in order, on a fresh service. */
  function Fold<R>(os: seq<RowOutcome<R>>): ImportState<R>
  {
    if os == [] then Initial() else Apply(Fold(os[..|os| - 1]), os[|os| - 1])
  }

  /** State b accumulated on top of state a (a service used for a second import keeps its counters). */
  function Concat<R>(a: ImportState<R>, b: ImportState<R>): ImportState<R>
  {
    ImportState(a.createdCount + b.createdCount, a.skippedCount + b.skippedCount, a.errors + b.errors, a.created + b.created)
  }

  lemma ConcatInitial<R>(a: ImportState<R>)
    ensures Concat(a, Initial()) == a
  {
  }

  /** Importing on a fresh service leaves exactly what the import produced. */
  lemma InitialConcat<R>(b: ImportState<R>)
    ensures Concat(Initial(), b) == b
  {
    assert [] + b.errors == b.errors;
    assert [] + b.created == b.created;
  }

  lemma ConcatApply<R>(a: ImportState<R>, b: ImportState<R>, o: RowOutcome<R>)
    ensures Concat(a, Apply(b, o)) == Apply(Concat(a, b), o)
  {
    match o
    case Created(r) => assert a.created + (b.created + [r]) == (a.created + b.created) + [r];
    case Skipped(m) => assert a.errors + (b.errors + [m]) == (a.errors + b.errors) + [m];
  }

  /** f'Line {row_num + 1}: {reason}' — validation messages name the 1-based line. */
  function LineMessage(rowNum: nat, reason: string): string
  {
    "Line " + NatToString(rowNum + 1) + ": " + reason
  }

  /** f'Row {row_num + 1}: Unexpected error - {str(e)}' — the message of an unexpected exception. */
  function UnexpectedErrorMessage(rowNum: nat, error: string): string
  {
    "Row " + NatToString(rowNum + 1) + ": Unexpected error - " + error
  }

  /** The message begins with the 1-based number of row rowNum, as "Line n: " or "Row n: ". */
  predicate NamesLine(message: string, rowNum: nat)
  {
    ("Line " + NatToString(rowNum + 1) + ": ") <= message || ("Row " + NatToString(rowNum + 1) + ": ") <= message
  }

  lemma LineMessageNamesLine(rowNum: nat, reason: string)
    ensures NamesLine(LineMessage(rowNum, reason), rowNum)
  {
    var p := "Line " + NatToString(rowNum + 1) + ": ";
    assert LineMessage(rowNum, reason) == p + reason;
  }

  lemma UnexpectedErrorMessageNamesLine(rowNum: nat, error: string)
    ensures NamesLine(UnexpectedErrorMessage(rowNum, error), rowNum)
  {
    var n := NatToString(rowNum + 1);
    var p := "Row " + n + ": ";
    assert ": Unexpected error - " == ": " + "Unexpected error - ";
    assert "Row " + n + ": Unexpected error - " == p + "Unexpected error - ";
    assert UnexpectedErrorMessage(rowNum, error) == p + ("Unexpected error - " + error);
  }

  /** The indices of the skipped rows, in increasing order. */
  function SkippedRows<R>(os: seq<RowOutcome<R>>): seq<nat>
  {
    if os == [] then []
    else SkippedRows(os[..|os| - 1]) + (if os[|os| - 1].Skipped? then [|os| - 1] else [])
  }

  /** The indices of the rows that created a record, in increasing order. */
  function CreatedRows<R>(os: seq<RowOutcome<R>>): seq<nat>
  {
    if os == [] then []
    else CreatedRows(os[..|os| - 1]) + (if os[|os| - 1].Created? then [|os| - 1] else [])
  }

  /** Every row is counted exactly once, and there is exactly one message per skipped row. */
  lemma {:induction false} FoldCounts<R>(os: seq<RowOutcome<R>>)
    ensures Fold(os).createdCount + Fold(os).skippedCount == |os|
    ensures |Fold(os).errors| == Fold(os).skippedCount
    ensures |Fold(os).created| == Fold(os).createdCount
  {
    if os != [] {
      FoldCounts(os[..|os| - 1]);
    }
  }

  /**
   * The error list is the messages of the skipped rows in row order: error j
   * belongs to row SkippedRows(os)[j], those rows strictly increase, and
   * every skipped row has its message in the list.
   */
  lemma {:induction false} FoldErrorsInRowOrder<R>(os: seq<RowOutcome<R>>)
    ensures |SkippedRows(os)| == |Fold(os).errors|
    ensures forall j :: 0 <= j < |SkippedRows(os)| ==>
              SkippedRows(os)[j] < |os| && os[SkippedRows(os)[j]].Skipped?
              && Fold(os).errors[j] == os[SkippedRows(os)[j]].message
    ensures forall i, j :: 0 <= i < j < |SkippedRows(os)| ==> SkippedRows(os)[i] < SkippedRows(os)[j]
    ensures forall k :: 0 <= k < |os| && os[k].Skipped? ==> k in SkippedRows(os)
  {
    if os != [] {
      var pre := os[..|os| - 1];
      FoldErrorsInRowOrder(pre);
      forall k | 0 <= k < |os| - 1 && os[k].Skipped? ensures k in SkippedRows(os) {
        assert pre[k] == os[k];
      }
      forall j | 0 <= j < |SkippedRows(pre)|
        ensures os[SkippedRows(pre)[j]] == pre[SkippedRows(pre)[j]]
      {
      }
    }
  }

  /** The created records are those of the creating rows, in row order. */
  lemma {:induction false} FoldCreatedInRowOrder<R>(os: seq<RowOutcome<R>>)
    ensures |CreatedRows(os)| == |Fold(os).created|
    ensures forall j :: 0 <= j < |CreatedRows(os)| ==>
              CreatedRows(os)[j] < |os| && os[CreatedRows(os)[j]].Created?
              && Fold(os).created[j] == os[CreatedRows(os)[j]].record
    ensures forall i, j :: 0 <= i < j < |CreatedRows(os)| ==> CreatedRows(os)[i] < CreatedRows(os)[j]
    ensures forall k :: 0 <= k < |os| && os[k].Created? ==> k in CreatedRows(os)
  {
    if os != [] {
      var pre := os[..|os| - 1];
      FoldCreatedInRowOrder(pre);
      forall k | 0 <= k < |os| - 1 && os[k].Created? ensures k in CreatedRows(os) {
        assert pre[k] == os[k];
      }
      forall j | 0 <= j < |CreatedRows(pre)|
        ensures os[CreatedRows(pre)[j]] == pre[CreatedRows(pre)[j]]
      {
      }
    }
  }

  /** A batch in which every row is valid creates one record per row and reports no error. */
  lemma {:induction false} FoldAllCreated<R>(os: seq<RowOutcome<R>>)
    requires forall k :: 0 <= k < |os| ==> os[k].Created?
    ensures Fold(os).createdCount == |os| && Fold(os).skippedCount == 0 && Fold(os).errors == []
  {
    if os != [] {
      FoldAllCreated(os[..|os| - 1]);
    }
  }

  /**
   * The state after a fresh service has processed `rows` in order, where
   * `outcome(row, k)` is how row number k (0-based, as enumerate numbers it)
   * ends.
   */
  function Run<R>(rows: seq<Row>, outcome: (Row, nat) -> RowOutcome<R>): ImportState<R>
  {
    if rows == [] then Initial() else Apply(Run(rows[..|rows| - 1], outcome), outcome(rows[|rows| - 1], |rows| - 1))
  }

  /** The outcome of every row, in row order. */
  function Outcomes<R>(rows: seq<Row>, outcome: (Row, nat) -> RowOutcome<R>): (os: seq<RowOutcome<R>>)
    ensures |os| == |rows|
    ensures forall k :: 0 <= k < |rows| ==> os[k] == outcome(rows[k], k)
  {
    seq(|rows|, k requires 0 <= k < |rows| => outcome(rows[k], k))
  }

  /** Processing one more row applies that row's outcome. */
  lemma RunStep<R>(rows: seq<Row>, i: nat, outcome: (Row, nat) -> RowOutcome<R>)
    requires i < |rows|
    ensures Run(rows[..i + 1], outcome) == Apply(Run(rows[..i], outcome), outcome(rows[i], i))
  {
    assert rows[..i + 1][..i] == rows[..i];
  }

  /** Run is the fold of the rows' outcomes. */
  lemma {:induction false} RunIsFold<R>(rows: seq<Row>, outcome: (Row, nat) -> RowOutcome<R>)
    ensures Run(rows, outcome) == Fold(Outcomes(rows, outcome))
  {
    if rows != [] {
      var pre := rows[..|rows| - 1];
      RunIsFold(pre, outcome);
      assert Outcomes(rows, outcome)[..|rows| - 1] == Outcomes(pre, outcome);
    }
  }

  /**
   * The accounting of a whole import, for any per-row outcome whose messages
   * name their own line: every row is counted exactly once, there is one
   * message per skipped row, and message j is the message of the j-th
   * skipped row, those rows increasing, each message naming its line.
   */
  lemma RunAccounting<R>(rows: seq<Row>, outcome: (Row, nat) -> RowOutcome<R>)
    requires forall k :: 0 <= k < |rows| && outcome(rows[k], k).Skipped? ==> NamesLine(outcome(rows[k], k).message, k)
    ensures Run(rows, outcome).createdCount + Run(rows, outcome).skippedCount == |rows|
    ensures |Run(rows, outcome).errors| == Run(rows, outcome).skippedCount
    ensures |Run(rows, outcome).created| == Run(rows, outcome).createdCount
    ensures var os := Outcomes(rows, outcome);
            && |SkippedRows(os)| == |Run(rows, outcome).errors|
            && (forall i, j :: 0 <= i < j < |SkippedRows(os)| ==> SkippedRows(os)[i] < SkippedRows(os)[j])
            && (forall j :: 0 <= j < |SkippedRows(os)| ==>
                  && SkippedRows(os)[j] < |rows|
                  && outcome(rows[SkippedRows(os)[j]], SkippedRows(os)[j]).Skipped?
                  && Run(rows, outcome).errors[j] == outcome(rows[SkippedRows(os)[j]], SkippedRows(os)[j]).message
                  && NamesLine(Run(rows, outcome).errors[j], SkippedRows(os)[j]))
  {
    var os := Outcomes(rows, outcome);
    RunIsFold(rows, outcome);
    FoldCounts(os);
    FoldErrorsInRowOrder(os);
  }

  /** When every row creates a record, the import creates them all, in row order, and reports no error. */
  lemma RunAllCreated<R>(rows: seq<Row>, outcome: (Row, nat) -> RowOutcome<R>)
    requires forall k :: 0 <= k < |rows| ==> outcome(rows[k], k).Created?
    ensures Run(rows, outcome).createdCount == |rows| && Run(rows, outcome).skippedCount == 0
    ensures Run(rows, outcome).errors == []
    ensures |Run(rows, outcome).created| == |rows|
    ensures forall k :: 0 <= k < |rows| ==> Run(rows, outcome).created[k] == outcome(rows[k], k).record
  {
    var os := Outcomes(rows, outcome);
    RunIsFold(rows, outcome);
    FoldAllCreated(os);
    FoldCounts(os);
    FoldCreatedInRowOrder(os);
    AllCreatedRows(os);
  }

  lemma {:induction false} AllCreatedRows<R>(os: seq<RowOutcome<R>>)
    requires forall k :: 0 <= k < |os| ==> os[k].Created?
    ensures CreatedRows(os) == seq(|os|, k requires 0 <= k < |os| => k)
  {
    if os != [] {
      AllCreatedRows(os[..|os| - 1]);
    }
  }
}
