/**
 * ActorImportService: walks the rows of an actor file in order; each row is
 * checked for a name, then a birthday, then a nationality; the first failing
 * check records one "Line k: ..." message and skips the row, otherwise the
 * actor is created. The rows the file reader returns, today's date (in place
 * of datetime.now()) and the datastore's verdict on a create are parameters.
 */
module ActorImport {
  import opened Wrappers
  import opened Text
  import opened Dates
  import opened ImportCore

  /** The values passed to Actor.objects.create. */
  datatype Actor = Actor(name: string, birthday: string, nationality: string)

  /** NATIONALITY_CHOICES: (stored value, displayed value). */
  const NationalityChoices: seq<(string, string)> := [("USA", "United States of America"), ("BRA", "Brazil")]

  /** The stored values of a choice list, in order. */
  function StoredValues(choices: seq<(string, string)>): (r: seq<string>)
    ensures |r| == |choices|
    ensures forall i :: 0 <= i < |choices| ==> r[i] == choices[i].0
  {
    if choices == [] then [] else [choices[0].0] + StoredValues(choices[1..])
  }

  /** [choice[0] for choice in NATIONALITY_CHOICES]. */
  function NationalityCodes(): seq<string>
  {
    StoredValues(NationalityChoices)
  }

  /** Why a row is refused by one of the three validators. */
  datatype ActorRejection = NameMissing | BirthdayMalformed | BirthdayInFuture | NationalityUnknown

  /** The text each validator appends after "Line k: ". */
  function Reason(r: ActorRejection): string
  {
    match r
    case NameMissing => "Name is required"
    case BirthdayMalformed => "Invalid birthday. Must be in the format YYYY-MM-DD"
    case BirthdayInFuture => "Birthday cannot be in the future"
    case NationalityUnknown => "Invalid nationality. Must be one of: " + Join(NationalityCodes(), ", ")
  }

  /** An empty nationality is accepted; otherwise it must be one of the stored choice values. */
  predicate NationalityAccepted(nationality: string)
  {
    nationality == [] || nationality in NationalityCodes()
  }

  /** The record a row asks for: its three cells, trimmed. */
  function ActorOf(row: Row): Actor
  {
    Actor(Strip(Get(row, "name")), Strip(Get(row, "birthday")), Strip(Get(row, "nationality")))
  }

  /** Everything the three validators demand of a row, stated at once. */
  predicate ValidActorRow(row: Row, today: Date)
  {
    var a := ActorOf(row);
    && a.name != []
    && ParseIsoDate(a.birthday).Some?
    && !IsAfter(ParseIsoDate(a.birthday).value, today)
    && NationalityAccepted(a.nationality)
  }

  /**
   * The reason of the first failing check, in the order name, birthday,
   * nationality; None when the row passes all three.
   */
  function ActorRowFailure(row: Row, today: Date): Option<ActorRejection>
  {
    var a := ActorOf(row);
    if a.name == [] then Some(NameMissing)
    else
      match ParseIsoDate(a.birthday)
      case None => Some(BirthdayMalformed)
      case Some(date) =>
        if IsAfter(date, today) then Some(BirthdayInFuture)
        else if !NationalityAccepted(a.nationality) then Some(NationalityUnknown)
        else None
  }

  /**
   * How __process_row ends for row number rowNum (0-based): the first failing
   * check gives one "Line k: ..." message; otherwise the actor is created,
   * unless the datastore refuses the create with an exception message
   * (`rejects`), which is recorded as an unexpected error.
   */
  function ActorRowOutcome(row: Row, rowNum: nat, today: Date, rejects: Actor -> Option<string>): (o: RowOutcome<Actor>)
    ensures o.Created? <==> ValidActorRow(row, today) && rejects(ActorOf(row)).None?
    ensures o.Created? ==> o.record == ActorOf(row)
  {
    match ActorRowFailure(row, today)
    case Some(reason) => Skipped(LineMessage(rowNum, Reason(reason)))
    case None =>
      match rejects(ActorOf(row))
      case Some(e) => Skipped(UnexpectedErrorMessage(rowNum, e))
      case None => Created(ActorOf(row))
  }

  /** The per-row outcome of an import with the given date and datastore. */
  function RowOutcomes(today: Date, rejects: Actor -> Option<string>): (Row, nat) -> RowOutcome<Actor>
  {
    (row: Row, k: nat) => ActorRowOutcome(row, k, today, rejects)
  }

  /** What import_actors adds to a service: the rows' outcomes applied in order. */
  function ImportResult(rows: seq<Row>, today: Date, rejects: Actor -> Option<string>): ImportState<Actor>
  {
    Run(rows, RowOutcomes(today, rejects))
  }

  class ActorImportService {
    const filePath: string
    var createdCount: nat
    var skippedCount: nat
    var errors: seq<string>
    /** The actors created so far, in order (what the datastore received). */
    var created: seq<Actor>

    function State(): ImportState<Actor>
      reads this
    {
      ImportState(createdCount, skippedCount, errors, created)
    }

    constructor (filePath: string)
      ensures this.filePath == filePath && State() == Initial()
    {
      this.filePath := filePath;
      createdCount, skippedCount, errors, created := 0, 0, [], [];
    }

    /** Records one skipped row with the given message. */
    method Skip(message: string)
      modifies this
      ensures State() == Apply(old(State()), Skipped(message))
    {
      errors := errors + [message];
      skippedCount := skippedCount + 1;
    }

    /** __validate_name: the (already trimmed) name must not be empty. */
    method ValidateName(name: string, rowNum: nat) returns (ok: bool)
      modifies this
      ensures ok <==> name != []
      ensures State() == if ok then old(State()) else Apply(old(State()), Skipped(LineMessage(rowNum, Reason(NameMissing))))
    {
      if name == [] {
        Skip(LineMessage(rowNum, Reason(NameMissing)));
        return false;
      }
      return true;
    }

    /** __validate_birthday: the birthday must parse as %Y-%m-%d and must not be after today. */
    method ValidateBirthday(birthday: string, rowNum: nat, today: Date) returns (ok: bool)
      modifies this
      ensures ok <==> ParseIsoDate(birthday).Some? && !IsAfter(ParseIsoDate(birthday).value, today)
      ensures State() == if ok then old(State())
                         else Apply(old(State()), Skipped(LineMessage(rowNum,
                                Reason(if ParseIsoDate(birthday).None? then BirthdayMalformed else BirthdayInFuture))))
    {
      var parsed := ParseIsoDate(birthday);
      match parsed {
        case None =>
          Skip(LineMessage(rowNum, Reason(BirthdayMalformed)));
          return false;
        case Some(date) =>
          if IsAfter(date, today) {
            Skip(LineMessage(rowNum, Reason(BirthdayInFuture)));
            return false;
          }
      }
      return true;
    }

    /** __validate_nationality: empty, or one of the choice values. */
    method ValidateNationality(nationality: string, rowNum: nat) returns (ok: bool)
      modifies this
      ensures ok <==> NationalityAccepted(nationality)
      ensures State() == if ok then old(State()) else Apply(old(State()), Skipped(LineMessage(rowNum, Reason(NationalityUnknown))))
    {
      if nationality != [] {
        var nationalities := NationalityCodes();
        if nationality !in nationalities {
          Skip(LineMessage(rowNum, Reason(NationalityUnknown)));
          return false;
        }
      }
      return true;
    }

    /** __process_row: the bookkeeping of one row; returns the created actor, if any. */
    method ProcessRow(row: Row, rowNum: nat, today: Date, rejects: Actor -> Option<string>) returns (actor: Option<Actor>)
      modifies this
      ensures State() == Apply(old(State()), ActorRowOutcome(row, rowNum, today, rejects))
      ensures actor == match ActorRowOutcome(row, rowNum, today, rejects)
                       case Created(a) => Some(a)
                       case Skipped(_) => None
    {
      var name := Strip(Get(row, "name"));
      var ok := ValidateName(name, rowNum);
      if !ok {
        return None;
      }
      var birthday := Strip(Get(row, "birthday"));
      ok := ValidateBirthday(birthday, rowNum, today);
      if !ok {
        return None;
      }
      var nationality := Strip(Get(row, "nationality"));
      ok := ValidateNationality(nationality, rowNum);
      if !ok {
        return None;
      }
      assert ActorRowFailure(row, today).None?;
      actor := CreateActor(Actor(name, birthday, nationality), rowNum, rejects);
    }

    /** Actor.objects.create and the except clause around it: a refused create is an unexpected error. */
    method CreateActor(record: Actor, rowNum: nat, rejects: Actor -> Option<string>) returns (actor: Option<Actor>)
      modifies this
      ensures State() == Apply(old(State()), match rejects(record)
                                             case Some(e) => Skipped(UnexpectedErrorMessage(rowNum, e))
                                             case None => Created(record))
      ensures actor == if rejects(record).None? then Some(record) else None
    {
      var failure := rejects(record);
      if failure.Some? {
        Skip(UnexpectedErrorMessage(rowNum, failure.value));
        return None;
      }
      created := created + [record];
      createdCount := createdCount + 1;
      return Some(record);
    }

    /** import_actors: processes every row in order and reports the counters and the errors. */
    method ImportActors(rows: seq<Row>, today: Date, rejects: Actor -> Option<string>)
      returns (createdCount: nat, skippedCount: nat, errors: seq<string>)
      modifies this
      ensures State() == Concat(old(State()), ImportResult(rows, today, rejects))
      ensures createdCount == this.createdCount && skippedCount == this.skippedCount && errors == this.errors
    {
      for i := 0 to |rows|
        invariant State() == Concat(old(State()), ImportResult(rows[..i], today, rejects))
      {
        var _ := ProcessRow(rows[i], i, today, rejects);
        RunStep(rows, i, RowOutcomes(today, rejects));
        ConcatApply(old(State()), ImportResult(rows[..i], today, rejects), ActorRowOutcome(rows[i], i, today, rejects));
      }
      assert rows[..|rows|] == rows;
      return this.createdCount, this.skippedCount, this.errors;
    }
  }

  // Properties of the import, stated on the specification functions.

  lemma NationalityChoiceList()
    ensures NationalityCodes() == ["USA", "BRA"]
    ensures Reason(NationalityUnknown) == "Invalid nationality. Must be one of: USA, BRA"
  {
  }

  /** A row creates an actor exactly when all checks pass and the datastore accepts it; the actor holds the trimmed cells. */
  lemma ActorCreatedIff(row: Row, rowNum: nat, today: Date, rejects: Actor -> Option<string>)
    ensures ActorRowOutcome(row, rowNum, today, rejects).Created? <==> ValidActorRow(row, today) && rejects(ActorOf(row)).None?
    ensures ActorRowOutcome(row, rowNum, today, rejects).Created? ==> ActorRowOutcome(row, rowNum, today, rejects).record == ActorOf(row)
  {
  }

  /** The checks run name, birthday, nationality, create; only the first failure is reported. */
  lemma ActorChecksInOrder(row: Row, rowNum: nat, today: Date, rejects: Actor -> Option<string>)
    ensures var a := ActorOf(row);
            var o := ActorRowOutcome(row, rowNum, today, rejects);
            && (a.name == [] ==> o == Skipped(LineMessage(rowNum, Reason(NameMissing))))
            && (a.name != [] && ParseIsoDate(a.birthday).None? ==> o == Skipped(LineMessage(rowNum, Reason(BirthdayMalformed))))
            && (a.name != [] && ParseIsoDate(a.birthday).Some? && IsAfter(ParseIsoDate(a.birthday).value, today)
                ==> o == Skipped(LineMessage(rowNum, Reason(BirthdayInFuture))))
            && ((a.name != [] && ParseIsoDate(a.birthday).Some? && !IsAfter(ParseIsoDate(a.birthday).value, today)
                 && !NationalityAccepted(a.nationality))
                ==> o == Skipped(LineMessage(rowNum, Reason(NationalityUnknown))))
            && (ValidActorRow(row, today) && rejects(a).Some? ==> o == Skipped(UnexpectedErrorMessage(rowNum, rejects(a).value)))
  {
  }

  /** A blank name gives exactly the name message, whatever the other cells hold. */
  lemma BlankNameRejected(row: Row, rowNum: nat, today: Date, rejects: Actor -> Option<string>)
    requires forall k :: 0 <= k < |Get(row, "name")| ==> IsSpace(Get(row, "name")[k])
    ensures ActorRowOutcome(row, rowNum, today, rejects) == Skipped(LineMessage(rowNum, Reason(NameMissing)))
  {
    StripCutsSpace(Get(row, "name"));
    assert ActorOf(row).name == [];
  }

  /** A birthday equal to today is not in the future. */
  lemma BirthdayTodayAccepted(row: Row, rowNum: nat, today: Date, rejects: Actor -> Option<string>)
    requires Strip(Get(row, "name")) != [] && ParseIsoDate(Strip(Get(row, "birthday"))) == Some(today)
    requires Strip(Get(row, "nationality")) == [] && rejects(ActorOf(row)).None?
    ensures ActorRowOutcome(row, rowNum, today, rejects) == Created(ActorOf(row))
  {
  }

  /** An empty or misformatted birthday is the format error, never the future error. */
  lemma EmptyBirthdayIsFormatError(row: Row, rowNum: nat, today: Date, rejects: Actor -> Option<string>)
    requires Strip(Get(row, "name")) != [] && Strip(Get(row, "birthday")) == []
    ensures ActorRowOutcome(row, rowNum, today, rejects) == Skipped(LineMessage(rowNum, Reason(BirthdayMalformed)))
  {
  }

  /** Each skipped row's message begins with its own 1-based line number. */
  lemma ActorMessageNamesLine(row: Row, rowNum: nat, today: Date, rejects: Actor -> Option<string>)
    requires ActorRowOutcome(row, rowNum, today, rejects).Skipped?
    ensures NamesLine(ActorRowOutcome(row, rowNum, today, rejects).message, rowNum)
  {
    match ActorRowFailure(row, today)
    case Some(reason) => LineMessageNamesLine(rowNum, Reason(reason));
    case None => UnexpectedErrorMessageNamesLine(rowNum, rejects(ActorOf(row)).value);
  }

  /**
   * After import_actors on a fresh service: every row is counted once,
   * skipped_count is the number of messages, and message j is the message of
   * skipped row SkippedRows[j], those rows increasing, each message naming
   * its own line.
   */
  lemma ActorImportAccounting(rows: seq<Row>, today: Date, rejects: Actor -> Option<string>)
    ensures var r := ImportResult(rows, today, rejects);
            r.createdCount + r.skippedCount == |rows| && |r.errors| == r.skippedCount
    ensures var os := Outcomes(rows, RowOutcomes(today, rejects));
            var r := ImportResult(rows, today, rejects);
            && |SkippedRows(os)| == |r.errors|
            && (forall i, j :: 0 <= i < j < |SkippedRows(os)| ==> SkippedRows(os)[i] < SkippedRows(os)[j])
            && (forall j :: 0 <= j < |r.errors| ==>
                  && SkippedRows(os)[j] < |rows|
                  && os[SkippedRows(os)[j]].Skipped?
                  && r.errors[j] == os[SkippedRows(os)[j]].message
                  && NamesLine(r.errors[j], SkippedRows(os)[j]))
  {
    ActorMessagesNameLines(rows, today, rejects);
    RunAccounting(rows, RowOutcomes(today, rejects));
  }

  lemma ActorMessagesNameLines(rows: seq<Row>, today: Date, rejects: Actor -> Option<string>)
    ensures var outcome := RowOutcomes(today, rejects);
            forall k :: 0 <= k < |rows| && outcome(rows[k], k).Skipped? ==> NamesLine(outcome(rows[k], k).message, k)
  {
    var outcome := RowOutcomes(today, rejects);
    forall k | 0 <= k < |rows| && outcome(rows[k], k).Skipped?
      ensures NamesLine(outcome(rows[k], k).message, k)
    {
      ActorMessageNamesLine(rows[k], k, today, rejects);
    }
  }

  /** A batch of valid rows that the datastore accepts creates every actor, in order, with no error. */
  lemma ValidBatchCreatesAll(rows: seq<Row>, today: Date, rejects: Actor -> Option<string>)
    requires forall k :: 0 <= k < |rows| ==> ValidActorRow(rows[k], today) && rejects(ActorOf(rows[k])).None?
    ensures ImportResult(rows, today, rejects).createdCount == |rows|
    ensures ImportResult(rows, today, rejects).errors == []
    ensures |ImportResult(rows, today, rejects).created| == |rows|
    ensures forall k :: 0 <= k < |rows| ==> ImportResult(rows, today, rejects).created[k] == ActorOf(rows[k])
  {
    var outcome := RowOutcomes(today, rejects);
    forall k | 0 <= k < |rows|
      ensures outcome(rows[k], k) == Created(ActorOf(rows[k]))
    {
      ActorCreatedIff(rows[k], k, today, rejects);
    }
    RunAllCreated(rows, outcome);
  }
}
