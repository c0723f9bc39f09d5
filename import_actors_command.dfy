/**
 * The import_actors management command: picks a file reader from the path's
 * extension, runs ActorImportService on the rows, and writes a summary to
 * stdout, one styled line per write.
 */
module ImportActorsCommand {
  import opened Wrappers
  import opened Text
  import opened Dates
  import opened ImportCore
  import opened ActorImport

  /** The readers the command can choose. */
  datatype FileReader = CsvReader | ExcelReader

  /** self.style.SUCCESS, WARNING and ERROR. */
  datatype Style = SuccessStyle | WarningStyle | ErrorStyle

  /** One self.stdout.write call: a styled line of text. */
  datatype OutputLine = OutputLine(style: Style, text: string)

  /** __map_file_reader: ".csv" gives the CSV reader, ".xlsx" the Excel reader, anything else raises ValueError. */
  function MapFileReader(filePath: string): (r: Result<FileReader, string>)
    ensures r.Success? <==> EndsWith(filePath, ".csv") || EndsWith(filePath, ".xlsx")
    ensures r.Failure? ==> r.error == "Invalid file extension: " + filePath
  {
    if EndsWith(filePath, ".csv") then Success(CsvReader)
    else if EndsWith(filePath, ".xlsx") then Success(ExcelReader)
    else Failure("Invalid file extension: " + filePath)
  }

  /** "=" * 50 */
  function Rule(): string
  {
    seq(50, _ => '=')
  }

  /** The error lines, one "  - <error>" per error, in order. */
  function ErrorLines(errors: seq<string>): seq<OutputLine>
  {
    if errors == [] then [] else ErrorLines(errors[..|errors| - 1]) + [OutputLine(ErrorStyle, "  - " + errors[|errors| - 1])]
  }

  const ErrorHeader := OutputLine(ErrorStyle, "\nERRORS FOUND:")
  const SuccessBanner := OutputLine(SuccessStyle, "\nACTORS IMPORTED SUCCESSFULLY!")

  /** The counters part of the summary, always written. */
  function CountLines(createdCount: nat, skippedCount: nat): seq<OutputLine>
  {
    [OutputLine(SuccessStyle, "\n" + Rule()), OutputLine(SuccessStyle, "IMPORTATION SUMMARY"), OutputLine(SuccessStyle, Rule()),
     OutputLine(SuccessStyle, "Actors created: " + NatToString(createdCount)),
     OutputLine(WarningStyle, "Actors skipped: " + NatToString(skippedCount))]
  }

  /** Everything handle writes after the import. */
  function SummaryLines(createdCount: nat, skippedCount: nat, errors: seq<string>): seq<OutputLine>
  {
    CountLines(createdCount, skippedCount)
    + (if errors != [] then [ErrorHeader] + ErrorLines(errors) else [])
    + (if createdCount > 0 then [SuccessBanner] else [])
  }

  class Command {
    /** Everything written to self.stdout so far. */
    var stdout: seq<OutputLine>

    constructor ()
      ensures stdout == []
    {
      stdout := [];
    }

    /** self.stdout.write(line) */
    method Write(line: OutputLine)
      modifies this
      ensures stdout == old(stdout) + [line]
    {
      stdout := stdout + [line];
    }

    /** The banner and the two counters. */
    method WriteCounts(createdCount: nat, skippedCount: nat)
      modifies this
      ensures stdout == old(stdout) + CountLines(createdCount, skippedCount)
    {
      Write(OutputLine(SuccessStyle, "\n" + Rule()));
      Write(OutputLine(SuccessStyle, "IMPORTATION SUMMARY"));
      Write(OutputLine(SuccessStyle, Rule()));
      Write(OutputLine(SuccessStyle, "Actors created: " + NatToString(createdCount)));
      Write(OutputLine(WarningStyle, "Actors skipped: " + NatToString(skippedCount)));
    }

    /** The loop over the errors: one line per error, in order. */
    method WriteErrors(errors: seq<string>)
      modifies this
      ensures stdout == old(stdout) + ErrorLines(errors)
    {
      for i := 0 to |errors|
        invariant stdout == old(stdout) + ErrorLines(errors[..i])
      {
        assert errors[..i + 1][..i] == errors[..i];
        Write(OutputLine(ErrorStyle, "  - " + errors[i]));
      }
      assert errors[..|errors|] == errors;
    }

    /** The writes of handle after the import: the counters, the errors if any, the banner if something was created. */
    method WriteSummary(createdCount: nat, skippedCount: nat, errors: seq<string>)
      modifies this
      ensures stdout == old(stdout) + SummaryLines(createdCount, skippedCount, errors)
    {
      WriteCounts(createdCount, skippedCount);
      ghost var counted := stdout;
      if errors != [] {
        Write(ErrorHeader);
        WriteErrors(errors);
      }
      assert stdout == counted + (if errors != [] then [ErrorHeader] + ErrorLines(errors) else []);
      if createdCount > 0 {
        Write(SuccessBanner);
      }
    }

    /** The import itself: a fresh service runs over the rows and hands back its counters and errors. */
    method RunImport(filePath: string, rows: seq<Row>, today: Date, rejects: Actor -> Option<string>)
      returns (createdCount: nat, skippedCount: nat, errors: seq<string>)
      ensures var result := ActorImport.ImportResult(rows, today, rejects);
              createdCount == result.createdCount && skippedCount == result.skippedCount && errors == result.errors
    {
      var service := new ActorImportService(filePath);
      createdCount, skippedCount, errors := service.ImportActors(rows, today, rejects);
      InitialConcat(ActorImport.ImportResult(rows, today, rejects));
    }

    /** The part of handle after the reader is chosen: the import, then its summary. */
    method ImportAndReport(filePath: string, rows: seq<Row>, today: Date, rejects: Actor -> Option<string>)
      modifies this
      ensures var result := ActorImport.ImportResult(rows, today, rejects);
              stdout == old(stdout) + SummaryLines(result.createdCount, result.skippedCount, result.errors)
    {
      var createdCount, skippedCount, errors := RunImport(filePath, rows, today, rejects);
      WriteSummary(createdCount, skippedCount, errors);
    }

    /**
     * handle: an unknown extension raises before anything is imported or
     * written; otherwise the actors are imported by a fresh service and the
     * summary of its counters and errors is written.
     */
    method Handle(filePath: string, rows: seq<Row>, today: Date, rejects: Actor -> Option<string>) returns (r: Result<(), string>)
      modifies this
      ensures MapFileReader(filePath).Failure? ==> r == Failure(MapFileReader(filePath).error) && stdout == old(stdout)
      ensures MapFileReader(filePath).Success? ==>
                var result := ActorImport.ImportResult(rows, today, rejects);
                r.Success? && stdout == old(stdout) + SummaryLines(result.createdCount, result.skippedCount, result.errors)
    {
      var fileReader := MapFileReader(filePath);
      if fileReader.Failure? {
        return Failure(fileReader.error);
      }
      ImportAndReport(filePath, rows, today, rejects);
      return Success(());
    }
  }

  // Properties.

  /** The reader follows the extension, and every other path is refused with the path in the message. */
  lemma ReaderByExtension(filePath: string)
    ensures MapFileReader(filePath) == Success(CsvReader) <==> EndsWith(filePath, ".csv")
    ensures MapFileReader(filePath) == Success(ExcelReader) <==> EndsWith(filePath, ".xlsx")
    ensures MapFileReader(filePath).Failure? <==> !EndsWith(filePath, ".csv") && !EndsWith(filePath, ".xlsx")
    ensures MapFileReader(filePath).Failure? ==> MapFileReader(filePath).error == "Invalid file extension: " + filePath
  {
    if EndsWith(filePath, ".xlsx") {
      var n := |filePath|;
      assert filePath[n - 1] == filePath[n - 5..][4] == 'x';
    }
  }

  /** The extension test is case-sensitive: "actors.CSV" is refused. */
  lemma UpperCaseExtensionRefused()
    ensures MapFileReader("actors.CSV") == Failure("Invalid file extension: actors.CSV")
  {
    assert !EndsWith("actors.CSV", ".csv") by { assert "actors.CSV"[6..][1] == 'C'; }
    assert !EndsWith("actors.CSV", ".xlsx") by { assert "actors.CSV"[5..][1] == '.'; }
    assert "Invalid file extension: " + "actors.CSV" == "Invalid file extension: actors.CSV";
  }

  /** ErrorLines writes one line per error, in order. */
  lemma {:induction false} ErrorLinesSpec(errors: seq<string>)
    ensures |ErrorLines(errors)| == |errors|
    ensures forall j :: 0 <= j < |errors| ==> ErrorLines(errors)[j] == OutputLine(ErrorStyle, "  - " + errors[j])
  {
    if errors != [] {
      ErrorLinesSpec(errors[..|errors| - 1]);
    }
  }

  /** The summary is the counter lines, then the error section, then the banner. */
  lemma SummaryParts(createdCount: nat, skippedCount: nat, errors: seq<string>)
    ensures SummaryLines(createdCount, skippedCount, errors)
            == CountLines(createdCount, skippedCount)
               + (if errors != [] then [ErrorHeader] + ErrorLines(errors) else [])
               + (if createdCount > 0 then [SuccessBanner] else [])
  {
  }

  /** None of the counter lines is the error header or the banner. */
  lemma CountLinesDiffer(createdCount: nat, skippedCount: nat)
    ensures ErrorHeader !in CountLines(createdCount, skippedCount)
    ensures SuccessBanner !in CountLines(createdCount, skippedCount)
  {
    assert ("\n" + Rule())[1] == '=';
    assert Rule()[0] == '=';
    assert ("Actors created: " + NatToString(createdCount))[0] == 'A';
    assert ("Actors skipped: " + NatToString(skippedCount))[0] == 'A';
  }

  /** No error line is the error header or the banner: error lines start with a blank. */
  lemma ErrorLinesDiffer(errors: seq<string>)
    ensures ErrorHeader !in ErrorLines(errors)
    ensures SuccessBanner !in ErrorLines(errors)
  {
    ErrorLinesSpec(errors);
    assert forall j :: 0 <= j < |errors| ==> ErrorLines(errors)[j].text[0] == ' ';
  }

  /** Where each line of the summary sits: the counters at 3 and 4, then the header and the errors in order. */
  lemma SummaryLayout(createdCount: nat, skippedCount: nat, errors: seq<string>)
    ensures var lines := SummaryLines(createdCount, skippedCount, errors);
            && |lines| == 5 + (if errors != [] then 1 + |errors| else 0) + (if createdCount > 0 then 1 else 0)
            && lines[3] == OutputLine(SuccessStyle, "Actors created: " + NatToString(createdCount))
            && lines[4] == OutputLine(WarningStyle, "Actors skipped: " + NatToString(skippedCount))
            && (errors != [] ==> lines[5] == ErrorHeader)
            && (errors != [] ==> forall j :: 0 <= j < |errors| ==> lines[6 + j] == OutputLine(ErrorStyle, "  - " + errors[j]))
  {
    SummaryParts(createdCount, skippedCount, errors);
    SectionsLayout(CountLines(createdCount, skippedCount), errors, if createdCount > 0 then [SuccessBanner] else []);
  }

  /** Where the lines of counters + error section + tail sit, whatever the counter lines say. */
  lemma SectionsLayout(counts: seq<OutputLine>, errors: seq<string>, tail: seq<OutputLine>)
    requires |counts| == 5
    ensures var lines := counts + (if errors != [] then [ErrorHeader] + ErrorLines(errors) else []) + tail;
            && |lines| == 5 + (if errors != [] then 1 + |errors| else 0) + |tail|
            && lines[3] == counts[3] && lines[4] == counts[4]
            && (errors != [] ==> lines[5] == ErrorHeader)
            && (errors != [] ==> forall j :: 0 <= j < |errors| ==> lines[6 + j] == OutputLine(ErrorStyle, "  - " + errors[j]))
  {
    ErrorLinesSpec(errors);
    var section := if errors != [] then [ErrorHeader] + ErrorLines(errors) else [];
    var lines := counts + section + tail;
    if errors != [] {
      forall j | 0 <= j < |errors| ensures lines[6 + j] == OutputLine(ErrorStyle, "  - " + errors[j]) {
        assert lines[6 + j] == section[1 + j] == ErrorLines(errors)[j];
      }
    }
  }

  /** The error header is written exactly when there are errors. */
  lemma SummaryErrorSection(createdCount: nat, skippedCount: nat, errors: seq<string>)
    ensures ErrorHeader in SummaryLines(createdCount, skippedCount, errors) <==> errors != []
  {
    SummaryParts(createdCount, skippedCount, errors);
    CountLinesDiffer(createdCount, skippedCount);
    ErrorLinesDiffer(errors);
  }

  /** The success banner closes the summary exactly when something was created. */
  lemma SummaryBanner(createdCount: nat, skippedCount: nat, errors: seq<string>)
    ensures var lines := SummaryLines(createdCount, skippedCount, errors);
            lines[|lines| - 1] == SuccessBanner <==> createdCount > 0
  {
    SummaryParts(createdCount, skippedCount, errors);
    var lines := SummaryLines(createdCount, skippedCount, errors);
    if createdCount == 0 {
      if errors != [] {
        ErrorLinesDiffer(errors);
        ErrorLinesSpec(errors);
        assert lines[|lines| - 1] == ErrorLines(errors)[|errors| - 1];
      } else {
        CountLinesDiffer(createdCount, skippedCount);
        assert lines[|lines| - 1] == CountLines(createdCount, skippedCount)[4];
      }
    }
  }

  /**
   * The summary: the two counters are always written (lines 3 and 4); the
   * error header and then one line per error, in order, only when there are
   * errors; the success banner last, only when something was created.
   */
  lemma SummarySpec(createdCount: nat, skippedCount: nat, errors: seq<string>)
    ensures var lines := SummaryLines(createdCount, skippedCount, errors);
            && |lines| == 5 + (if errors != [] then 1 + |errors| else 0) + (if createdCount > 0 then 1 else 0)
            && lines[3] == OutputLine(SuccessStyle, "Actors created: " + NatToString(createdCount))
            && lines[4] == OutputLine(WarningStyle, "Actors skipped: " + NatToString(skippedCount))
            && (ErrorHeader in lines <==> errors != [])
            && (errors != [] ==> lines[5] == ErrorHeader)
            && (errors != [] ==> forall j :: 0 <= j < |errors| ==> lines[6 + j] == OutputLine(ErrorStyle, "  - " + errors[j]))
            && (lines[|lines| - 1] == SuccessBanner <==> createdCount > 0)
  {
    SummaryLayout(createdCount, skippedCount, errors);
    SummaryErrorSection(createdCount, skippedCount, errors);
    SummaryBanner(createdCount, skippedCount, errors);
  }

  /** An import of valid rows only reports every actor created, no error section, and the banner (when there was a row). */
  lemma CleanImportSummary(rows: seq<Row>, today: Date, rejects: Actor -> Option<string>)
    requires forall k :: 0 <= k < |rows| ==> ValidActorRow(rows[k], today) && rejects(ActorOf(rows[k])).None?
    ensures var result := ActorImport.ImportResult(rows, today, rejects);
            var lines := SummaryLines(result.createdCount, result.skippedCount, result.errors);
            && lines[3] == OutputLine(SuccessStyle, "Actors created: " + NatToString(|rows|))
            && ErrorHeader !in lines
            && (lines[|lines| - 1] == SuccessBanner <==> rows != [])
  {
    var result := ActorImport.ImportResult(rows, today, rejects);
    ValidBatchCreatesAll(rows, today, rejects);
    SummarySpec(result.createdCount, result.skippedCount, result.errors);
  }
}
