/** The dataset runner script (bumboo-scraper/scripts/run_dataset.py): the
    range of dataset rows to run, and the runner command issued for each.
    The number of dataset rows, the interpreter prefix (which depends on
    whether a virtual environment exists) and the parsed command line are
    parameters; printing and running the commands are not modelled beyond
    the list of commands printed and the list executed. */
module RunDataset {
  import opened Text
  import opened Models

  // ---------------------------------------------------------------------
  // The row range

  /** `iter_indexes(start, end)` over a dataset of `rowCount` rows: start
      defaults to 0; end defaults to, and is clamped down to, the last row;
      a negative start, or a start past the end, raises ValueError. */
  function IterIndexes(rowCount: nat, start: Option<int>, end: Option<int>): Result<seq<int>>
  {
    var last := rowCount - 1;
    var s := if start.None? then 0 else start.value;
    var e := if end.None? || end.value > last then last else end.value;
    if s < 0 then Err("ValueError: start must be >= 0")
    else if s > e then Err("ValueError: start must be <= end")
    else Ok(seq(e - s + 1, i requires 0 <= i <= e - s => s + i))
  }

  /** The start and the clamped end `iter_indexes` works with. */
  function EffectiveStart(start: Option<int>): int
  {
    if start.None? then 0 else start.value
  }

  function EffectiveEnd(rowCount: nat, end: Option<int>): int
  {
    if end.None? || end.value > rowCount - 1 then rowCount - 1 else end.value
  }

  /** The range is produced exactly when the start is non-negative and not
      past the clamped end; it is then every index from start to end in
      ascending order, all of them rows of the dataset. Otherwise the error
      names the check that failed, the sign check first. */
  lemma IterIndexesExactly(rowCount: nat, start: Option<int>, end: Option<int>)
    ensures var s := EffectiveStart(start);
            var e := EffectiveEnd(rowCount, end);
            var r := IterIndexes(rowCount, start, end);
            && (r.Ok? <==> 0 <= s <= e)
            && (s < 0 ==> r == Err("ValueError: start must be >= 0"))
            && (0 <= s && s > e ==> r == Err("ValueError: start must be <= end"))
            && (r.Ok? ==> |r.value| == e - s + 1 && r.value[0] == s && r.value[|r.value| - 1] == e)
            && (r.Ok? ==> forall i :: 0 <= i < |r.value| ==> r.value[i] == s + i && 0 <= r.value[i] < rowCount)
            && (r.Ok? ==> forall i, j :: 0 <= i < j < |r.value| ==> r.value[i] < r.value[j])
  {
  }

  /** With no rows, the last index is -1 and every run raises. */
  lemma EmptyDatasetRaises(start: Option<int>, end: Option<int>)
    ensures IterIndexes(0, start, end).Err?
  {
  }

  /** With no bounds given, every row is run, in order. */
  lemma DefaultRunsEveryRow(rowCount: nat)
    requires rowCount > 0
    ensures IterIndexes(rowCount, None, None).Ok?
    ensures IterIndexes(rowCount, None, None).value == seq(rowCount, i => i)
  {
  }

  /** An end past the last row runs the same rows as no end at all. */
  lemma EndIsClamped(rowCount: nat, start: Option<int>, end: int)
    requires end >= rowCount - 1
    ensures IterIndexes(rowCount, start, Some(end)) == IterIndexes(rowCount, start, None)
  {
  }

  // ---------------------------------------------------------------------
  // Decimal text of an index

  function DigitChar(d: nat): char
    requires d < 10
  {
    ('0' as int + d) as char
  }

  /** `str(n)` for a non-negative integer. */
  function Decimal(n: nat): (s: string)
    ensures |s| > 0
    decreases n
  {
    if n < 10 then [DigitChar(n)] else Decimal(n / 10) + [DigitChar(n % 10)]
  }

  /** `int(s)` for a string of ASCII digits. */
  function ParseDecimal(s: string): int
    decreases |s|
  {
    if s == [] then 0
    else ParseDecimal(s[..|s| - 1]) * 10 + (s[|s| - 1] as int - '0' as int)
  }

  /** The decimal text of `n` consists of digits, has no leading zero, and
      reads back as `n`. */
  lemma {:induction false} DecimalRoundTrip(n: nat)
    ensures forall k :: 0 <= k < |Decimal(n)| ==> IsDigit(Decimal(n)[k])
    ensures Decimal(n)[0] == '0' ==> n == 0
    ensures ParseDecimal(Decimal(n)) == n
    decreases n
  {
    if n >= 10 {
      DecimalRoundTrip(n / 10);
      var s := Decimal(n);
      assert s[..|s| - 1] == Decimal(n / 10);
      assert s[0] == Decimal(n / 10)[0];
    }
  }

  // ---------------------------------------------------------------------
  // The runner commands

  /** The command-line options of the script. */
  datatype Args = Args(
    start: Option<int>,
    end: Option<int>,
    logLevel: string,
    localDump: bool,
    dumpFirst: bool,
    table: string,
    dryRun: bool)

  /** The options' defaults: log level INFO and table `tissue_prices`. */
  const DefaultLogLevel: string := "INFO"
  const DefaultTable: string := "tissue_prices"

  /** The command for row `idx`: the interpreter, the runner module and its
      fixed options, then `--dump-first` and `--local-dump` when set. */
  function Command(python: seq<string>, idx: nat, args: Args): seq<string>
  {
    python + ["-m", "scrapers.runner", "--dataset-row", Decimal(idx), "--table", args.table, "--log-level", args.logLevel]
    + (if args.dumpFirst then ["--dump-first"] else [])
    + (if args.localDump then ["--local-dump"] else [])
  }

  /** Builds the command for one row by appending the optional flags. */
  method BuildCommand(python: seq<string>, idx: nat, args: Args) returns (cmd: seq<string>)
    ensures cmd == Command(python, idx, args)
  {
    cmd := python + ["-m", "scrapers.runner", "--dataset-row", Decimal(idx), "--table", args.table, "--log-level", args.logLevel];
    if args.dumpFirst {
      cmd := cmd + ["--dump-first"];
    }
    if args.localDump {
      cmd := cmd + ["--local-dump"];
    }
  }

  /** The command keeps the interpreter prefix and passes the row, table and
      log level as option values; the two flags appear exactly when set, the
      dump flag first. */
  lemma CommandShape(python: seq<string>, idx: nat, args: Args)
    ensures var cmd := Command(python, idx, args);
            var p := |python|;
            && cmd[..p] == python
            && cmd[p..p + 8] == ["-m", "scrapers.runner", "--dataset-row", Decimal(idx), "--table", args.table, "--log-level", args.logLevel]
            && ParseDecimal(cmd[p + 3]) == idx
            && |cmd| == p + 8 + (if args.dumpFirst then 1 else 0) + (if args.localDump then 1 else 0)
            && (args.dumpFirst ==> cmd[p + 8] == "--dump-first")
            && (args.localDump ==> cmd[|cmd| - 1] == "--local-dump")
  {
    DecimalRoundTrip(idx);
  }

  // ---------------------------------------------------------------------
  // The interpreter prefix

  /** An element of the command list: a string, or a filesystem path object
      (`ROOT_DIR / "venv" / "bin" / "python"`), shown by its text. */
  datatype CmdPart = Text(text: string) | FsPath(path: string)

  /** `python_cmd`: the virtual environment's interpreter when it exists,
      else plain `python`. */
  function PythonParts(venvExists: bool, venvPython: string): seq<CmdPart>
  {
    if venvExists then [FsPath(venvPython)] else [Text("python")]
  }

  /** A string taken into the command list. */
  function AsText(t: string): CmdPart
  {
    Text(t)
  }

  /** `str(part)` */
  function PartText(part: CmdPart): string
  {
    match part
    case Text(t) => t
    case FsPath(p) => p
  }

  /** `' '.join(parts)` as the script writes it: `str.join` accepts only
      strings and raises TypeError on a path object. */
  function JoinAsWritten(parts: seq<CmdPart>): (r: Result<string>)
    ensures r.Err? <==> exists k :: 0 <= k < |parts| && parts[k].FsPath?
    ensures r.Err? ==> r.error == "TypeError"
    ensures r.Ok? ==> r.value == Join(MapSeq(PartText, parts), " ")
  {
    if exists k :: 0 <= k < |parts| && parts[k].FsPath? then Err("TypeError")
    else Ok(Join(MapSeq(PartText, parts), " "))
  }

  /** The command of one row, with the interpreter prefix as the script
      holds it. */
  function CommandParts(pythonParts: seq<CmdPart>, idx: nat, args: Args): seq<CmdPart>
  {
    pythonParts + MapSeq(AsText, Command([], idx, args))
  }

  /** Strings taken into the command list read back as themselves. */
  lemma {:induction false} TextsReadBack(ts: seq<string>)
    ensures forall k :: 0 <= k < |MapSeq(AsText, ts)| ==> MapSeq(AsText, ts)[k].Text?
    ensures MapSeq(PartText, MapSeq(AsText, ts)) == ts
  {
    if ts != [] {
      var init := ts[..|ts| - 1];
      TextsReadBack(init);
      MapSeqAt(AsText, ts);
      var parts := MapSeq(AsText, ts);
      assert parts[..|parts| - 1] == MapSeq(AsText, init);
    }
  }

  /** With a virtual environment present, announcing the first row already
      raises TypeError, so no row is run; without one, the announced text is
      the corrected one. */
  lemma AnnouncementAsWritten(venvExists: bool, venvPython: string, idx: nat, args: Args)
    ensures venvExists ==> JoinAsWritten(CommandParts(PythonParts(venvExists, venvPython), idx, args)) == Err("TypeError")
    ensures !venvExists ==>
              JoinAsWritten(CommandParts(PythonParts(venvExists, venvPython), idx, args))
              == Ok(Join(Command(MapSeq(PartText, PythonParts(venvExists, venvPython)), idx, args), " "))
  {
    if venvExists {
      VenvAnnouncementRaises(venvPython, idx, args);
    } else {
      PlainAnnouncement(idx, args);
      assert MapSeq(PartText, PythonParts(false, venvPython)) == ["python"];
    }
  }

  /** The interpreter as a path object makes the join raise. */
  lemma VenvAnnouncementRaises(venvPython: string, idx: nat, args: Args)
    ensures JoinAsWritten(CommandParts([FsPath(venvPython)], idx, args)) == Err("TypeError")
  {
    var parts := CommandParts([FsPath(venvPython)], idx, args);
    assert parts[0].FsPath?;
  }

  /** Plain `python` keeps every element a string, and the join succeeds. */
  lemma PlainAnnouncement(idx: nat, args: Args)
    ensures JoinAsWritten(CommandParts([Text("python")], idx, args)) == Ok(Join(Command(["python"], idx, args), " "))
  {
    var tail := Command([], idx, args);
    var tailParts := MapSeq(AsText, tail);
    var parts := CommandParts([Text("python")], idx, args);
    TextsReadBack(tail);
    assert parts == [Text("python")] + tailParts;
    assert forall k :: 0 <= k < |parts| ==> parts[k].Text? by {
      assert forall k :: 1 <= k < |parts| ==> parts[k] == tailParts[k - 1];
    }
    MapSeqAppend(PartText, [Text("python")], tailParts);
    assert MapSeq(PartText, [Text("python")]) == ["python"];
    assert MapSeq(PartText, parts) == ["python"] + tail;
    assert Command(["python"], idx, args) == ["python"] + tail;
  }

  /** The line printed before each row. */
  function Announcement(idx: nat, cmd: seq<string>): string
  {
    "Running row " + Decimal(idx) + ": " + Join(cmd, " ")
  }

  /** The commands for the given non-negative indices, in order. */
  function Commands(python: seq<string>, indexes: seq<int>, args: Args): (cmds: seq<seq<string>>)
    requires forall k :: 0 <= k < |indexes| ==> indexes[k] >= 0
    ensures |cmds| == |indexes|
  {
    if indexes == [] then []
    else Commands(python, indexes[..|indexes| - 1], args) + [Command(python, indexes[|indexes| - 1], args)]
  }

  /** Each command is the command for the index at the same position. */
  lemma {:induction false} CommandsAt(python: seq<string>, indexes: seq<int>, args: Args)
    requires forall k :: 0 <= k < |indexes| ==> indexes[k] >= 0
    ensures forall k :: 0 <= k < |indexes| ==> Commands(python, indexes, args)[k] == Command(python, indexes[k], args)
  {
    if indexes != [] {
      var init := indexes[..|indexes| - 1];
      CommandsAt(python, init, args);
      assert forall k :: 0 <= k < |init| ==> indexes[k] == init[k];
    }
  }

  /** The announcements for the given non-negative indices, in order. */
  function Announcements(python: seq<string>, indexes: seq<int>, args: Args): (lines: seq<string>)
    requires forall k :: 0 <= k < |indexes| ==> indexes[k] >= 0
    ensures |lines| == |indexes|
  {
    if indexes == [] then []
    else
      var idx := indexes[|indexes| - 1];
      Announcements(python, indexes[..|indexes| - 1], args) + [Announcement(idx, Command(python, idx, args))]
  }

  /** Each announcement names the index at the same position and its command. */
  lemma {:induction false} AnnouncementsAt(python: seq<string>, indexes: seq<int>, args: Args)
    requires forall k :: 0 <= k < |indexes| ==> indexes[k] >= 0
    ensures forall k :: 0 <= k < |indexes| ==>
              Announcements(python, indexes, args)[k] == Announcement(indexes[k], Command(python, indexes[k], args))
  {
    if indexes != [] {
      var init := indexes[..|indexes| - 1];
      AnnouncementsAt(python, init, args);
      assert forall k :: 0 <= k < |init| ==> indexes[k] == init[k];
    }
  }

  /** One more index appends its announcement. */
  lemma AnnouncementsStep(python: seq<string>, indexes: seq<int>, k: int, args: Args)
    requires 0 <= k < |indexes|
    requires forall m :: 0 <= m < |indexes| ==> indexes[m] >= 0
    ensures Announcements(python, indexes[..k + 1], args) ==
            Announcements(python, indexes[..k], args) + [Announcement(indexes[k], Command(python, indexes[k], args))]
  {
    assert indexes[..k + 1][..k] == indexes[..k];
  }

  /** One more index appends its command. */
  lemma CommandsStep(python: seq<string>, indexes: seq<int>, k: int, args: Args)
    requires 0 <= k < |indexes|
    requires forall m :: 0 <= m < |indexes| ==> indexes[m] >= 0
    ensures Commands(python, indexes[..k + 1], args) == Commands(python, indexes[..k], args) + [Command(python, indexes[k], args)]
  {
    assert indexes[..k + 1][..k] == indexes[..k];
  }

  /** The indices of a range are row numbers, never negative. */
  lemma IndexesNonNegative(rowCount: nat, start: Option<int>, end: Option<int>)
    requires IterIndexes(rowCount, start, end).Ok?
    ensures forall m :: 0 <= m < |IterIndexes(rowCount, start, end).value| ==> IterIndexes(rowCount, start, end).value[m] >= 0
  {
    IterIndexesExactly(rowCount, start, end);
  }

  /** What the script does: the announcement printed and the command issued
      for each row, in order, or the ValueError of the row range. */
  datatype Outcome = Outcome(printed: seq<string>, executed: seq<seq<string>>)

  /** `main`: one command per row of the range, each announced, and run
      unless this is a dry run. A failing command (which stops the script)
      is not modelled. */
  method Run(rowCount: nat, python: seq<string>, args: Args) returns (r: Result<Outcome>)
    ensures IterIndexes(rowCount, args.start, args.end).Err? ==> r == Err(IterIndexes(rowCount, args.start, args.end).error)
    ensures IterIndexes(rowCount, args.start, args.end).Ok? ==> r.Ok?
    ensures r.Ok? ==>
              var indexes := IterIndexes(rowCount, args.start, args.end).value;
              && |r.value.printed| == |indexes|
              && (forall k :: 0 <= k < |indexes| ==>
                    indexes[k] >= 0 && r.value.printed[k] == Announcement(indexes[k], Command(python, indexes[k], args)))
              && r.value.executed == (if args.dryRun then [] else Commands(python, indexes, args))
  {
    var range := IterIndexes(rowCount, args.start, args.end);
    if range.Err? {
      return Err(range.error);
    }
    var indexes := range.value;
    IndexesNonNegative(rowCount, args.start, args.end);
    var printed: seq<string> := [];
    var executed: seq<seq<string>> := [];
    var k := 0;
    while k < |indexes|
      invariant 0 <= k <= |indexes|
      invariant printed == Announcements(python, indexes[..k], args)
      invariant executed == (if args.dryRun then [] else Commands(python, indexes[..k], args))
    {
      var idx := indexes[k];
      var cmd := BuildCommand(python, idx, args);
      printed := printed + [Announcement(idx, cmd)];
      CommandsStep(python, indexes, k, args);
      AnnouncementsStep(python, indexes, k, args);
      if !args.dryRun {
        executed := executed + [cmd];
      }
      k := k + 1;
    }
    assert indexes[..k] == indexes;
    AnnouncementsAt(python, indexes, args);
    r := Ok(Outcome(printed, executed));
  }

}
