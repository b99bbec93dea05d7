/** The REPORT scanner and segment aggregation of a constrained molecular
    dynamics run (postdoc_scripts/constrained_force_stats.py).

    A REPORT file is scanned line by line. Three substring markers are tested
    independently on every line: a `b_m` line contributes its second
    whitespace token as a bias (lambda) value, a `cc>` line its third token
    as a constrained-bond force, and a `MD step No.` line one MD step. The
    run segments `RUN_1`, `RUN_2`, ... and the current directory `.` are read
    in order and their results concatenated; the series of one constraint is
    every N-th lambda value, N being the number of lines of ICONST. */
module ForceStats {
  import opened Prelude
  import opened Text
  import opened Sorting

  const BiasMarker := "b_m"
  const ForceMarker := "cc>"
  const StepMarker := "MD step No."

  /** What scanning one or more REPORT files yields. */
  datatype Run = Run(lambdas: seq<real>, forces: seq<real>, mdSteps: nat)

  const EmptyRun := Run([], [], 0)

  /** The results of two consecutive stretches of lines, one after the other. */
  function Join(a: Run, b: Run): Run {
    Run(a.lambdas + b.lambdas, a.forces + b.forces, a.mdSteps + b.mdSteps)
  }

  /** Sequencing of two scans: the first exception raised wins. */
  function Then(a: Result<Run, Error>, b: Result<Run, Error>): Result<Run, Error> {
    if a.Err? then a else if b.Err? then b else Ok(Join(a.value, b.value))
  }

  /** `float(line.split()[1])`. */
  function BiasValue(line: string, parse: string -> Option<real>): Result<real, Error> {
    var tokens := Split(line);
    if |tokens| < 2 then Err(IndexError)
    else if parse(tokens[1]).None? then Err(ValueError)
    else Ok(parse(tokens[1]).value)
  }

  /** `float(line.split()[2])`. */
  function ForceValue(line: string, parse: string -> Option<real>): Result<real, Error> {
    var tokens := Split(line);
    if |tokens| < 3 then Err(IndexError)
    else if parse(tokens[2]).None? then Err(ValueError)
    else Ok(parse(tokens[2]).value)
  }

  /** What one line contributes. A bias token that is missing or not a number
      raises; a force token that is missing raises (IndexError is not caught);
      a force token that is not a number is dropped (ValueError is caught). */
  function LineRun(line: string, parse: string -> Option<real>): Result<Run, Error> {
    var bias := BiasValue(line, parse);
    var force := ForceValue(line, parse);
    if Contains(line, BiasMarker) && bias.Err? then Err(bias.error)
    else if Contains(line, ForceMarker) && force == Err(IndexError) then Err(IndexError)
    else
      Ok(Run(if Contains(line, BiasMarker) then [bias.value] else [],
             if Contains(line, ForceMarker) && force.Ok? then [force.value] else [],
             if Contains(line, StepMarker) then 1 else 0))
  }

  /** The contributions of consecutive lines, sequenced: the first exception
      raised wins, otherwise the results are joined in order. */
  function Fold(parts: seq<Result<Run, Error>>): Result<Run, Error>
    decreases |parts|
  {
    if parts == [] then Ok(EmptyRun)
    else Then(Fold(parts[..|parts| - 1]), parts[|parts| - 1])
  }

  function LineRuns(lines: seq<string>, parse: string -> Option<real>): (r: seq<Result<Run, Error>>)
    ensures |r| == |lines|
  {
    seq(|lines|, i requires 0 <= i < |lines| => LineRun(lines[i], parse))
  }

  /** The scan of a sequence of lines, in order. */
  function Scan(lines: seq<string>, parse: string -> Option<real>): Result<Run, Error> {
    Fold(LineRuns(lines, parse))
  }

  /** Scanning one more line. */
  lemma ScanSnoc(lines: seq<string>, line: string, parse: string -> Option<real>)
    ensures Scan(lines + [line], parse) == Then(Scan(lines, parse), LineRun(line, parse))
  {
    assert LineRuns(lines + [line], parse)[..|lines|] == LineRuns(lines, parse);
  }

  /** Scanning a single line is that line's contribution. */
  lemma ScanSingle(line: string, parse: string -> Option<real>)
    ensures Scan([line], parse) == LineRun(line, parse)
  {
    ScanSnoc([], line, parse);
    assert [] + [line] == [line];
    ThenUnit(LineRun(line, parse));
  }

  /** `read_simulation_data`: scans a REPORT file line by line. */
  method ReadSimulationData(report: string, parse: string -> Option<real>) returns (r: Result<Run, Error>)
    ensures r == Scan(Lines(report), parse)
  {
    var lines := Lines(report);
    var lambdas, forces := [], [];
    var steps: nat := 0;
    var i := 0;
    while i < |lines|
      invariant 0 <= i <= |lines|
      invariant Scan(lines[..i], parse) == Ok(Run(lambdas, forces, steps))
    {
      var line := lines[i];
      if !LineScans(line, parse) {
        // `float(...)` of a `b_m` line, or the index of a `cc>` line, raises
        ScanStepRaises(lines, i, parse);
        LineRunErr(line, parse);
        return LineRun(line, parse);
      }
      ScanStep(lines, i, Run(lambdas, forces, steps), parse);
      lambdas, forces, steps := ReadLine(line, parse, lambdas, forces, steps);
      i := i + 1;
    }
    assert lines[..i] == lines;
    r := Ok(Run(lambdas, forces, steps));
  }

  /** The body of the scanning loop for a line that raises nothing: appends
      its bias value, its force value when that is a number, and counts its
      MD step. */
  method ReadLine(line: string, parse: string -> Option<real>, lambdas: seq<real>, forces: seq<real>, steps: nat)
    returns (lambdas': seq<real>, forces': seq<real>, steps': nat)
    requires LineScans(line, parse)
    ensures LineRun(line, parse).Ok?
    ensures Run(lambdas', forces', steps') == Join(Run(lambdas, forces, steps), LineRun(line, parse).value)
  {
    var bias, force := BiasValue(line, parse), ForceValue(line, parse);
    lambdas', forces', steps' := lambdas, forces, steps;
    if Contains(line, BiasMarker) {
      lambdas' := lambdas' + [bias.value];
    }
    if Contains(line, ForceMarker) && force.Ok? {
      forces' := forces' + [force.value];
    }
    // otherwise a force token that is not a number is reported and dropped
    if Contains(line, StepMarker) {
      steps' := steps' + 1;
    }
    LineJoin(line, parse, Run(lambdas, forces, steps), Run(lambdas', forces', steps'));
  }

  /** A run extended field by field with a line's contribution is the join of
      the run and that contribution. */
  lemma LineJoin(line: string, parse: string -> Option<real>, before: Run, after: Run)
    requires LineScans(line, parse)
    requires after.lambdas == before.lambdas
      + (if Contains(line, BiasMarker) then [BiasValue(line, parse).value] else [])
    requires after.forces == before.forces
      + (if Contains(line, ForceMarker) && ForceValue(line, parse).Ok? then [ForceValue(line, parse).value] else [])
    requires after.mdSteps == before.mdSteps + (if Contains(line, StepMarker) then 1 else 0)
    ensures LineRun(line, parse).Ok?
    ensures after == Join(before, LineRun(line, parse).value)
  {
    LineRunOk(line, parse);
  }

  /** One more line that raises nothing adds its contribution. */
  lemma ScanStep(lines: seq<string>, i: nat, run: Run, parse: string -> Option<real>)
    requires i < |lines| && Scan(lines[..i], parse) == Ok(run) && LineScans(lines[i], parse)
    ensures LineRun(lines[i], parse).Ok?
    ensures Scan(lines[..i + 1], parse) == Ok(Join(run, LineRun(lines[i], parse).value))
  {
    assert lines[..i + 1] == lines[..i] + [lines[i]];
    ScanSnoc(lines[..i], lines[i], parse);
    LineRunErr(lines[i], parse);
  }

  /** A line that raises ends the scan of the whole file with its exception. */
  lemma ScanStepRaises(lines: seq<string>, i: nat, parse: string -> Option<real>)
    requires i < |lines| && Scan(lines[..i], parse).Ok? && !LineScans(lines[i], parse)
    ensures Contains(lines[i], BiasMarker) && BiasValue(lines[i], parse).Err?
            ==> Scan(lines, parse) == Err(BiasValue(lines[i], parse).error)
    ensures !(Contains(lines[i], BiasMarker) && BiasValue(lines[i], parse).Err?)
            ==> Scan(lines, parse) == Err(IndexError)
  {
    assert lines[..i + 1] == lines[..i] + [lines[i]];
    ScanSnoc(lines[..i], lines[i], parse);
    LineRunErr(lines[i], parse);
    ScanPrefixRaises(lines, i + 1, parse);
  }

  lemma ScanPrefixRaises(lines: seq<string>, k: nat, parse: string -> Option<real>)
    requires k <= |lines| && Scan(lines[..k], parse).Err?
    ensures Scan(lines, parse) == Scan(lines[..k], parse)
  {
    assert LineRuns(lines, parse)[..k] == LineRuns(lines[..k], parse);
    FoldAbortsAt(LineRuns(lines, parse), k);
  }

  /** An exception raised within some prefix is the outcome of the whole sequence. */
  lemma {:induction false} FoldAbortsAt(parts: seq<Result<Run, Error>>, k: nat)
    requires k <= |parts| && Fold(parts[..k]).Err?
    ensures Fold(parts) == Fold(parts[..k])
    decreases |parts| - k
  {
    if k < |parts| {
      assert parts[..|parts| - 1][..k] == parts[..k];
      FoldAbortsAt(parts[..|parts| - 1], k);
    } else {
      assert parts[..k] == parts;
    }
  }

  lemma ThenAssociative(a: Result<Run, Error>, b: Result<Run, Error>, c: Result<Run, Error>)
    ensures Then(Then(a, b), c) == Then(a, Then(b, c))
  {
    if a.Ok? && b.Ok? && c.Ok? {
      assert (a.value.lambdas + b.value.lambdas) + c.value.lambdas
          == a.value.lambdas + (b.value.lambdas + c.value.lambdas);
      assert (a.value.forces + b.value.forces) + c.value.forces
          == a.value.forces + (b.value.forces + c.value.forces);
    }
  }

  lemma ThenUnit(a: Result<Run, Error>)
    ensures Then(a, Ok(EmptyRun)) == a && Then(Ok(EmptyRun), a) == a
  {
    if a.Ok? {
      assert a.value.lambdas + [] == a.value.lambdas && [] + a.value.lambdas == a.value.lambdas;
      assert a.value.forces + [] == a.value.forces && [] + a.value.forces == a.value.forces;
    }
  }

  lemma {:induction false} FoldAppend(a: seq<Result<Run, Error>>, b: seq<Result<Run, Error>>)
    ensures Fold(a + b) == Then(Fold(a), Fold(b))
    decreases |b|
  {
    if b == [] {
      assert a + b == a;
      ThenUnit(Fold(a));
    } else {
      var b' := b[..|b| - 1];
      FoldAppend(a, b');
      assert (a + b)[..|a + b| - 1] == a + b';
      assert (a + b)[|a + b| - 1] == b[|b| - 1];
      ThenAssociative(Fold(a), Fold(b'), b[|b| - 1]);
    }
  }

  /** Scanning two stretches of lines one after the other is scanning their
      concatenation. */
  lemma ScanAppend(a: seq<string>, b: seq<string>, parse: string -> Option<real>)
    ensures Scan(a + b, parse) == Then(Scan(a, parse), Scan(b, parse))
  {
    assert LineRuns(a + b, parse) == LineRuns(a, parse) + LineRuns(b, parse);
    FoldAppend(LineRuns(a, parse), LineRuns(b, parse));
  }

  /** A `cc>` line whose force token is not a number, and that carries no
      other marker, contributes nothing: the scan goes on as if it were not
      there. */
  lemma DroppedForceLine(before: seq<string>, line: string, after: seq<string>, parse: string -> Option<real>)
    requires Contains(line, ForceMarker) && ForceValue(line, parse) == Err(ValueError)
    requires !Contains(line, BiasMarker) && !Contains(line, StepMarker)
    ensures Scan(before + [line] + after, parse) == Scan(before + after, parse)
  {
    assert LineRun(line, parse) == Ok(EmptyRun);
    ScanSingle(line, parse);
    ScanAppend(before, [line], parse);
    ThenUnit(Scan(before, parse));
    assert Scan(before + [line], parse) == Scan(before, parse);
    ScanAppend(before + [line], after, parse);
    ScanAppend(before, after, parse);
  }

  /** One line carrying all three markers contributes to all three outputs. */
  lemma MarkersIndependent(line: string, parse: string -> Option<real>, lambda: real, force: real)
    requires Contains(line, BiasMarker) && Contains(line, ForceMarker) && Contains(line, StepMarker)
    requires BiasValue(line, parse) == Ok(lambda) && ForceValue(line, parse) == Ok(force)
    ensures Scan([line], parse) == Ok(Run([lambda], [force], 1))
  {
    ScanSingle(line, parse);
  }

  /** The lines that contain `marker`, in file order. */
  function Marked(lines: seq<string>, marker: string): (r: seq<string>)
    ensures |r| <= |lines|
    ensures forall l | l in r :: Contains(l, marker)
  {
    if lines == [] then []
    else
      var last := lines[|lines| - 1];
      Marked(lines[..|lines| - 1], marker) + (if Contains(last, marker) then [last] else [])
  }

  /** The force tokens of `lines` that are numbers, in order. */
  function KeptForces(lines: seq<string>, parse: string -> Option<real>): seq<real> {
    if lines == [] then []
    else
      var f := ForceValue(lines[|lines| - 1], parse);
      KeptForces(lines[..|lines| - 1], parse) + (if f.Ok? then [f.value] else [])
  }

  /** Whether a line can be scanned without an exception. */
  predicate LineScans(line: string, parse: string -> Option<real>) {
    (Contains(line, BiasMarker) ==> BiasValue(line, parse).Ok?)
    && (Contains(line, ForceMarker) ==> ForceValue(line, parse) != Err(IndexError))
  }

  /** The scan succeeds exactly when every line can be scanned. */
  lemma {:induction false} ScanSucceeds(lines: seq<string>, parse: string -> Option<real>)
    ensures Scan(lines, parse).Ok? <==> forall i | 0 <= i < |lines| :: LineScans(lines[i], parse)
    decreases |lines|
  {
    if lines != [] {
      var init := lines[..|lines| - 1];
      ScanSucceeds(init, parse);
      assert lines == init + [lines[|lines| - 1]];
      ScanSnoc(init, lines[|lines| - 1], parse);
      assert forall i | 0 <= i < |init| :: init[i] == lines[i];
    }
  }

  /** Which exception a line raises, if any. */
  lemma LineRunErr(line: string, parse: string -> Option<real>)
    ensures LineRun(line, parse).Ok? <==> LineScans(line, parse)
    ensures Contains(line, BiasMarker) && BiasValue(line, parse).Err?
            ==> LineRun(line, parse) == Err(BiasValue(line, parse).error)
    ensures !(Contains(line, BiasMarker) && BiasValue(line, parse).Err?)
            && Contains(line, ForceMarker) && ForceValue(line, parse) == Err(IndexError)
            ==> LineRun(line, parse) == Err(IndexError)
  {}

  /** The contribution of a line that raises nothing, spelled out. */
  lemma LineRunOk(line: string, parse: string -> Option<real>)
    requires LineScans(line, parse)
    ensures LineRun(line, parse).Ok?
    ensures LineRun(line, parse).value.mdSteps == if Contains(line, StepMarker) then 1 else 0
    ensures LineRun(line, parse).value.lambdas
         == if Contains(line, BiasMarker) then [BiasValue(line, parse).value] else []
    ensures LineRun(line, parse).value.forces
         == if Contains(line, ForceMarker) && ForceValue(line, parse).Ok? then [ForceValue(line, parse).value] else []
  {}

  /** Peels the last line off a successful scan. */
  lemma ScanLast(lines: seq<string>, parse: string -> Option<real>)
    requires lines != [] && Scan(lines, parse).Ok?
    ensures Scan(lines[..|lines| - 1], parse).Ok? && LineScans(lines[|lines| - 1], parse)
    ensures Scan(lines, parse).value == Join(Scan(lines[..|lines| - 1], parse).value, LineRun(lines[|lines| - 1], parse).value)
  {
    var init, last := lines[..|lines| - 1], lines[|lines| - 1];
    assert lines == init + [last];
    ScanSnoc(init, last, parse);
  }

  /** The step count is the number of `MD step No.` lines. */
  lemma {:induction false} ScanCountsSteps(lines: seq<string>, parse: string -> Option<real>)
    requires Scan(lines, parse).Ok?
    ensures Scan(lines, parse).value.mdSteps == |Marked(lines, StepMarker)|
    decreases |lines|
  {
    if lines != [] {
      ScanLast(lines, parse);
      ScanCountsSteps(lines[..|lines| - 1], parse);
      LineRunOk(lines[|lines| - 1], parse);
    } else {
      ScanEmpty(parse);
    }
  }

  lemma ScanEmpty(parse: string -> Option<real>)
    ensures Scan([], parse) == Ok(EmptyRun)
  {
    assert LineRuns([], parse) == [];
  }

  /** The lambdas are, one for one and in order, the parsed second tokens of
      the `b_m` lines. */
  lemma {:induction false} ScanBiasValues(lines: seq<string>, parse: string -> Option<real>)
    requires Scan(lines, parse).Ok?
    ensures |Scan(lines, parse).value.lambdas| == |Marked(lines, BiasMarker)|
    ensures forall j | 0 <= j < |Scan(lines, parse).value.lambdas| ::
              BiasValue(Marked(lines, BiasMarker)[j], parse) == Ok(Scan(lines, parse).value.lambdas[j])
    decreases |lines|
  {
    if lines != [] {
      var init, last := lines[..|lines| - 1], lines[|lines| - 1];
      ScanLast(lines, parse);
      ScanBiasValues(init, parse);
      LineRunOk(last, parse);
      var before := Scan(init, parse).value.lambdas;
      var marked := Marked(init, BiasMarker);
      assert Scan(lines, parse).value.lambdas == before + LineRun(last, parse).value.lambdas;
      assert Marked(lines, BiasMarker) == marked + (if Contains(last, BiasMarker) then [last] else []);
    } else {
      ScanEmpty(parse);
    }
  }

  /** The forces are the parsable third tokens of the `cc>` lines, in order. */
  lemma {:induction false} ScanForceValues(lines: seq<string>, parse: string -> Option<real>)
    requires Scan(lines, parse).Ok?
    ensures Scan(lines, parse).value.forces == KeptForces(Marked(lines, ForceMarker), parse)
    decreases |lines|
  {
    if lines != [] {
      var init, last := lines[..|lines| - 1], lines[|lines| - 1];
      ScanLast(lines, parse);
      ScanForceValues(init, parse);
      LineRunOk(last, parse);
      var m := Marked(init, ForceMarker);
      if Contains(last, ForceMarker) {
        assert Marked(lines, ForceMarker) == m + [last];
        assert (m + [last])[..|m|] == m;
      } else {
        assert Marked(lines, ForceMarker) == m;
        assert Scan(lines, parse).value.forces == Scan(init, parse).value.forces + [];
      }
    } else {
      ScanEmpty(parse);
    }
  }

  /** `get_file_line_count`: the number of lines of a non-empty file; on an
      empty file the loop never binds `i` and `return i + 1` raises. */
  method GetFileLineCount(text: string) returns (r: Result<nat, Error>)
    ensures text == [] ==> r == Err(UnboundLocalError)
    ensures text != [] ==> r == Ok(Count(text, '\n') + (if text[|text| - 1] == '\n' then 0 else 1))
  {
    var lines := Lines(text);
    var last: Option<nat> := None;
    for i := 0 to |lines|
      invariant last == if i == 0 then None else Some(i - 1)
    {
      last := Some(i);
    }
    LinesCount(text);
    match last
    case None => r := Err(UnboundLocalError);
    case Some(i) => r := Ok(i + 1);
  }

  /** `int(name.split('_')[1])`: the segment number of a `RUN_<n>` directory. */
  function SegmentNumber(name: string, parseInt: string -> Option<int>): Result<int, Error> {
    var parts := SplitOn(name, '_');
    if |parts| < 2 then Err(IndexError)
    else if parseInt(parts[1]).None? then Err(ValueError)
    else Ok(parseInt(parts[1]).value)
  }

  /** The position of the first name whose segment number raises, or the length. */
  function FirstBadSegment(names: seq<string>, parseInt: string -> Option<int>): (i: nat)
    ensures i <= |names|
    ensures forall j | 0 <= j < i :: SegmentNumber(names[j], parseInt).Ok?
    ensures i < |names| ==> SegmentNumber(names[i], parseInt).Err?
  {
    if names == [] || SegmentNumber(names[0], parseInt).Err? then 0
    else 1 + FirstBadSegment(names[1..], parseInt)
  }

  function SegmentKey(name: string, parseInt: string -> Option<int>): real {
    match SegmentNumber(name, parseInt)
    case Ok(n) => n as real
    case Err(_) => 0.0
  }

  /** `sorted(glob('RUN_*'), key=segment number) + ['.']`: the segments in
      ascending segment number, then the current directory. */
  function FolderOrder(runDirs: seq<string>, parseInt: string -> Option<int>): (r: Result<seq<string>, Error>)
    ensures r.Ok? <==> forall d | d in runDirs :: SegmentNumber(d, parseInt).Ok?
    ensures r.Ok? ==> |r.value| == |runDirs| + 1 && r.value[|runDirs|] == "."
    ensures r.Ok? ==> multiset(r.value[..|runDirs|]) == multiset(runDirs)
    ensures r.Ok? ==> forall i, j | 0 <= i < j < |runDirs| ::
              SegmentNumber(r.value[i], parseInt).Ok? && SegmentNumber(r.value[j], parseInt).Ok?
              && SegmentNumber(r.value[i], parseInt).value <= SegmentNumber(r.value[j], parseInt).value
  {
    var bad := FirstBadSegment(runDirs, parseInt);
    if bad < |runDirs| then Err(SegmentNumber(runDirs[bad], parseInt).error)
    else
      var key := (name: string) => SegmentKey(name, parseInt);
      var sorted := SortBy(runDirs, key);
      assert (sorted + ["."])[..|runDirs|] == sorted;
      assert forall i | 0 <= i < |sorted| :: sorted[i] in multiset(runDirs) by {
        forall i | 0 <= i < |sorted| ensures sorted[i] in multiset(runDirs) {
          assert sorted[i] in multiset(sorted);
        }
      }
      Ok(sorted + ["."])
  }

  /** The REPORT of one directory, scanned; `open` raises when it is missing. */
  function ReadFolder(folder: string, reports: map<string, string>, parse: string -> Option<real>): Result<Run, Error> {
    if folder in reports then Scan(Lines(reports[folder]), parse)
    else Err(FileNotFound("./" + folder + "/REPORT"))
  }

  /** The folders' results concatenated in folder order, steps summed. */
  function Aggregated(folders: seq<string>, reports: map<string, string>, parse: string -> Option<real>): Result<Run, Error> {
    if folders == [] then Ok(EmptyRun)
    else Then(Aggregated(folders[..|folders| - 1], reports, parse), ReadFolder(folders[|folders| - 1], reports, parse))
  }

  /** The loop of `main` that reads every folder and extends the accumulators. */
  method Aggregate(folders: seq<string>, reports: map<string, string>, parse: string -> Option<real>) returns (r: Result<Run, Error>)
    ensures r == Aggregated(folders, reports, parse)
  {
    var allLambdas, allForces := [], [];
    var totalSteps: nat := 0;
    var i := 0;
    while i < |folders|
      invariant 0 <= i <= |folders|
      invariant Aggregated(folders[..i], reports, parse) == Ok(Run(allLambdas, allForces, totalSteps))
    {
      var folder := folders[i];
      AggregatedSnoc(folders, i, reports, parse);
      if folder !in reports {
        AggregatedAbortsAt(folders, i + 1, reports, parse);
        return Err(FileNotFound("./" + folder + "/REPORT"));
      }
      var run := ReadSimulationData(reports[folder], parse);
      if run.Err? {
        AggregatedAbortsAt(folders, i + 1, reports, parse);
        return run;
      }
      assert Aggregated(folders[..i + 1], reports, parse) == Ok(Join(Run(allLambdas, allForces, totalSteps), run.value));
      allLambdas := allLambdas + run.value.lambdas;
      allForces := allForces + run.value.forces;
      totalSteps := totalSteps + run.value.mdSteps;
      i := i + 1;
    }
    assert folders[..i] == folders;
    r := Ok(Run(allLambdas, allForces, totalSteps));
  }

  /** Reading one more folder. */
  lemma AggregatedSnoc(folders: seq<string>, i: nat, reports: map<string, string>, parse: string -> Option<real>)
    requires i < |folders|
    ensures Aggregated(folders[..i + 1], reports, parse)
         == Then(Aggregated(folders[..i], reports, parse), ReadFolder(folders[i], reports, parse))
  {
    assert folders[..i + 1][..i] == folders[..i];
  }

  lemma {:induction false} AggregatedAbortsAt(folders: seq<string>, k: nat, reports: map<string, string>, parse: string -> Option<real>)
    requires k <= |folders| && Aggregated(folders[..k], reports, parse).Err?
    ensures Aggregated(folders, reports, parse) == Aggregated(folders[..k], reports, parse)
    decreases |folders| - k
  {
    if k < |folders| {
      assert folders[..|folders| - 1][..k] == folders[..k];
      AggregatedAbortsAt(folders[..|folders| - 1], k, reports, parse);
    } else {
      assert folders[..k] == folders;
    }
  }

  /** The lines of all the folders' REPORT files, one file after the other. */
  function AllLines(folders: seq<string>, reports: map<string, string>): seq<string>
    requires forall f | f in folders :: f in reports
  {
    if folders == [] then []
    else AllLines(folders[..|folders| - 1], reports) + Lines(reports[folders[|folders| - 1]])
  }

  /** Reading the segments one by one and concatenating their results is the
      same as scanning all their lines as one file: values keep file order
      within a segment and segment order across segments, and the step count
      is the total. */
  lemma {:induction false} AggregatedIsOneScan(folders: seq<string>, reports: map<string, string>, parse: string -> Option<real>)
    requires forall f | f in folders :: f in reports
    ensures Aggregated(folders, reports, parse) == Scan(AllLines(folders, reports), parse)
    decreases |folders|
  {
    if folders != [] {
      var init := folders[..|folders| - 1];
      AggregatedIsOneScan(init, reports, parse);
      ScanAppend(AllLines(init, reports), Lines(reports[folders[|folders| - 1]]), parse);
    }
  }

  /** `xs[k::n]`: the elements at positions k, k + n, k + 2n, ... */
  function Stride<T>(s: seq<T>, k: nat, n: nat): (r: seq<T>)
    requires n > 0
    ensures |r| == if k < |s| then (|s| - 1 - k) / n + 1 else 0
    ensures forall j | 0 <= j < |r| :: k + j * n < |s| && r[j] == s[k + j * n]
    decreases |s| - k
  {
    if k >= |s| then []
    else
      var rest := Stride(s, k + n, n);
      DivStep(|s| - 1 - k, n);
      StrideCons(s, k, n, rest);
      [s[k]] + rest
  }

  /** The positions of the tail, taken from k + n on, are those from k on shifted by one. */
  lemma StrideCons<T>(s: seq<T>, k: nat, n: nat, rest: seq<T>)
    requires n > 0 && k < |s|
    requires forall j | 0 <= j < |rest| :: k + n + j * n < |s| && rest[j] == s[k + n + j * n]
    ensures forall j | 0 <= j < |[s[k]] + rest| :: k + j * n < |s| && ([s[k]] + rest)[j] == s[k + j * n]
  {
    forall j | 0 <= j < |[s[k]] + rest| ensures k + j * n < |s| && ([s[k]] + rest)[j] == s[k + j * n] {
      if j > 0 {
        MulStep(j, n);
        assert k + n + (j - 1) * n == k + j * n;
      }
    }
  }

  lemma MulStep(j: int, n: int)
    ensures (j - 1) * n + n == j * n
  {}

  lemma DivStep(m: int, n: int)
    requires m >= 0 && n > 0
    ensures m >= n ==> (m - n) / n + 1 == m / n
    ensures m < n ==> m / n == 0
  {
    if m >= n {
      var q, rem := (m - n) / n, (m - n) % n;
      assert m - n == q * n + rem;
      MulStep(q + 1, n);
      DivOfSum(q + 1, n, rem);
    } else {
      DivOfSum(0, n, m);
    }
  }

  /** The `i`-th sample of every series, in series order: one round of the
      round-robin output. */
  function Round<T>(series: seq<seq<T>>, i: nat): (r: seq<T>)
    requires forall k | 0 <= k < |series| :: i < |series[k]|
    ensures |r| == |series|
  {
    seq(|series|, k requires 0 <= k < |series| => series[k][i])
  }

  /** `series` written round-robin for `m` rounds: sample 0 of every series,
      then sample 1 of every series, ... */
  function Interleave<T>(series: seq<seq<T>>, m: nat): (r: seq<T>)
    requires forall k | 0 <= k < |series| :: m <= |series[k]|
    ensures |r| == m * |series|
  {
    if m == 0 then []
    else Interleave(series, m - 1) + Round(series, m - 1)
  }

  /** Where each sample lands in the interleaved sequence. */
  lemma {:induction false} InterleaveAt<T>(series: seq<seq<T>>, m: nat, i: nat, k: nat)
    requires forall c | 0 <= c < |series| :: m <= |series[c]|
    requires i < m && k < |series|
    ensures i * |series| + k < m * |series|
    ensures Interleave(series, m)[i * |series| + k] == series[k][i]
    decreases m
  {
    var n := |series|;
    MulStep(m, n);
    if i < m - 1 {
      InterleaveAt(series, m - 1, i, k);
    } else {
      assert i * n + k == (m - 1) * n + k;
    }
  }

  /** Taking every N-th element from offset k undoes the round-robin
      interleaving of N series of equal length: it returns series k. */
  lemma Deinterleave<T>(series: seq<seq<T>>, len: nat, k: nat)
    requires forall c | 0 <= c < |series| :: |series[c]| == len
    requires k < |series|
    ensures Stride(Interleave(series, len), k, |series|) == series[k]
  {
    var n := |series|;
    var all := Interleave(series, len);
    var r := Stride(all, k, n);
    if len > 0 {
      assert len * n - 1 - k == (len - 1) * n + (n - 1 - k);
      DivOfSum(len - 1, n, n - 1 - k);
    }
    assert |r| == len;
    forall j | 0 <= j < len ensures r[j] == series[k][j] {
      InterleaveAt(series, len, j, k);
      assert k + j * n == j * n + k;
    }
  }

  lemma DivOfSum(q: int, n: int, rem: int)
    requires q >= 0 && n > 0 && 0 <= rem < n
    ensures (q * n + rem) / n == q
  {
    var a := q * n + rem;
    var d := a / n;
    assert a == d * n + a % n;
    if d < q {
      assert d * n + n <= q * n by { MulMono(d + 1, q, n); }
      assert false;
    } else if d > q {
      assert q * n + n <= d * n by { MulMono(q + 1, d, n); }
      assert false;
    }
  }

  lemma MulMono(a: int, b: int, n: int)
    requires a <= b && n > 0
    ensures a * n <= b * n
  {}

  /** The output of `main` up to the statistics: the series of one
      constraint and the total number of MD steps. */
  datatype Series = Series(values: seq<real>, totalSteps: nat)

  /** `main`: counts the constraints (lines of ICONST), orders the folders,
      reads and concatenates every folder's REPORT, and takes every N-th
      lambda value from the constraint index on. */
  method ConstraintSeries(iconst: Option<string>, runDirs: seq<string>, reports: map<string, string>,
                          constraintIndex: nat, parse: string -> Option<real>, parseInt: string -> Option<int>)
    returns (r: Result<Series, Error>)
    ensures iconst.None? ==> r == Err(FileNotFound("ICONST"))
    ensures iconst == Some([]) ==> r == Err(UnboundLocalError)
    ensures r.Ok? <==> iconst.Some? && iconst.value != [] && FolderOrder(runDirs, parseInt).Ok?
                       && Aggregated(FolderOrder(runDirs, parseInt).value, reports, parse).Ok?
    ensures r.Ok? ==>
      var all := Aggregated(FolderOrder(runDirs, parseInt).value, reports, parse).value;
      r.value == Series(Stride(all.lambdas, constraintIndex, |Lines(iconst.value)|), all.mdSteps)
  {
    if iconst.None? {
      return Err(FileNotFound("ICONST"));
    }
    var count := GetFileLineCount(iconst.value);
    if count.Err? {
      return Err(count.error);
    }
    LinesCount(iconst.value);
    var numConstraints := count.value;
    var folders := FolderOrder(runDirs, parseInt);
    if folders.Err? {
      return Err(folders.error);
    }
    var all := Aggregate(folders.value, reports, parse);
    if all.Err? {
      return Err(all.error);
    }
    var series := Stride(all.value.lambdas, constraintIndex, numConstraints);
    r := Ok(Series(series, all.value.mdSteps));
  }
}
