/** The potential-of-mean-force analysis (postdoc_scripts/pmf_analysis.py):
    reading the force-statistics report of every constrained-bond-length
    folder, sorting the table by bond length, locating where the mean force
    changes sign, and integrating the force between the first two sign
    changes to get the activation barrier and its uncertainty. */
module PmfAnalysis {
  import opened Prelude
  import opened Text
  import opened Numeric
  import opened Sorting

  // ---------------------------------------------------------------------
  // read_force_stats
  // ---------------------------------------------------------------------

  /** The `stats` dictionary: a key that was never set is `None`. */
  datatype Stats = Stats(cv: Option<real>, meanForce: Option<real>, std: Option<real>, mdSteps: Option<int>)

  const NoStats := Stats(None, None, None, None)

  /** `line.split(':')[1].strip()`. */
  function FieldText(line: string): (r: Result<string, Error>)
    ensures r.Err? <==> ':' !in line
    ensures r.Err? ==> r.error == IndexError
    ensures r.Ok? ==> ':' !in r.value
  {
    var pieces := SplitOn(line, ':');
    SplitOnSingle(line, ':');
    if |pieces| < 2 then Err(IndexError)
    else
      SplitOnPieces(line, ':');
      StripInside(pieces[1], ':');
      Ok(Strip(pieces[1]))
  }

  /** `float(line.split(':')[1].strip())`. */
  function FieldReal(line: string, parseReal: string -> Option<real>): Result<real, Error> {
    match FieldText(line)
    case Err(e) => Err(e)
    case Ok(t) => if parseReal(t).None? then Err(ValueError) else Ok(parseReal(t).value)
  }

  /** `int(line.split(':')[1].strip())`. */
  function FieldInt(line: string, parseInt: string -> Option<int>): Result<int, Error> {
    match FieldText(line)
    case Err(e) => Err(e)
    case Ok(t) => if parseInt(t).None? then Err(ValueError) else Ok(parseInt(t).value)
  }

  /** Stripping keeps only characters of the original. */
  lemma StripInside(s: string, c: char)
    requires c !in s
    ensures c !in Strip(s)
  {
    StripPiece(s);
  }

  /** The values of lines 2 to 5, read before the cumulative rows: the bond
      length always, the mean force (negated, to two decimals), its standard
      deviation and the step count only when there is no target. */
  function Header(lines: seq<string>, target: Option<int>, parseReal: string -> Option<real>,
                  parseInt: string -> Option<int>): Result<Stats, Error>
    requires |lines| > 2
  {
    match FieldReal(lines[1], parseReal)
    case Err(e) => Err(e)
    case Ok(cv) =>
      if target.Some? then Ok(NoStats.(cv := Some(cv)))
      else match FieldReal(lines[2], parseReal)
      case Err(e) => Err(e)
      case Ok(mean) =>
        if |lines| < 4 then Err(IndexError)
        else match FieldReal(lines[3], parseReal)
        case Err(e) => Err(e)
        case Ok(std) =>
          if |lines| < 5 then Err(IndexError)
          else match FieldInt(lines[4], parseInt)
          case Err(e) => Err(e)
          case Ok(steps) => Ok(Stats(Some(cv), Some(-Round2(mean)), Some(std), Some(steps)))
  }

  /** The whitespace tokens of every row, `line.split()` for each. */
  function Tokens(rows: seq<string>): (r: seq<seq<string>>)
    ensures |r| == |rows|
  {
    seq(|rows|, i requires 0 <= i < |rows| => Split(rows[i]))
  }

  /** The mean force and deviation of a cumulative row, when it has three
      tokens and the last two are numbers. */
  function RowForces(parts: seq<string>, parseReal: string -> Option<real>): Option<(real, real)> {
    if |parts| == 3 && parseReal(parts[1]).Some? && parseReal(parts[2]).Some?
    then Some((parseReal(parts[1]).value, parseReal(parts[2]).value))
    else None
  }

  /** Whether a cumulative row is one for step count `t`. */
  predicate RowMatches(parts: seq<string>, t: int, parseInt: string -> Option<int>) {
    |parts| == 3 && parseInt(parts[0]) == Some(t)
  }

  /** One cumulative row, given by its tokens. A row of three tokens has its
      first token converted to an integer (whether or not there is a target);
      a row for the target step count overwrites the mean force, the
      deviation and the step count. */
  function ApplyRow(stats: Stats, parts: seq<string>, target: Option<int>, parseReal: string -> Option<real>,
                    parseInt: string -> Option<int>): Result<Stats, Error>
  {
    if |parts| != 3 then Ok(stats)
    else if parseInt(parts[0]).None? then Err(ValueError)
    else if target.None? || parseInt(parts[0]).value != target.value then Ok(stats)
    else if parseReal(parts[1]).None? || parseReal(parts[2]).None? then Err(ValueError)
    else Ok(stats.(meanForce := Some(-parseReal(parts[1]).value), std := Some(parseReal(parts[2]).value),
                   mdSteps := Some(target.value)))
  }

  /** The cumulative rows applied in file order; the first exception wins. */
  function ApplyRows(stats: Stats, rows: seq<seq<string>>, target: Option<int>, parseReal: string -> Option<real>,
                     parseInt: string -> Option<int>): Result<Stats, Error>
    decreases |rows|
  {
    if rows == [] then Ok(stats)
    else match ApplyRows(stats, rows[..|rows| - 1], target, parseReal, parseInt)
    case Err(e) => Err(e)
    case Ok(s) => ApplyRow(s, rows[|rows| - 1], target, parseReal, parseInt)
  }

  /** `lines[6:]`. */
  function CumulativeRows(lines: seq<string>): seq<string> {
    if |lines| > 6 then lines[6..] else []
  }

  /** What `read_force_stats` returns for the lines of a report. */
  function ForceStatsOf(lines: seq<string>, target: Option<int>, parseReal: string -> Option<real>,
                        parseInt: string -> Option<int>): Result<Stats, Error>
  {
    if |lines| <= 2 then Ok(NoStats)
    else match Header(lines, target, parseReal, parseInt)
    case Err(e) => Err(e)
    case Ok(h) => ApplyRows(h, Tokens(CumulativeRows(lines)), target, parseReal, parseInt)
  }

  /** `read_force_stats`: fills the stats from the header lines, then lets
      every cumulative row for the target step count overwrite them. */
  method ReadForceStats(text: string, target: Option<int>, parseReal: string -> Option<real>,
                        parseInt: string -> Option<int>) returns (r: Result<Stats, Error>)
    ensures r == ForceStatsOf(Lines(text), target, parseReal, parseInt)
    ensures |Lines(text)| <= 2 ==> r == Ok(NoStats)
  {
    var lines := Lines(text);
    if |lines| <= 2 {
      return Ok(NoStats);
    }
    var header := Header(lines, target, parseReal, parseInt);
    if header.Err? {
      return Err(header.error);
    }
    r := ReadCumulativeRows(header.value, CumulativeRows(lines), target, parseReal, parseInt);
  }

  /** The loop of `read_force_stats` over `lines[6:]`. */
  method ReadCumulativeRows(header: Stats, rows: seq<string>, target: Option<int>, parseReal: string -> Option<real>,
                            parseInt: string -> Option<int>) returns (r: Result<Stats, Error>)
    ensures r == ApplyRows(header, Tokens(rows), target, parseReal, parseInt)
  {
    var stats := header;
    ghost var tokens := Tokens(rows);
    var i := 0;
    assert tokens[..0] == [];
    while i < |rows|
      invariant 0 <= i <= |rows|
      invariant ApplyRows(header, tokens[..i], target, parseReal, parseInt) == Ok(stats)
    {
      var parts := Split(rows[i]);
      assert parts == tokens[i];
      ApplyRowsSnoc(header, tokens, i, stats, target, parseReal, parseInt);
      var next := ReadRow(stats, parts, target, parseReal, parseInt);
      if next.Err? {
        ApplyRowsAbortsAt(header, tokens, i + 1, target, parseReal, parseInt);
        return next;
      }
      stats := next.value;
      i := i + 1;
    }
    assert tokens[..i] == tokens;
    r := Ok(stats);
  }

  /** The body of that loop for one row: a row of three tokens has its first
      token converted to an integer, and a row for the target overwrites the
      mean force, the deviation and the step count. */
  method ReadRow(stats: Stats, parts: seq<string>, target: Option<int>, parseReal: string -> Option<real>,
                 parseInt: string -> Option<int>) returns (r: Result<Stats, Error>)
    ensures r == ApplyRow(stats, parts, target, parseReal, parseInt)
  {
    r := Ok(stats);
    if |parts| == 3 {
      var step := parseInt(parts[0]);
      if step.None? {
        return Err(ValueError);
      }
      if target.Some? && step.value == target.value {
        var mean, std := parseReal(parts[1]), parseReal(parts[2]);
        if mean.None? || std.None? {
          return Err(ValueError);
        }
        r := Ok(stats.(meanForce := Some(-mean.value), std := Some(std.value), mdSteps := Some(target.value)));
      }
    }
  }

  /** Reading one more row. */
  lemma ApplyRowsSnoc(stats: Stats, tokens: seq<seq<string>>, i: nat, s: Stats, target: Option<int>,
                      parseReal: string -> Option<real>, parseInt: string -> Option<int>)
    requires i < |tokens| && ApplyRows(stats, tokens[..i], target, parseReal, parseInt) == Ok(s)
    ensures ApplyRows(stats, tokens[..i + 1], target, parseReal, parseInt) == ApplyRow(s, tokens[i], target, parseReal, parseInt)
  {
    assert tokens[..i + 1][..i] == tokens[..i];
  }

  /** A row that raises ends the reading with its exception. */
  lemma {:induction false} ApplyRowsAbortsAt(stats: Stats, rows: seq<seq<string>>, k: nat, target: Option<int>,
                                             parseReal: string -> Option<real>, parseInt: string -> Option<int>)
    requires k <= |rows| && ApplyRows(stats, rows[..k], target, parseReal, parseInt).Err?
    ensures ApplyRows(stats, rows, target, parseReal, parseInt) == ApplyRows(stats, rows[..k], target, parseReal, parseInt)
    decreases |rows| - k
  {
    if k < |rows| {
      assert rows[..|rows| - 1][..k] == rows[..k];
      ApplyRowsAbortsAt(stats, rows[..|rows| - 1], k, target, parseReal, parseInt);
    } else {
      assert rows[..k] == rows;
    }
  }

  /** Without a target no cumulative row changes the stats; a row of three
      tokens whose first token is not an integer still raises. */
  lemma {:induction false} RowsInertWithoutTarget(stats: Stats, rows: seq<seq<string>>, parseReal: string -> Option<real>,
                                                  parseInt: string -> Option<int>)
    ensures ApplyRows(stats, rows, None, parseReal, parseInt).Ok? <==>
            forall i | 0 <= i < |rows| :: |rows[i]| == 3 ==> parseInt(rows[i][0]).Some?
    ensures ApplyRows(stats, rows, None, parseReal, parseInt).Ok? ==>
            ApplyRows(stats, rows, None, parseReal, parseInt).value == stats
    decreases |rows|
  {
    if rows != [] {
      var init := rows[..|rows| - 1];
      RowsInertWithoutTarget(stats, init, parseReal, parseInt);
      assert forall i | 0 <= i < |init| :: init[i] == rows[i];
    }
  }

  /** The position of the last cumulative row for step count `t`. */
  function LastMatch(rows: seq<seq<string>>, t: int, parseInt: string -> Option<int>): (r: Option<nat>)
    ensures r.Some? ==> r.value < |rows| && RowMatches(rows[r.value], t, parseInt)
    ensures r.Some? ==> forall j | r.value < j < |rows| :: !RowMatches(rows[j], t, parseInt)
    ensures r.None? ==> forall j | 0 <= j < |rows| :: !RowMatches(rows[j], t, parseInt)
    decreases |rows|
  {
    if rows == [] then None
    else if RowMatches(rows[|rows| - 1], t, parseInt) then Some(|rows| - 1)
    else
      var init := rows[..|rows| - 1];
      assert forall j | 0 <= j < |init| :: init[j] == rows[j];
      LastMatch(init, t, parseInt)
  }

  /** Whether a cumulative row can be read without an exception. */
  predicate RowReadable(parts: seq<string>, t: int, parseReal: string -> Option<real>, parseInt: string -> Option<int>) {
    |parts| == 3 ==> parseInt(parts[0]).Some? && (parseInt(parts[0]).value == t ==> RowForces(parts, parseReal).Some?)
  }

  /** With a target, the reading succeeds exactly when every row is
      readable, and then the last row for the target decides the mean force,
      the deviation and the step count; with no such row they keep their
      values. */
  lemma {:induction false} LastMatchWins(stats: Stats, rows: seq<seq<string>>, t: int, parseReal: string -> Option<real>,
                                         parseInt: string -> Option<int>)
    ensures ApplyRows(stats, rows, Some(t), parseReal, parseInt).Ok? <==>
            forall i | 0 <= i < |rows| :: RowReadable(rows[i], t, parseReal, parseInt)
    ensures ApplyRows(stats, rows, Some(t), parseReal, parseInt).Ok? ==>
            var s := ApplyRows(stats, rows, Some(t), parseReal, parseInt).value;
            s.cv == stats.cv &&
            match LastMatch(rows, t, parseInt)
            case None => s == stats
            case Some(i) => RowForces(rows[i], parseReal).Some?
                            && s.meanForce == Some(-RowForces(rows[i], parseReal).value.0)
                            && s.std == Some(RowForces(rows[i], parseReal).value.1)
                            && s.mdSteps == Some(t)
    decreases |rows|
  {
    if rows != [] {
      var init := rows[..|rows| - 1];
      LastMatchWins(stats, init, t, parseReal, parseInt);
      assert forall i | 0 <= i < |init| :: init[i] == rows[i];
    }
  }

  /** A report of two lines or fewer gives no stats; otherwise the bond length
      is the value after the colon on the second line. */
  lemma BondLength(lines: seq<string>, target: Option<int>, parseReal: string -> Option<real>,
                   parseInt: string -> Option<int>)
    requires ForceStatsOf(lines, target, parseReal, parseInt).Ok?
    ensures |lines| <= 2 <==> ForceStatsOf(lines, target, parseReal, parseInt).value.cv.None?
    ensures |lines| > 2 ==>
              FieldReal(lines[1], parseReal).Ok?
              && ForceStatsOf(lines, target, parseReal, parseInt).value.cv == Some(FieldReal(lines[1], parseReal).value)
  {
    if |lines| > 2 {
      var h := Header(lines, target, parseReal, parseInt).value;
      if target.None? {
        RowsInertWithoutTarget(h, Tokens(CumulativeRows(lines)), parseReal, parseInt);
      } else {
        LastMatchWins(h, Tokens(CumulativeRows(lines)), target.value, parseReal, parseInt);
      }
    }
  }

  /** Without a target the stats are the header's: the mean force from the
      third line, negated and rounded to two decimals, the deviation from the
      fourth and the step count from the fifth. A report of three or four
      lines raises IndexError. */
  lemma HeaderStatsWithoutTarget(lines: seq<string>, parseReal: string -> Option<real>, parseInt: string -> Option<int>)
    requires |lines| > 2 && ForceStatsOf(lines, None, parseReal, parseInt).Ok?
    ensures |lines| >= 5
    ensures FieldReal(lines[2], parseReal).Ok? && FieldReal(lines[3], parseReal).Ok? && FieldInt(lines[4], parseInt).Ok?
    ensures ForceStatsOf(lines, None, parseReal, parseInt).value
         == Stats(Some(FieldReal(lines[1], parseReal).value), Some(-Round2(FieldReal(lines[2], parseReal).value)),
                  Some(FieldReal(lines[3], parseReal).value), Some(FieldInt(lines[4], parseInt).value))
  {
    var h := Header(lines, None, parseReal, parseInt).value;
    RowsInertWithoutTarget(h, Tokens(CumulativeRows(lines)), parseReal, parseInt);
  }

  /** With a target the header contributes only the bond length; the last
      cumulative row for the target supplies the rest, and with no such row
      the mean force, deviation and step count stay unset. */
  lemma StatsWithTarget(lines: seq<string>, t: int, parseReal: string -> Option<real>, parseInt: string -> Option<int>)
    requires |lines| > 2 && ForceStatsOf(lines, Some(t), parseReal, parseInt).Ok?
    ensures var s := ForceStatsOf(lines, Some(t), parseReal, parseInt).value;
            var rows := Tokens(CumulativeRows(lines));
            match LastMatch(rows, t, parseInt)
            case None => s.meanForce.None? && s.std.None? && s.mdSteps.None?
            case Some(i) => s.mdSteps == Some(t) && RowForces(rows[i], parseReal).Some?
                            && s.meanForce == Some(-RowForces(rows[i], parseReal).value.0)
                            && s.std == Some(RowForces(rows[i], parseReal).value.1)
  {
    var h := Header(lines, Some(t), parseReal, parseInt).value;
    var rows := Tokens(CumulativeRows(lines));
    assert ForceStatsOf(lines, Some(t), parseReal, parseInt) == ApplyRows(h, rows, Some(t), parseReal, parseInt);
    LastMatchWins(h, rows, t, parseReal, parseInt);
  }

  // ---------------------------------------------------------------------
  // The table: one row per folder
  // ---------------------------------------------------------------------

  /** One row of the data frame. */
  datatype Row = Row(cv: real, meanForce: real, std: real, mdSteps: int)

  predicate IsDigit(c: char) {
    '0' <= c <= '9'
  }

  /** The folder pattern `[0-9].[0-9][0-9]_*`, e.g. `1.06_793`. */
  predicate FolderPattern(name: string) {
    |name| >= 5 && IsDigit(name[0]) && name[1] == '.' && IsDigit(name[2]) && IsDigit(name[3]) && name[4] == '_'
  }

  /** `stats['CV']`, `stats['Mean Force']`, ...: a key that was never set raises KeyError. */
  function RowOf(s: Stats): (r: Result<Row, Error>)
    ensures r.Ok? <==> s.cv.Some? && s.meanForce.Some? && s.std.Some? && s.mdSteps.Some?
    ensures r.Err? ==> r.error == KeyError
  {
    if s.cv.None? || s.meanForce.None? || s.std.None? || s.mdSteps.None? then Err(KeyError)
    else Ok(Row(s.cv.value, s.meanForce.value, s.std.value, s.mdSteps.value))
  }

  /** The folders that contribute a row: those matching the pattern that hold a report. */
  function Reporting(folders: seq<string>, reports: map<string, string>): (r: seq<string>)
    ensures |r| <= |folders|
    ensures forall f | f in r :: f in folders && FolderPattern(f) && f in reports
    decreases |folders|
  {
    if folders == [] then []
    else
      var f := folders[|folders| - 1];
      Reporting(folders[..|folders| - 1], reports) + (if FolderPattern(f) && f in reports then [f] else [])
  }

  /** The row of one folder's report. */
  function FolderRow(folder: string, reports: map<string, string>, target: Option<int>,
                     parseReal: string -> Option<real>, parseInt: string -> Option<int>): Result<Row, Error>
    requires folder in reports
  {
    match ForceStatsOf(Lines(reports[folder]), target, parseReal, parseInt)
    case Err(e) => Err(e)
    case Ok(s) => RowOf(s)
  }

  /** The rows of the folders, in folder order; the first exception wins. */
  function Collected(folders: seq<string>, reports: map<string, string>, target: Option<int>,
                     parseReal: string -> Option<real>, parseInt: string -> Option<int>): Result<seq<Row>, Error>
    decreases |folders|
  {
    if folders == [] then Ok([])
    else
      var f := folders[|folders| - 1];
      match Collected(folders[..|folders| - 1], reports, target, parseReal, parseInt)
      case Err(e) => Err(e)
      case Ok(rows) =>
        if !(FolderPattern(f) && f in reports) then Ok(rows)
        else match FolderRow(f, reports, target, parseReal, parseInt)
        case Err(e) => Err(e)
        case Ok(row) => Ok(rows + [row])
  }

  /** The loop over the folders that builds the data table: a folder without
      a report is skipped, any other appends one row. */
  method CollectRows(folders: seq<string>, reports: map<string, string>, target: Option<int>,
                     parseReal: string -> Option<real>, parseInt: string -> Option<int>) returns (r: Result<seq<Row>, Error>)
    ensures r == Collected(folders, reports, target, parseReal, parseInt)
  {
    var data: seq<Row> := [];
    var i := 0;
    while i < |folders|
      invariant 0 <= i <= |folders|
      invariant Collected(folders[..i], reports, target, parseReal, parseInt) == Ok(data)
    {
      var folder := folders[i];
      CollectedStep(folders, i, data, reports, target, parseReal, parseInt);
      if FolderPattern(folder) && folder in reports {
        var row := ReadFolderRow(folder, reports, target, parseReal, parseInt);
        if row.Err? {
          CollectedAbortsAt(folders, i + 1, reports, target, parseReal, parseInt);
          return Err(row.error);
        }
        data := data + [row.value];
      }
      i := i + 1;
    }
    assert folders[..i] == folders;
    r := Ok(data);
  }

  /** Reads one folder's report and builds its row. */
  method ReadFolderRow(folder: string, reports: map<string, string>, target: Option<int>,
                       parseReal: string -> Option<real>, parseInt: string -> Option<int>) returns (row: Result<Row, Error>)
    requires folder in reports
    ensures row == FolderRow(folder, reports, target, parseReal, parseInt)
  {
    var stats := ReadForceStats(reports[folder], target, parseReal, parseInt);
    if stats.Err? {
      return Err(stats.error);
    }
    row := RowOf(stats.value);
  }

  /** A row appended to the rows so far, or the exception raised instead. */
  function Appended(data: seq<Row>, row: Result<Row, Error>): Result<seq<Row>, Error> {
    match row
    case Err(e) => Err(e)
    case Ok(v) => Ok(data + [v])
  }

  /** Collecting one more folder. */
  lemma CollectedStep(folders: seq<string>, i: nat, data: seq<Row>, reports: map<string, string>, target: Option<int>,
                      parseReal: string -> Option<real>, parseInt: string -> Option<int>)
    requires i < |folders| && Collected(folders[..i], reports, target, parseReal, parseInt) == Ok(data)
    ensures !(FolderPattern(folders[i]) && folders[i] in reports)
            ==> Collected(folders[..i + 1], reports, target, parseReal, parseInt) == Ok(data)
    ensures FolderPattern(folders[i]) && folders[i] in reports
            ==> Collected(folders[..i + 1], reports, target, parseReal, parseInt) == Appended(data, FolderRow(folders[i], reports, target, parseReal, parseInt))
  {
    assert folders[..i + 1][..i] == folders[..i];
  }

  lemma {:induction false} CollectedAbortsAt(folders: seq<string>, k: nat, reports: map<string, string>, target: Option<int>,
                                             parseReal: string -> Option<real>, parseInt: string -> Option<int>)
    requires k <= |folders| && Collected(folders[..k], reports, target, parseReal, parseInt).Err?
    ensures Collected(folders, reports, target, parseReal, parseInt) == Collected(folders[..k], reports, target, parseReal, parseInt)
    decreases |folders| - k
  {
    if k < |folders| {
      assert folders[..|folders| - 1][..k] == folders[..k];
      CollectedAbortsAt(folders[..|folders| - 1], k, reports, target, parseReal, parseInt);
    } else {
      assert folders[..k] == folders;
    }
  }

  /** A successful collection has one row per reporting folder, in folder
      order, each the row of that folder's report. */
  lemma {:induction false} CollectedRows(folders: seq<string>, reports: map<string, string>, target: Option<int>,
                                         parseReal: string -> Option<real>, parseInt: string -> Option<int>)
    requires Collected(folders, reports, target, parseReal, parseInt).Ok?
    ensures |Collected(folders, reports, target, parseReal, parseInt).value| == |Reporting(folders, reports)|
    ensures forall i | 0 <= i < |Reporting(folders, reports)| ::
              FolderRow(Reporting(folders, reports)[i], reports, target, parseReal, parseInt)
              == Ok(Collected(folders, reports, target, parseReal, parseInt).value[i])
    decreases |folders|
  {
    if folders != [] {
      CollectedRows(folders[..|folders| - 1], reports, target, parseReal, parseInt);
    }
  }

  /** `df.sort_values(by=bond length)`. */
  function SortedTable(rows: seq<Row>): (r: seq<Row>)
    ensures |r| == |rows| && multiset(r) == multiset(rows)
    ensures forall i, j | 0 <= i < j < |r| :: r[i].cv <= r[j].cv
  {
    SortBy(rows, (row: Row) => row.cv)
  }

  // ---------------------------------------------------------------------
  // calculate_area
  // ---------------------------------------------------------------------

  /** `y[i]` and `y[i + 1]` have different signs (one of them may be zero). */
  predicate SignChange(y: seq<real>, i: int) {
    0 <= i && i + 1 < |y| && Sign(y[i]) != Sign(y[i + 1])
  }

  /** `np.where(np.diff(np.sign(y)))[0]`: the positions of the sign changes,
      ascending. */
  function ZeroCrossings(y: seq<real>): (r: seq<nat>)
    ensures forall k | 0 <= k < |r| :: SignChange(y, r[k])
    ensures forall i | SignChange(y, i) :: i in r
    ensures forall a, b | 0 <= a < b < |r| :: r[a] < r[b]
    decreases |y|
  {
    if |y| < 2 then []
    else
      var prev := ZeroCrossings(y[..|y| - 1]);
      var r := prev + (if SignChange(y, |y| - 2) then [|y| - 2] else []);
      CrossingsSnoc(y, prev, r);
      r
  }

  /** The crossings of all samples but the last, followed by the last pair's
      crossing if there is one, are the crossings of all samples. */
  lemma CrossingsSnoc(y: seq<real>, prev: seq<nat>, r: seq<nat>)
    requires |y| >= 2
    requires forall k | 0 <= k < |prev| :: SignChange(y[..|y| - 1], prev[k])
    requires forall i | SignChange(y[..|y| - 1], i) :: i in prev
    requires forall a, b | 0 <= a < b < |prev| :: prev[a] < prev[b]
    requires r == prev + (if SignChange(y, |y| - 2) then [|y| - 2] else [])
    ensures forall k | 0 <= k < |r| :: SignChange(y, r[k])
    ensures forall i | SignChange(y, i) :: i in r
    ensures forall a, b | 0 <= a < b < |r| :: r[a] < r[b]
  {
    var init := y[..|y| - 1];
    forall k | 0 <= k < |r| ensures SignChange(y, r[k]) {
      if k < |prev| {
        assert SignChange(init, prev[k]);
      }
    }
    forall i | SignChange(y, i) ensures i in r {
      if i < |y| - 2 {
        assert SignChange(init, i);
      }
    }
    forall a, b | 0 <= a < b < |r| ensures r[a] < r[b] {
      if b >= |prev| {
        assert SignChange(init, prev[a]);
      }
    }
  }

  /** An exact zero between a negative and a positive sample is counted as
      two sign changes, one on each side of it. */
  lemma ZeroSampleCrossesTwice(y: seq<real>, i: nat)
    requires i + 2 < |y| && y[i] < 0.0 && y[i + 1] == 0.0 && y[i + 2] > 0.0
    ensures i in ZeroCrossings(y) && i + 1 in ZeroCrossings(y)
  {
    assert SignChange(y, i) && SignChange(y, i + 1);
  }

  /** The first two entries of the crossings are the two leftmost sign changes. */
  lemma FirstTwoCrossings(y: seq<real>)
    requires |ZeroCrossings(y)| >= 2
    ensures forall i | 0 <= i < ZeroCrossings(y)[1] && i != ZeroCrossings(y)[0] :: !SignChange(y, i)
  {
    var zc := ZeroCrossings(y);
    forall i | 0 <= i < zc[1] && i != zc[0] ensures !SignChange(y, i) {
      forall k | 0 <= k < |zc| ensures zc[k] != i {
        if k >= 2 {
          assert zc[1] < zc[k];
        }
      }
    }
  }

  function Min(a: real, b: real): real {
    if a <= b then a else b
  }

  function Max(a: real, b: real): real {
    if a <= b then b else a
  }

  predicate Between(v: real, a: real, b: real) {
    Min(a, b) <= v <= Max(a, b)
  }

  /** `interpolate_zero_crossing`: where the straight line through
      `(x1, y1)` and `(x2, y2)` meets zero. The samples have different signs,
      so `y2 - y1` is never zero; the root lies between `x1` and `x2`, is
      `x1` when `y1` is zero and `x2` when `y2` is. */
  function Interpolate(x1: real, y1: real, x2: real, y2: real): (r: real)
    requires Sign(y1) != Sign(y2)
    ensures y2 - y1 != 0.0
    ensures Between(r, x1, x2)
    ensures y1 == 0.0 ==> r == x1
    ensures y2 == 0.0 ==> r == x2
  {
    InterpolationWeight(y1, y2);
    InterpolationForm(x1, y1, x2, y2);
    x1 - y1 * (x2 - x1) / (y2 - y1)
  }

  /** The interpolated root is a zero of the straight line through the two
      samples. */
  lemma InterpolantVanishes(x1: real, y1: real, x2: real, y2: real)
    requires Sign(y1) != Sign(y2) && x1 != x2
    ensures var r := Interpolate(x1, y1, x2, y2);
            y1 + (r - x1) * (y2 - y1) / (x2 - x1) == 0.0
  {
    InterpolationWeight(y1, y2);
    RootVanishes(x1, y1, x2, y2);
  }

  /** The root is `x1 + t * (x2 - x1)` with the weight `t = -y1 / (y2 - y1)`. */
  lemma InterpolationForm(x1: real, y1: real, x2: real, y2: real)
    requires y2 - y1 != 0.0 && 0.0 <= -y1 / (y2 - y1) <= 1.0
    ensures Between(x1 - y1 * (x2 - x1) / (y2 - y1), x1, x2)
    ensures y1 == 0.0 ==> x1 - y1 * (x2 - x1) / (y2 - y1) == x1
    ensures y2 == 0.0 ==> x1 - y1 * (x2 - x1) / (y2 - y1) == x2
  {
    RootWeight(x1, y1, x2, y2);
    InBetween(x1, x2, -y1 / (y2 - y1));
  }

  lemma RootWeight(x1: real, y1: real, x2: real, y2: real)
    requires y2 - y1 != 0.0
    ensures x1 - y1 * (x2 - x1) / (y2 - y1) == x1 + (-y1 / (y2 - y1)) * (x2 - x1)
    ensures y2 == 0.0 ==> -y1 / (y2 - y1) == 1.0
  {
    assert y1 * (x2 - x1) / (y2 - y1) == (y1 / (y2 - y1)) * (x2 - x1);
  }

  lemma RootVanishes(x1: real, y1: real, x2: real, y2: real)
    requires y2 - y1 != 0.0 && x1 != x2
    ensures y1 + (x1 - y1 * (x2 - x1) / (y2 - y1) - x1) * (y2 - y1) / (x2 - x1) == 0.0
  {
    var r := x1 - y1 * (x2 - x1) / (y2 - y1);
    assert y1 * (x2 - x1) / (y2 - y1) == (y1 / (y2 - y1)) * (x2 - x1);
    assert r - x1 == (-y1 / (y2 - y1)) * (x2 - x1);
    Vanishes(y1, y2 - y1, x2 - x1, r - x1);
  }

  lemma Vanishes(y1: real, d: real, w: real, p: real)
    requires d != 0.0 && w != 0.0 && p == (-y1 / d) * w
    ensures y1 + p * d / w == 0.0
  {}

  lemma InterpolationWeight(y1: real, y2: real)
    requires Sign(y1) != Sign(y2)
    ensures y2 - y1 != 0.0
    ensures 0.0 <= -y1 / (y2 - y1) <= 1.0
  {
    var d := y2 - y1;
    if d > 0.0 {
      assert -y1 >= 0.0 && -y1 <= d;
    } else {
      assert -y1 <= 0.0 && -y1 >= d;
    }
  }

  lemma InBetween(x1: real, x2: real, t: real)
    requires 0.0 <= t <= 1.0
    ensures Between(x1 + t * (x2 - x1), x1, x2)
  {
    var d := x2 - x1;
    if d >= 0.0 {
      ScaleDown(t, d);
    } else {
      ScaleDown(t, -d);
      assert t * (-d) == -(t * d);
    }
  }

  lemma ScaleDown(t: real, d: real)
    requires 0.0 <= t <= 1.0 && d >= 0.0
    ensures 0.0 <= t * d <= d
  {
    assert d - t * d == (1.0 - t) * d;
  }

  /** A bracket from (1.0, -0.4) to (2.0, 0.6) crosses zero at 1.4. */
  lemma InterpolationExample()
    ensures Interpolate(1.0, -0.4, 2.0, 0.6) == 1.4
  {}

  lemma CrossingsExample()
    ensures ZeroCrossings([-1.0, 1.0, 1.0, -1.0]) == [0, 2]
  {
    CrossingsExamplePrefix();
    var y := [-1.0, 1.0, 1.0, -1.0];
    assert y[..3] == [-1.0, 1.0, 1.0];
    assert SignChange(y, 2);
  }

  lemma CrossingsExamplePrefix()
    ensures ZeroCrossings([-1.0, 1.0, 1.0]) == [0]
  {
    CrossingsExamplePair();
    var y := [-1.0, 1.0, 1.0];
    assert y[..2] == [-1.0, 1.0];
    assert !SignChange(y, 1);
  }

  lemma CrossingsExamplePair()
    ensures ZeroCrossings([-1.0, 1.0]) == [0]
  {
    var y := [-1.0, 1.0];
    assert y[..1] == [-1.0];
    assert ZeroCrossings([-1.0]) == [];
    assert SignChange(y, 0);
  }

  /** Forces -1, 1, 1, -1 at bond lengths 0, 1, 2, 3: the sign changes after
      samples 0 and 2, the roots are 0.5 and 2.5, they snap to samples 0 and
      2 (the first of two equally near samples), and the area is that of the
      trapezoids over samples 0 to 2. */
  lemma AreaExample(polyRoots: (seq<real>, seq<real>) -> seq<real>, polyArea: (seq<real>, seq<real>) -> real)
    ensures CalculateArea([0.0, 1.0, 2.0, 3.0], [-1.0, 1.0, 1.0, -1.0], polyRoots, polyArea)
         == Ok(AreaOutcome(Some(1.0), [0.5, 2.5]))
  {
    var x, y := [0.0, 1.0, 2.0, 3.0], [-1.0, 1.0, 1.0, -1.0];
    assert CalculateArea(x, y, polyRoots, polyArea) == Ok(CrossingArea(x, y, 0, 2)) by {
      CrossingsExample();
    }
    CrossingAreaExample();
  }

  lemma CrossingAreaExample()
    ensures SignChange([-1.0, 1.0, 1.0, -1.0], 0) && SignChange([-1.0, 1.0, 1.0, -1.0], 2)
    ensures CrossingArea([0.0, 1.0, 2.0, 3.0], [-1.0, 1.0, 1.0, -1.0], 0, 2) == AreaOutcome(Some(1.0), [0.5, 2.5])
  {
    var x, y := [0.0, 1.0, 2.0, 3.0], [-1.0, 1.0, 1.0, -1.0];
    assert SignChange(y, 0) && SignChange(y, 2);
    assert Interpolate(x[0], y[0], x[1], y[1]) == 0.5;
    assert Interpolate(x[2], y[2], x[3], y[3]) == 2.5;
    assert SnappedArea(x, y, 0.5, 2.5) == 1.0 by {
      assert Nearest(x, 0.5) == 0 by {
        assert Abs(x[0] - 0.5) == 0.5 && Abs(x[1] - 0.5) == 0.5;
      }
      assert Nearest(x, 2.5) == 2 by {
        assert Abs(x[2] - 2.5) == 0.5 && Abs(x[1] - 2.5) == 1.5 && Abs(x[0] - 2.5) == 2.5;
      }
      assert Slice(y, 0, 3) == [-1.0, 1.0, 1.0] && Slice(x, 0, 3) == [0.0, 1.0, 2.0];
      assert Trapz([-1.0, 1.0, 1.0], [0.0, 1.0, 2.0]) == 1.0 by {
        assert [-1.0, 1.0, 1.0][1..] == [1.0, 1.0] && [0.0, 1.0, 2.0][1..] == [1.0, 2.0];
        assert [1.0, 1.0][1..] == [1.0] && [1.0, 2.0][1..] == [2.0];
      }
    }
  }

  /** Python's `s[a:b]` for `0 <= a` and `b <= |s|`: empty when `b <= a`. */
  function Slice<T>(s: seq<T>, a: nat, b: nat): (r: seq<T>)
    requires a <= |s| && b <= |s|
    ensures |r| == if a < b then b - a else 0
  {
    if a < b then s[a..b] else []
  }

  /** What `calculate_area` returns: the area, or None, and the roots. */
  datatype AreaOutcome = AreaOutcome(area: Option<real>, roots: seq<real>)

  /** `abs(trapz(y[i:j + 1], x[i:j + 1]))` where `i` and `j` are the samples
      nearest to `a` and `b`: never negative, and zero when the sample
      nearest to `b` lies left of the one nearest to `a`. */
  function SnappedArea(x: seq<real>, y: seq<real>, a: real, b: real): (area: real)
    requires |x| == |y| > 0
    ensures area >= 0.0
    ensures Nearest(x, b) < Nearest(x, a) ==> area == 0.0
  {
    var i, j := Nearest(x, a), Nearest(x, b);
    Abs(Trapz(Slice(y, i, j + 1), Slice(x, i, j + 1)))
  }

  /** The branch with two sign changes at positions `s < e`: the root of each
      bracket, and the area between the samples nearest to them. */
  function CrossingArea(x: seq<real>, y: seq<real>, s: nat, e: nat): (r: AreaOutcome)
    requires |x| == |y| && s < e && e + 1 < |y|
    requires SignChange(y, s) && SignChange(y, e)
    ensures r.roots == [Interpolate(x[s], y[s], x[s + 1], y[s + 1]), Interpolate(x[e], y[e], x[e + 1], y[e + 1])]
    ensures |r.roots| == 2 && Between(r.roots[0], x[s], x[s + 1]) && Between(r.roots[1], x[e], x[e + 1])
    ensures r.area == Some(SnappedArea(x, y, r.roots[0], r.roots[1])) && r.area.value >= 0.0
  {
    var roots := [Interpolate(x[s], y[s], x[s + 1], y[s + 1]), Interpolate(x[e], y[e], x[e + 1], y[e + 1])];
    AreaOutcome(Some(SnappedArea(x, y, roots[0], roots[1])), roots)
  }

  /** The quadratic fit used when fewer than two sign changes exist: the
      real parts of the fitted parabola's roots, sorted; with at least two,
      the absolute integral of the parabola between the first two. On an
      empty table `np.polyfit` raises TypeError (it needs a non-empty `x`).
      The fit, its roots and its integral come from numpy and are parameters
      here. */
  function QuadraticFallback(x: seq<real>, y: seq<real>, polyRoots: (seq<real>, seq<real>) -> seq<real>,
                             polyArea: (seq<real>, seq<real>) -> real): (r: Result<AreaOutcome, Error>)
    ensures r.Err? <==> x == []
    ensures r.Err? ==> r.error == TypeError
    ensures r.Ok? ==> forall i, j | 0 <= i < j < |r.value.roots| :: r.value.roots[i] <= r.value.roots[j]
    ensures r.Ok? ==> multiset(r.value.roots) == multiset(polyRoots(x, y))
    ensures r.Ok? ==> (r.value.area.Some? <==> |r.value.roots| >= 2)
    ensures r.Ok? && r.value.area.Some? ==> r.value.area.value >= 0.0
  {
    if x == [] then Err(TypeError)
    else
      var roots := SortBy(polyRoots(x, y), (v: real) => v);
      if |roots| >= 2 then Ok(AreaOutcome(Some(Abs(polyArea(x, y))), roots))
      else Ok(AreaOutcome(None, roots))
  }

  /** `calculate_area`: with two or more sign changes only the first two are
      used; otherwise the quadratic fit decides, and it fails exactly on an
      empty table. */
  function CalculateArea(x: seq<real>, y: seq<real>, polyRoots: (seq<real>, seq<real>) -> seq<real>,
                         polyArea: (seq<real>, seq<real>) -> real): (r: Result<AreaOutcome, Error>)
    requires |x| == |y|
    ensures r.Err? <==> x == []
    ensures r.Ok? && r.value.area.Some? ==> r.value.area.value >= 0.0
    ensures |ZeroCrossings(y)| < 2 ==> r == QuadraticFallback(x, y, polyRoots, polyArea)
    ensures |ZeroCrossings(y)| >= 2 ==>
              var zc := ZeroCrossings(y);
              zc[0] < zc[1] && zc[1] + 1 < |y| && r == Ok(CrossingArea(x, y, zc[0], zc[1]))
  {
    var zc := ZeroCrossings(y);
    if |zc| < 2 then QuadraticFallback(x, y, polyRoots, polyArea)
    else
      assert zc[0] < zc[1] && zc[1] + 1 < |y|;
      Ok(CrossingArea(x, y, zc[0], zc[1]))
  }

  /** On a table sorted by bond length the two roots come in order, and so
      do the samples they snap to: the integration runs left to right over a
      non-empty stretch of samples. */
  lemma RootsOrdered(x: seq<real>, y: seq<real>, polyRoots: (seq<real>, seq<real>) -> seq<real>,
                     polyArea: (seq<real>, seq<real>) -> real)
    requires |x| == |y| && NonDecreasing(x) && |ZeroCrossings(y)| >= 2
    ensures CalculateArea(x, y, polyRoots, polyArea).Ok?
    ensures var r := CalculateArea(x, y, polyRoots, polyArea).value;
            r.roots[0] <= r.roots[1] && Nearest(x, r.roots[0]) <= Nearest(x, r.roots[1])
  {
    var zc := ZeroCrossings(y);
    assert zc[0] < zc[1] && zc[1] + 1 < |y|;
    CrossingRootsOrdered(x, y, zc[0], zc[1]);
    assert CalculateArea(x, y, polyRoots, polyArea) == Ok(CrossingArea(x, y, zc[0], zc[1]));
  }

  lemma CrossingRootsOrdered(x: seq<real>, y: seq<real>, s: nat, e: nat)
    requires |x| == |y| && s < e && e + 1 < |y| && NonDecreasing(x)
    requires SignChange(y, s) && SignChange(y, e)
    ensures var r := CrossingArea(x, y, s, e);
            r.roots[0] <= r.roots[1] && Nearest(x, r.roots[0]) <= Nearest(x, r.roots[1])
  {
    var r0 := Interpolate(x[s], y[s], x[s + 1], y[s + 1]);
    var r1 := Interpolate(x[e], y[e], x[e + 1], y[e + 1]);
    assert r0 <= r1 by {
      Ascending(x, s, s + 1);
      Ascending(x, s + 1, e);
      Ascending(x, e, e + 1);
      BracketsOrdered(x[s], x[s + 1], x[e], x[e + 1], r0, r1);
    }
    NearestMonotone(x, r0, r1);
    assert CrossingArea(x, y, s, e).roots == [r0, r1];
  }

  lemma Ascending(x: seq<real>, i: nat, j: nat)
    requires NonDecreasing(x) && i <= j < |x|
    ensures x[i] <= x[j]
  {}

  lemma BracketsOrdered(a0: real, a1: real, b0: real, b1: real, r0: real, r1: real)
    requires a0 <= a1 <= b0 <= b1 && Between(r0, a0, a1) && Between(r1, b0, b1)
    ensures r0 <= r1
  {}

  // ---------------------------------------------------------------------
  // The top-level summary
  // ---------------------------------------------------------------------

  /** The barrier line of the results: the area with half the spread of the
      shifted areas, or the "Not enough zero crossings" message. */
  datatype Barrier = Barrier(area: real, uncertainty: real) | NotEnough

  datatype Summary = Summary(barrier: Barrier, equilibrium: Option<(real, real)>)

  /** The results text: a barrier with its uncertainty when both shifted
      areas exist (formatting a missing central area raises TypeError), and
      the first two roots of the central curve when it has two. */
  function Summarize(central: AreaOutcome, upper: Option<real>, lower: Option<real>): (r: Result<Summary, Error>)
    ensures r.Err? <==> upper.Some? && lower.Some? && central.area.None?
    ensures r.Err? ==> r.error == TypeError
    ensures r.Ok? ==> (r.value.barrier.Barrier? <==> upper.Some? && lower.Some?)
    ensures r.Ok? && r.value.barrier.Barrier? ==>
              r.value.barrier.area == central.area.value && r.value.barrier.uncertainty >= 0.0
              && 2.0 * r.value.barrier.uncertainty == Abs(upper.value - lower.value)
    ensures r.Ok? ==> (r.value.equilibrium.Some? <==> |central.roots| >= 2)
    ensures r.Ok? && |central.roots| >= 2 ==> r.value.equilibrium == Some((central.roots[0], central.roots[1]))
  {
    var equilibrium := if |central.roots| >= 2 then Some((central.roots[0], central.roots[1])) else None;
    if upper.Some? && lower.Some? then
      if central.area.None? then Err(TypeError)
      else Ok(Summary(Barrier(central.area.value, Abs(upper.value - lower.value) / 2.0), equilibrium))
    else Ok(Summary(NotEnough, equilibrium))
  }

  /** The uncertainty does not depend on which shifted curve is called upper. */
  lemma SummarizeSymmetric(central: AreaOutcome, upper: Option<real>, lower: Option<real>)
    ensures Summarize(central, upper, lower) == Summarize(central, lower, upper)
  {
    if upper.Some? && lower.Some? {
      assert Abs(upper.value - lower.value) == Abs(lower.value - upper.value);
    }
  }

  function Xs(table: seq<Row>): (r: seq<real>)
    ensures |r| == |table| && forall i | 0 <= i < |table| :: r[i] == table[i].cv
  {
    seq(|table|, i requires 0 <= i < |table| => table[i].cv)
  }

  /** The mean-force column, shifted by `k` standard deviations. */
  function Ys(table: seq<Row>, k: real): (r: seq<real>)
    ensures |r| == |table| && forall i | 0 <= i < |table| :: r[i] == table[i].meanForce + k * table[i].std
  {
    seq(|table|, i requires 0 <= i < |table| => table[i].meanForce + k * table[i].std)
  }

  /** The script for `target_steps = None`: collect the rows, sort them by
      bond length, compute the central area and the areas of the mean force
      plus and minus one standard deviation, and summarize. With no
      reporting folder the first area computation raises TypeError. */
  method Analyze(folders: seq<string>, reports: map<string, string>, parseReal: string -> Option<real>,
                 parseInt: string -> Option<int>, polyRoots: (seq<real>, seq<real>) -> seq<real>,
                 polyArea: (seq<real>, seq<real>) -> real) returns (r: Result<Summary, Error>)
    ensures Collected(folders, reports, None, parseReal, parseInt).Err? ==>
              r == Err(Collected(folders, reports, None, parseReal, parseInt).error)
    ensures Collected(folders, reports, None, parseReal, parseInt) == Ok([]) ==> r == Err(TypeError)
    ensures Collected(folders, reports, None, parseReal, parseInt).Ok? &&
            Collected(folders, reports, None, parseReal, parseInt).value != [] ==>
              var table := SortedTable(Collected(folders, reports, None, parseReal, parseInt).value);
              r == Summarize(CalculateArea(Xs(table), Ys(table, 0.0), polyRoots, polyArea).value,
                             CalculateArea(Xs(table), Ys(table, 1.0), polyRoots, polyArea).value.area,
                             CalculateArea(Xs(table), Ys(table, -1.0), polyRoots, polyArea).value.area)
  {
    var rows := CollectRows(folders, reports, None, parseReal, parseInt);
    if rows.Err? {
      return Err(rows.error);
    }
    var table := SortedTable(rows.value);
    var x := Xs(table);
    var central := CalculateArea(x, Ys(table, 0.0), polyRoots, polyArea);
    if central.Err? {
      return Err(central.error);
    }
    var upper := CalculateArea(x, Ys(table, 1.0), polyRoots, polyArea);
    var lower := CalculateArea(x, Ys(table, -1.0), polyRoots, polyArea);
    r := Summarize(central.value, upper.value.area, lower.value.area);
  }

  /** The bond lengths handed to the area computation are ascending. */
  lemma TableAscending(rows: seq<Row>)
    ensures NonDecreasing(Xs(SortedTable(rows)))
  {}
}
