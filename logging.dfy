/** The logging helpers of utils_logging.py: the console formatter's colour
    rule, the screenshot counter, the run banner written at start-up, the
    trimming of the log file to its last runs, and `handle_error`.

    A log file is a sequence of lines as `readlines()` returns them, each
    with its line break; `None` is a file that does not exist. Clock
    readings (`asctime`, the `strftime` timestamps) are parameters. */
module Logging {
  import opened Wrappers
  import opened PyStr

  // ---------------------------------------------------------------------
  // CustomFormatter.format

  /** `COLORS["RESET"]` */
  const Reset: string := "\U{1b}[0m"

  /** `COLORS`: ANSI colour sequences by level name. */
  const Colors: map<string, string> := map[
    "DEBUG" := "\U{1b}[96m",
    "INFO" := "\U{1b}[94m",
    "SUCCESS" := "\U{1b}[92m",
    "WARNING" := "\U{1b}[93m",
    "ERROR" := "\U{1b}[91m",
    "CRITICAL" := "\U{1b}[31m",
    "RESET" := Reset
  ]

  /** The colour `format` gives the message text. */
  function MessageColor(levelname: string, msg: string): string
  {
    if Contains(msg, "SUCCESS") then Colors["SUCCESS"]
    else if levelname in Colors then Colors[levelname]
    else Colors["RESET"]
  }

  /** `COLORS.get(levelname, COLORS["RESET"])`: the colour of the level name. */
  function LevelColor(levelname: string): string
  {
    if levelname in Colors then Colors[levelname] else Reset
  }

  /** `f"{color}{text}{COLORS['RESET']}"` */
  function Paint(color: string, text: string): string
  {
    color + text + Reset
  }

  /** The message is green exactly when it mentions "SUCCESS" or its level
      is SUCCESS, whatever the level. */
  lemma GreenMeansSuccess(levelname: string, msg: string)
    ensures MessageColor(levelname, msg) == Colors["SUCCESS"]
            <==> Contains(msg, "SUCCESS") || levelname == "SUCCESS"
  {
    if !Contains(msg, "SUCCESS") && levelname in Colors {
      assert levelname in {"DEBUG", "INFO", "SUCCESS", "WARNING", "ERROR", "CRITICAL", "RESET"};
    }
  }

  /** Without "SUCCESS" in it, the message takes its level's colour (RESET
      for a level the table does not know). */
  lemma MessageTakesLevelColor(levelname: string, msg: string)
    requires !Contains(msg, "SUCCESS")
    ensures MessageColor(levelname, msg) == LevelColor(levelname)
  {
  }

  /** Once `format` has coloured a level name, the name is no longer a key
      of `COLORS` and no longer "ERROR": formatting the same record again
      paints its level in RESET and takes no screenshot. */
  lemma ColouredLevelIsUnknown(levelname: string)
    ensures var coloured := Paint(LevelColor(levelname), levelname);
      coloured !in Colors && coloured != "ERROR" && LevelColor(coloured) == Reset
  {
    var coloured := Paint(LevelColor(levelname), levelname);
    assert coloured[0] == '\U{1b}';
    forall key | key in Colors
      ensures key != coloured
    {
      assert key[0] != '\U{1b}';
    }
    assert "ERROR"[0] != coloured[0];
  }

  /** A log record; `format` rewrites both fields in place. */
  class LogRecord {
    var levelname: string
    var msg: string

    constructor (levelname: string, msg: string)
      ensures this.levelname == levelname && this.msg == msg
    {
      this.levelname := levelname;
      this.msg := msg;
    }
  }

  /** The console formatter with format string
      '%(asctime)s - %(levelname)s - %(message)s'. `hasDriver` says whether
      it was built with a driver; `shots` is the module's screenshot state. */
  class CustomFormatter {
    const hasDriver: bool
    const shots: Screenshots

    constructor (hasDriver: bool, shots: Screenshots)
      ensures this.hasDriver == hasDriver && this.shots == shots
    {
      this.hasDriver := hasDriver;
      this.shots := shots;
    }

    /** `format(record)`: colours the level name and the message, takes a
        screenshot for an ERROR record when a driver is present, and renders
        the line. `asctime` is the record's time as formatted, `timestamp`
        the screenshot's, `saveFails` whether saving it raises (then
        `format` raises too, before touching the record: `None`). */
    method Format(record: LogRecord, asctime: string, timestamp: string, saveFails: bool)
      returns (line: Option<string>)
      requires shots.Valid()
      modifies record, shots
      ensures shots.Valid()
      ensures var shoot := old(record.levelname) == "ERROR" && hasDriver;
        && shots.counter == old(shots.counter) + (if shoot && !saveFails then 1 else 0)
        // the one screenshot is the "error_occurred" step at this timestamp
        && (shoot && !saveFails ==>
              shots.shots == old(shots.shots) + [Shot(old(shots.counter), "error_occurred", timestamp)])
        && (!(shoot && !saveFails) ==> shots.shots == old(shots.shots))
        && (shoot && saveFails ==>
              line.None? && record.levelname == old(record.levelname) && record.msg == old(record.msg))
        && (!(shoot && saveFails) ==>
              && record.levelname == Paint(LevelColor(old(record.levelname)), old(record.levelname))
              && record.msg == Paint(MessageColor(old(record.levelname), old(record.msg)), old(record.msg))
              && line == Some(asctime + " - " + record.levelname + " - " + record.msg))
    {
      var color := MessageColor(record.levelname, record.msg);
      var levelName := Paint(LevelColor(record.levelname), record.levelname);
      var message := Paint(color, record.msg);
      if record.levelname == "ERROR" && hasDriver {
        var path, saved := shots.Take("error_occurred", timestamp, saveFails);
        if !saved {
          return None;
        }
      }
      record.levelname := levelName;
      record.msg := message;
      line := Some(asctime + " - " + record.levelname + " - " + record.msg);
    }
  }

  // ---------------------------------------------------------------------
  // take_screenshot

  const ScreenshotDir: string := "screenshots"

  /** `f"{SCREENSHOT_DIR}/{counter:03d}_{step_name}_{timestamp}.png"` */
  function ScreenshotPath(counter: nat, step: string, timestamp: string): (path: string)
    ensures StartsWith(path, "screenshots/") && EndsWith(path, ".png")
  {
    ScreenshotDir + "/" + ZeroPad(ShowNat(counter), 3) + "_" + step + "_" + timestamp + ".png"
  }

  /** `counter:03d` reads back as `counter`: the zero padding loses nothing. */
  lemma PaddedCounterValue(counter: nat)
    ensures var p := ZeroPad(ShowNat(counter), 3);
      && |p| >= 3 && DigitsOrUnderscores(p) && DigitsValue(p) == counter
      && forall i :: 0 <= i < |p| ==> p[i] != '_'
  {
    var s := ShowNat(counter);
    ShowNatValue(counter);
    LeadingZeros(if |s| < 3 then 3 - |s| else 0, s);
  }

  /** Two strings `p + "_" + x` and `q + "_" + y`, with no '_' in `p` or `q`,
      agree on `p == q`. */
  lemma PrefixBeforeUnderscore(p: string, x: string, q: string, y: string)
    requires forall i :: 0 <= i < |p| ==> p[i] != '_'
    requires forall i :: 0 <= i < |q| ==> q[i] != '_'
    requires p + "_" + x == q + "_" + y
    ensures p == q
  {
    var s, t := p + "_" + x, q + "_" + y;
    assert s[|p|] == '_' && t[|q|] == '_';
    assert forall i :: 0 <= i < |p| ==> s[i] == p[i];
    assert forall i :: 0 <= i < |q| ==> t[i] == q[i];
    assert |p| == |q|;
    assert s[..|p|] == p && t[..|q|] == q;
  }

  /** A screenshot path is the directory, then the padded counter, '_' and the rest. */
  lemma ScreenshotPathAfterDir(counter: nat, step: string, timestamp: string)
    ensures ScreenshotPath(counter, step, timestamp)
         == (ScreenshotDir + "/") + (ZeroPad(ShowNat(counter), 3) + "_" + (step + "_" + timestamp + ".png"))
  {
  }

  /** Equal strings with the same prefix agree after it. */
  lemma CancelPrefix(d: string, u: string, v: string)
    requires d + u == d + v
    ensures u == v
  {
    assert (d + u)[|d|..] == u;
    assert (d + v)[|d|..] == v;
  }

  /** Screenshots with different counter values get different paths. */
  lemma ScreenshotPathsDistinct(c1: nat, step1: string, t1: string, c2: nat, step2: string, t2: string)
    requires c1 != c2
    ensures ScreenshotPath(c1, step1, t1) != ScreenshotPath(c2, step2, t2)
  {
    if ScreenshotPath(c1, step1, t1) == ScreenshotPath(c2, step2, t2) {
      var p1, p2 := ZeroPad(ShowNat(c1), 3), ZeroPad(ShowNat(c2), 3);
      var x1, x2 := step1 + "_" + t1 + ".png", step2 + "_" + t2 + ".png";
      ScreenshotPathAfterDir(c1, step1, t1);
      ScreenshotPathAfterDir(c2, step2, t2);
      CancelPrefix(ScreenshotDir + "/", p1 + "_" + x1, p2 + "_" + x2);
      PaddedCounterValue(c1);
      PaddedCounterValue(c2);
      PrefixBeforeUnderscore(p1, x1, p2, x2);
      assert false;
    }
  }

  /** One saved screenshot: its counter value and the arguments of its call. */
  datatype Shot = Shot(number: nat, step: string, timestamp: string)

  function ShotPath(s: Shot): string
  {
    ScreenshotPath(s.number, s.step, s.timestamp)
  }

  /** The module-level screenshot state: `screenshot_counter` and, as a
      ghost record, the screenshots saved so far. */
  class Screenshots {
    var counter: nat
    ghost var shots: seq<Shot>

    ghost predicate Valid()
      reads this
    {
      && counter == |shots| + 1
      && forall k :: 0 <= k < |shots| ==> shots[k].number == k + 1
    }

    /** The module is loaded: `screenshot_counter = 1`. */
    constructor ()
      ensures Valid() && counter == 1 && shots == []
    {
      counter := 1;
      shots := [];
    }

    /** `take_screenshot(driver, step_name)` at `timestamp`; `saveFails`
        says whether `driver.save_screenshot` raises, in which case the
        exception leaves the counter as it was. */
    method Take(step: string, timestamp: string, saveFails: bool) returns (path: string, saved: bool)
      requires Valid()
      modifies this
      ensures Valid()
      ensures path == ScreenshotPath(old(counter), step, timestamp)
      ensures saved == !saveFails
      ensures counter == old(counter) + (if saved then 1 else 0)
      ensures shots == if saved then old(shots) + [Shot(old(counter), step, timestamp)] else old(shots)
      // a screenshot never overwrites an earlier one
      ensures forall k :: 0 <= k < |old(shots)| ==> path != ShotPath(old(shots)[k])
    {
      path := ScreenshotPath(counter, step, timestamp);
      forall k | 0 <= k < |shots|
        ensures path != ShotPath(shots[k])
      {
        ScreenshotPathsDistinct(counter, step, timestamp, shots[k].number, shots[k].step, shots[k].timestamp);
      }
      if saveFails {
        return path, false;
      }
      counter := counter + 1;
      shots := shots + [Shot(counter - 1, step, timestamp)];
      saved := true;
    }
  }

  // ---------------------------------------------------------------------
  // write_ascii_header

  /** The header every run's banner carries. */
  const Header: string := "NEW SCRIPT EXECUTION"
  const TotalWidth: nat := 55

  function StarLine(): string
  {
    Repeat('*', TotalWidth)
  }

  /** `f"* {header.center(padding)} *"` with `padding = total_width - 4` */
  function TitleLine(header: string): string
  {
    "* " + Center(header, TotalWidth - 4) + " *"
  }

  /** The lines appended by `write_ascii_header`, the file so far ending in a line break. */
  function BannerLines(timestamp: string): (lines: seq<string>)
    ensures |lines| == 6
  {
    [ "\n",
      StarLine() + "\n",
      TitleLine(Header) + "\n",
      StarLine() + "\n",
      "Execution started at: " + timestamp + "\n",
      StarLine() + "\n" ]
  }

  /** `write_ascii_header(log_file)`: appends the banner (creating the file if
      needed) and returns the header. */
  function WriteAsciiHeader(file: Option<seq<string>>, timestamp: string): (r: (Option<seq<string>>, string))
    ensures r.1 == Header
    ensures r.0.Some? && |r.0.value| == (if file.Some? then |file.value| else 0) + 6
    ensures r.0.value[|r.0.value| - 6..] == BannerLines(timestamp)
    ensures file.Some? ==> |file.value| <= |r.0.value| && r.0.value[..|file.value|] == file.value
  {
    var old_lines := match file case Some(lines) => lines case None => [];
    (Some(old_lines + BannerLines(timestamp)), Header)
  }

  /** Any header up to 51 characters gives a 55-character title line framed
      by "* " and " *". */
  lemma TitleLineWidth(header: string)
    requires |header| <= TotalWidth - 4
    ensures |TitleLine(header)| == TotalWidth
    ensures StartsWith(TitleLine(header), "* ") && EndsWith(TitleLine(header), " *")
  {
    var t := TitleLine(header);
    assert t[..2] == "* ";
    assert t[|t| - 2..] == " *";
  }

  /** The run banner: three rules of 55 '*' and the centred title, with the
      odd space of the margin on the left. */
  lemma BannerShape()
    ensures |StarLine()| == TotalWidth && forall i :: 0 <= i < TotalWidth ==> StarLine()[i] == '*'
    ensures TitleLine(Header) == "* " + Repeat(' ', 16) + Header + Repeat(' ', 15) + " *"
    ensures |TitleLine(Header)| == TotalWidth
  {
    CenteredHeader();
  }

  /** The 31 blanks around the 20-character header split 16 left, 15 right. */
  lemma CenteredHeader()
    ensures Center(Header, TotalWidth - 4) == Repeat(' ', 16) + Header + Repeat(' ', 15)
  {
    assert |Header| == 20;
    var marg := TotalWidth - 4 - |Header|;
    assert marg == 31 && marg / 2 == 15 && marg % 2 == 1;
  }

  // ---------------------------------------------------------------------
  // trim_log_file

  /** `[i for i, line in enumerate(lines) if header in line]` */
  function RunIndices(lines: seq<string>, header: string): (idx: seq<nat>)
    ensures |idx| <= |lines| && forall i :: 0 <= i < |idx| ==> idx[i] < |lines|
  {
    if lines == [] then []
    else
      var last := |lines| - 1;
      RunIndices(lines[..last], header) + (if Contains(lines[last], header) then [last] else [])
  }

  /** One step of the comprehension: the last line is tested last. */
  lemma RunIndicesUnfold(lines: seq<string>, header: string)
    requires lines != []
    ensures RunIndices(lines, header)
         == RunIndices(lines[..|lines| - 1], header)
          + (if Contains(lines[|lines| - 1], header) then [|lines| - 1] else [])
  {
  }

  /** Every listed line holds the header. */
  lemma {:induction false} RunIndicesSound(lines: seq<string>, header: string)
    ensures var idx := RunIndices(lines, header);
      forall i :: 0 <= i < |idx| ==> Contains(lines[idx[i]], header)
    decreases |lines|
  {
    if lines != [] {
      var last := |lines| - 1;
      RunIndicesSound(lines[..last], header);
      RunIndicesUnfold(lines, header);
      var front := RunIndices(lines[..last], header);
      var idx := RunIndices(lines, header);
      forall i | 0 <= i < |idx|
        ensures Contains(lines[idx[i]], header)
      {
        if i < |front| {
          assert idx[i] == front[i];
          assert lines[..last][front[i]] == lines[front[i]];
        }
      }
    }
  }

  /** The indices are listed in increasing order, each once. */
  lemma {:induction false} RunIndicesIncreasing(lines: seq<string>, header: string)
    ensures var idx := RunIndices(lines, header);
      forall i, j :: 0 <= i < j < |idx| ==> idx[i] < idx[j]
    decreases |lines|
  {
    if lines != [] {
      var last := |lines| - 1;
      RunIndicesIncreasing(lines[..last], header);
      RunIndicesUnfold(lines, header);
      var front := RunIndices(lines[..last], header);
      var idx := RunIndices(lines, header);
      assert forall i :: 0 <= i < |front| ==> idx[i] == front[i] < last;
    }
  }

  /** Every line that holds the header is listed. */
  lemma {:induction false} RunIndicesComplete(lines: seq<string>, header: string)
    ensures forall k :: 0 <= k < |lines| && Contains(lines[k], header) ==> k in RunIndices(lines, header)
    decreases |lines|
  {
    if lines != [] {
      var last := |lines| - 1;
      RunIndicesComplete(lines[..last], header);
      RunIndicesUnfold(lines, header);
      forall k | 0 <= k < |lines| && Contains(lines[k], header)
        ensures k in RunIndices(lines, header)
      {
        if k < last {
          assert lines[..last][k] == lines[k];
        }
      }
    }
  }

  /** Every index moved up by `d`. */
  function Shift(idx: seq<nat>, d: nat): (r: seq<nat>)
    ensures |r| == |idx| && forall i :: 0 <= i < |idx| ==> r[i] == idx[i] + d
  {
    seq(|idx|, i requires 0 <= i < |idx| => idx[i] + d)
  }

  /** Appending a line adds its index exactly when it holds the header. */
  lemma RunIndicesSnoc(lines: seq<string>, line: string, header: string)
    ensures RunIndices(lines + [line], header)
         == RunIndices(lines, header) + (if Contains(line, header) then [|lines|] else [])
  {
    assert (lines + [line])[..|lines|] == lines;
  }

  /** The header lines of `a + b` are those of `a`, then those of `b` moved past `a`. */
  lemma {:induction false} RunIndicesConcat(a: seq<string>, b: seq<string>, header: string)
    ensures RunIndices(a + b, header) == RunIndices(a, header) + Shift(RunIndices(b, header), |a|)
    decreases |b|
  {
    if b == [] {
      assert a + b == a;
    } else {
      var init, line := b[..|b| - 1], b[|b| - 1];
      RunIndicesConcat(a, init, header);
      RunIndicesConcatSnoc(a, init, line, header);
      assert b == init + [line];
    }
  }

  /** The inductive step of `RunIndicesConcat`: one more line at the end of `b`. */
  lemma RunIndicesConcatSnoc(a: seq<string>, init: seq<string>, line: string, header: string)
    requires RunIndices(a + init, header) == RunIndices(a, header) + Shift(RunIndices(init, header), |a|)
    ensures RunIndices(a + (init + [line]), header)
         == RunIndices(a, header) + Shift(RunIndices(init + [line], header), |a|)
  {
    var ra, ri := RunIndices(a, header), RunIndices(init, header);
    var tail := if Contains(line, header) then [|init|] else [];
    SnocAfterPrefix(a, init, line, header);
    SnocShifted(init, line, header, |a|);
    Reassociate(ra, Shift(ri, |a|), Shift(tail, |a|));
  }

  /** A line appended after `a + init` is listed at its shifted place. */
  lemma SnocAfterPrefix(a: seq<string>, init: seq<string>, line: string, header: string)
    ensures var tail := if Contains(line, header) then [|init|] else [];
      RunIndices(a + (init + [line]), header) == RunIndices(a + init, header) + Shift(tail, |a|)
  {
    var tail := if Contains(line, header) then [|init|] else [];
    var extra := if Contains(line, header) then [|a + init|] else [];
    assert Shift(tail, |a|) == extra by {
      ShiftShort(tail, |a|);
    }
    var front := a + init;
    assert a + (init + [line]) == front + [line];
    RunIndicesSnoc(front, line, header);
  }

  /** `RunIndicesSnoc`, every index moved up by `d`. */
  lemma SnocShifted(init: seq<string>, line: string, header: string, d: nat)
    ensures var tail := if Contains(line, header) then [|init|] else [];
      Shift(RunIndices(init + [line], header), d) == Shift(RunIndices(init, header), d) + Shift(tail, d)
  {
    var tail := if Contains(line, header) then [|init|] else [];
    RunIndicesSnoc(init, line, header);
    ShiftAppend(RunIndices(init, header), tail, d);
  }

  lemma Reassociate(xs: seq<nat>, ys: seq<nat>, zs: seq<nat>)
    ensures xs + ys + zs == xs + (ys + zs)
  {
  }

  /** `RunIndicesConcat` at a cut `j` of one file. */
  lemma RunIndicesSplit(lines: seq<string>, header: string, j: nat)
    requires j <= |lines|
    ensures RunIndices(lines, header)
         == RunIndices(lines[..j], header) + Shift(RunIndices(lines[j..], header), j)
  {
    assert lines[..j] + lines[j..] == lines;
    RunIndicesConcat(lines[..j], lines[j..], header);
  }

  /** Shifting an empty or one-element sequence. */
  lemma ShiftShort(xs: seq<nat>, d: nat)
    requires |xs| <= 1
    ensures Shift(xs, d) == if xs == [] then [] else [xs[0] + d]
  {
    if xs != [] {
      assert Shift(xs, d)[0] == xs[0] + d;
    }
  }

  lemma ShiftAppend(xs: seq<nat>, ys: seq<nat>, d: nat)
    ensures Shift(xs + ys, d) == Shift(xs, d) + Shift(ys, d)
  {
  }

  /** No line holds the header: no run. */
  lemma NoRuns(lines: seq<string>, header: string)
    requires forall i :: 0 <= i < |lines| ==> !Contains(lines[i], header)
    ensures RunIndices(lines, header) == []
  {
    RunIndicesSound(lines, header);
  }

  /** Python's `xs[i]`, negative indices counting from the end; `None` for IndexError. */
  function PyIndex<T>(xs: seq<T>, i: int): (r: Option<T>)
    ensures r.Some? <==> -|xs| <= i < |xs|
    ensures r.Some? ==> r.value == xs[if i < 0 then |xs| + i else i]
  {
    if 0 <= i < |xs| then Some(xs[i])
    else if -|xs| <= i < 0 then Some(xs[|xs| + i])
    else None
  }

  /** The trimming step of `trim_log_file` on the file's lines: with more
      than `maxRuns` header lines, keep the lines from the `maxRuns`-th-last
      header line on. `Err` is the IndexError a negative `maxRuns` can raise. */
  function TrimLines(lines: seq<string>, header: string, maxRuns: int): (r: Result<seq<string>>)
    // only a leading part of the file is ever dropped
    ensures r.Ok? ==> |r.value| <= |lines| && r.value == lines[|lines| - |r.value|..]
    // IndexError needs a negative `max_runs`
    ensures r.Err? ==> maxRuns < 0
  {
    var idx := RunIndices(lines, header);
    if |idx| > maxRuns then
      match PyIndex(idx, -maxRuns)
      case Some(start) => Ok(lines[start..])
      case None => Err("IndexError")
    else Ok(lines)
  }

  /** `trim_log_file(log_file, header, max_runs)`: a missing file is left missing. */
  function TrimLogFile(file: Option<seq<string>>, header: string, maxRuns: int): (r: Result<Option<seq<string>>>)
    ensures file.None? ==> r == Ok(None)
    ensures file.Some? ==> (r.Ok? <==> TrimLines(file.value, header, maxRuns).Ok?)
    ensures file.Some? && r.Ok? ==> r.value == Some(TrimLines(file.value, header, maxRuns).value)
  {
    match file
    case None => Ok(None)
    case Some(lines) =>
      match TrimLines(lines, header, maxRuns)
      case Ok(kept) => Ok(Some(kept))
      case Err(e) => Err(e)
  }

  /** The lines from the `k`-th header line on hold the last `|idx| - k` header lines. */
  lemma SuffixRunCount(lines: seq<string>, header: string, k: nat)
    requires k < |RunIndices(lines, header)|
    ensures var idx := RunIndices(lines, header);
      |RunIndices(lines[idx[k]..], header)| == |idx| - k
  {
    var idx := RunIndices(lines, header);
    var j := idx[k];
    RunIndicesIncreasing(lines, header);
    RunIndicesSplit(lines, header, j);
    var front := RunIndices(lines[..j], header);
    var back := Shift(RunIndices(lines[j..], header), j);
    SplitAt(idx, front, back, k);
  }

  /** In a strictly increasing sequence made of indices below `idx[k]`
      followed by indices from `idx[k]` on, the first part has `k` elements. */
  lemma SplitAt(idx: seq<nat>, front: seq<nat>, back: seq<nat>, k: nat)
    requires k < |idx| && idx == front + back
    requires forall i, j :: 0 <= i < j < |idx| ==> idx[i] < idx[j]
    requires forall i :: 0 <= i < |front| ==> front[i] < idx[k]
    requires forall i :: 0 <= i < |back| ==> back[i] >= idx[k]
    ensures |front| == k && |back| == |idx| - k
  {
    if 0 < |front| {
      var last := |front| - 1;
      assert idx[last] == front[last] < idx[k];
      assert last < k;
    }
    if |front| < |idx| {
      assert idx[|front|] == back[0] >= idx[k];
      assert |front| >= k;
    }
  }

  /** A file with at most `maxRuns` header lines is left as it is. */
  lemma TrimUnderLimit(lines: seq<string>, header: string, maxRuns: int)
    requires |RunIndices(lines, header)| <= maxRuns
    ensures TrimLines(lines, header, maxRuns) == Ok(lines)
  {
  }

  /** With more than `maxRuns > 0` header lines, the trimmed file is a suffix
      of the old one that starts on a header line and holds exactly
      `maxRuns` header lines: the last `maxRuns` runs, in their order. */
  lemma TrimKeepsLastRuns(lines: seq<string>, header: string, maxRuns: int)
    requires maxRuns > 0 && |RunIndices(lines, header)| > maxRuns
    ensures TrimLines(lines, header, maxRuns).Ok?
    ensures var kept := TrimLines(lines, header, maxRuns).value;
      && 0 < |kept| < |lines| && kept == lines[|lines| - |kept|..]
      && Contains(kept[0], header)
      && |RunIndices(kept, header)| == maxRuns
  {
    var idx := RunIndices(lines, header);
    var k := |idx| - maxRuns;
    assert PyIndex(idx, -maxRuns) == Some(idx[k]);
    var kept := lines[idx[k]..];
    assert TrimLines(lines, header, maxRuns) == Ok(kept);
    RunIndicesSound(lines, header);
    RunIndicesIncreasing(lines, header);
    assert idx[0] < idx[k];
    SuffixRunCount(lines, header, k);
  }

  /** Trimming twice with the same `maxRuns > 0` trims no more. */
  lemma TrimIdempotent(lines: seq<string>, header: string, maxRuns: int)
    requires maxRuns > 0
    ensures TrimLines(lines, header, maxRuns).Ok?
    ensures var once := TrimLines(lines, header, maxRuns).value;
      TrimLines(once, header, maxRuns) == Ok(once)
  {
    if |RunIndices(lines, header)| > maxRuns {
      TrimKeepsLastRuns(lines, header, maxRuns);
    }
  }

  /** `max_runs=0` indexes `run_indices[-0]`, the FIRST header line: only the
      lines before the first run go, and every run is kept. */
  lemma TrimZeroKeepsEveryRun(lines: seq<string>, header: string)
    requires |RunIndices(lines, header)| > 0
    ensures TrimLines(lines, header, 0).Ok?
    ensures var kept := TrimLines(lines, header, 0).value;
      && kept == lines[|lines| - |kept|..]
      && Contains(kept[0], header)
      && |RunIndices(kept, header)| == |RunIndices(lines, header)|
  {
    var idx := RunIndices(lines, header);
    assert PyIndex(idx, 0) == Some(idx[0]);
    RunIndicesSound(lines, header);
    SuffixRunCount(lines, header, 0);
  }

  /** A negative `max_runs` indexes from the front and raises IndexError when
      there are not more than `-max_runs` header lines. */
  lemma TrimNegativeRaises(lines: seq<string>, header: string, maxRuns: int)
    requires maxRuns < 0
    ensures TrimLines(lines, header, maxRuns).Err? <==> -maxRuns >= |RunIndices(lines, header)|
  {
  }

  /** The timestamp `strftime("%Y-%m-%d %H:%M:%S")` writes: digits and separators. */
  predicate TimestampText(ts: string) {
    forall i :: 0 <= i < |ts| ==> IsDigit(ts[i]) || ts[i] in "-: "
  }

  /** A banner holds exactly one header line, its title line. */
  lemma BannerHoldsOneRun(timestamp: string)
    requires TimestampText(timestamp)
    ensures RunIndices(BannerLines(timestamp), Header) == [2]
  {
    var b := BannerLines(timestamp);
    HeaderNotInStarLine();
    HeaderNotInStartLine(timestamp);
    HeaderInTitleLine();
    assert !Contains(b[0], Header) by {
      NotContainsWithoutFirst(b[0], Header);
    }
    OnlyThirdLineHolds(b, Header);
  }

  /** Six lines of which only the third contains the header hold one run, at index 2. */
  lemma OnlyThirdLineHolds(b: seq<string>, header: string)
    requires |b| == 6 && Contains(b[2], header)
    requires forall i :: 0 <= i < 6 && i != 2 ==> !Contains(b[i], header)
    ensures RunIndices(b, header) == [2]
  {
    var front, title, back := b[..2], [b[2]], b[3..];
    assert RunIndices(front, header) == [] by {
      NoRuns(front, header);
    }
    assert RunIndices(title + back, header) == [0] by {
      NoRuns(back, header);
      assert RunIndices(title, header) == [0] by {
        assert title[..0] == [];
      }
      RunIndicesConcat(title, back, header);
    }
    assert RunIndices(front + (title + back), header) == [2] by {
      RunIndicesConcat(front, title + back, header);
    }
    assert b == front + (title + back);
  }

  lemma HeaderNotInStarLine()
    ensures !Contains(StarLine() + "\n", Header)
  {
    assert Header[0] == 'N';
    NotContainsWithoutFirst(StarLine() + "\n", Header);
  }

  lemma HeaderInTitleLine()
    ensures Contains(TitleLine(Header) + "\n", Header)
  {
    CenteredHeader();
    var before := "* " + Repeat(' ', 16);
    var after := Repeat(' ', 15) + " *\n";
    assert TitleLine(Header) + "\n" == before + Header + after;
    ContainsMiddle(before, Header, after);
  }

  lemma HeaderNotInStartLine(timestamp: string)
    requires TimestampText(timestamp)
    ensures !Contains("Execution started at: " + timestamp + "\n", Header)
  {
    var started := "Execution started at: ";
    var line := started + timestamp + "\n";
    forall i | 0 <= i < |line|
      ensures line[i] != 'N'
    {
      if i < |started| {
        assert line[i] == started[i];
      } else if i < |started| + |timestamp| {
        assert line[i] == timestamp[i - |started|];
      }
    }
    assert Header[0] == 'N';
    NotContainsWithoutFirst(line, Header);
  }

  /** The start-up sequence of `setup_logging`: after the banner is appended
      and the file trimmed to 5 runs, the new run's banner is still there,
      at the end, and the file holds min(old runs + 1, 5) runs. */
  lemma NewRunSurvivesTrim(lines: seq<string>, timestamp: string)
    requires TimestampText(timestamp)
    ensures var appended := lines + BannerLines(timestamp);
      && TrimLines(appended, Header, 5).Ok?
      && var kept := TrimLines(appended, Header, 5).value;
      && |kept| >= 6 && kept[|kept| - 6..] == BannerLines(timestamp)
      && |RunIndices(kept, Header)| == if |RunIndices(lines, Header)| + 1 < 5 then |RunIndices(lines, Header)| + 1 else 5
  {
    var banner := BannerLines(timestamp);
    var appended := lines + banner;
    BannerHoldsOneRun(timestamp);
    RunIndicesConcat(lines, banner, Header);
    var old_idx := RunIndices(lines, Header);
    var idx := RunIndices(appended, Header);
    assert idx == old_idx + [|lines| + 2];
    if |idx| > 5 {
      TrimKeepsLastRuns(appended, Header, 5);
      var start := idx[|idx| - 5];
      assert start == old_idx[|idx| - 5] < |lines|;
      var kept := appended[start..];
      assert TrimLines(appended, Header, 5) == Ok(kept);
      assert kept[|kept| - 6..] == banner;
    } else {
      assert appended[|appended| - 6..] == banner;
    }
  }

  // ---------------------------------------------------------------------
  // handle_error

  /** What `handle_error` logs at ERROR level, and what it returns. */
  datatype ErrorReport = ErrorReport(logged: string, result: bool)

  /** `handle_error(driver, function_name, error, custom_message)`: `error`
      is `str(error)`; a missing custom message prints as "None". */
  function HandleError(functionName: string, error: string, customMessage: Option<string>): (r: ErrorReport)
    ensures !r.result
    ensures EndsWith(r.logged, " Error in " + functionName + ": " + error)
    ensures customMessage.Some? ==> StartsWith(r.logged, customMessage.value)
  {
    var custom := match customMessage case Some(m) => m case None => "None";
    ErrorReport(custom + " Error in " + functionName + ": " + error, false)
  }
}
