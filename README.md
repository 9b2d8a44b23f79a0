# HCSSBot automation helpers in Dafny

HCSSBot drives a web application through Selenium to export inspection
reports. Under its page-specific flows sit a few helpers that make the
decisions: the element prober, with its bounded retries, and the actions
built on it (utils_inspector.py); the download waiter (utils_driver.py); and
the logging helpers (utils_logging.py). This project models those helpers
and proves what they promise.

The browser, the clock and the filesystem become inputs:

- `inspect` sees one `Outcome` per attempt: present with its displayed and
  enabled flags, stale, not found, or any other exception.
- `navigate` sees one `WaitResult` per wait.
- `wait_for_download` reads a trace of `(clock, listing)` polls.
- A log file is its list of lines, or `None` when it does not exist.
- A screenshot save either raises or does not. A save that returns False without raising counts as done.

Files:

- `wrappers.dfy`: `Option` and `Result`.
- `pystr.dfy`: the Python string operations the helpers rely on. These are
  `in`, `split(sep)`, `split()`, `strip`, `center`, `str(int)`, `int(str)`
  and `:03d`.
- `inspector.dfy`: `inspect`, `click`, `navigate`, and the results count
  read by `apply_date_filter`.
- `driver.dfy`: `wait_for_download` and its file-name rule.
- `logging.dfy`: the formatter's colours, `take_screenshot`,
  `write_ascii_header`, `trim_log_file` and `handle_error`.

One behaviour of the code is worth knowing before reading the model.
`inspect` catches NoSuchElementException to retry a locator that is not
found (utils_inspector.py:74-77). The presence wait, however, raises
TimeoutException for such a locator. That falls into the catch-all at
utils_inspector.py:79-82, which ends `inspect` after the first attempt
(`Inspector.AbsentLocator`).

## Model

| member | source | states |
|---|---|---|
| Inspector.Inspect | utils_inspector.py:32-85 | At most `max(retries, 0)` attempts. Every attempt but the last was stale, not found, or present but not displayed and enabled. The loop stops early only on a decisive attempt. The element is returned exactly when the last attempt saw it displayed and enabled, and it is that attempt's handle. |
| Inspector.AbsentLocator | utils_inspector.py:37-43 | A locator that never appears ends `inspect` after its first attempt, with None, whatever positive retry budget is given (TimeoutException falls into the catch-all at lines 79-82). With `retries <= 0` no attempt is made. |
| Inspector.Click | utils_inspector.py:15-30 | The native click is invoked exactly when the single inspection attempt yields the element. `click` returns True exactly when that happened and the click did not raise. |
| Inspector.Navigate | utils_inspector.py:87-120 | A failing `driver.get` gives False. With neither condition nor landmark the result is True. With only a landmark the result is True after one attempt when `retries > 0`, and the inspection result is ignored. With a condition: only timed-out waits are retried, the result is True exactly when the last wait succeeded, and other errors end the loop with False. |
| Inspector.LastPiece | utils_inspector.py:148 | `text.split("of")[-1]`: the last piece of the split. |
| Inspector.FirstToken | utils_inspector.py:148 | `piece.strip().split()[0]`, or None where Python raises IndexError. |
| Inspector.EntryCount | utils_inspector.py:148 | The count read from the label: `int(text.split("of")[-1].strip().split()[0])`, or None where Python raises IndexError or ValueError. |
| Inspector.EntryCountAfterLastOf | utils_inspector.py:148 | Only the text after the last "of" decides the count. |
| Inspector.FirstTokenOfNumber | utils_inspector.py:148 | A rendered number after a blank, followed by nothing or by whitespace, is the first token `strip().split()` yields. |
| Inspector.EntryCountReadsTotal | utils_inspector.py:148 | A label ending in "of n" or "of n words" (no further "of") is read as n. |
| Inspector.SeparatedTotalNotRead | utils_inspector.py:148 | A total written with a thousands separator (a digit, then ',', then more non-blank characters, after the last "of ") is not read: `int` raises ValueError on that token, so the count is None. |
| Inspector.ThousandsSeparatorNotRead | utils_inspector.py:148 | The instance "of 1,234 entries": `int("1,234")` raises ValueError, so the count is None. |
| Inspector.DateFilterResult | utils_inspector.py:146-162 | The dates come back unchanged exactly when the label was read, parsed as an integer, and the count is not 0. Otherwise the result is `(None, None)`. |
| Inspector.DateFilterOnCount | utils_inspector.py:147-158 | A label reporting n entries leads to the export exactly when n != 0. |
| Driver.Matches | utils_driver.py:57 | A file name matches a prefix when it starts with the prefix and ends in `.xlsx`. |
| Driver.HasMatch | utils_driver.py:55-57 | A listing holds some name that matches some expected prefix. A listing error holds none. |
| Driver.Scan | utils_driver.py:53-61 | One polling iteration reports a match exactly when the listing holds a name that starts with one of the prefixes and ends in `.xlsx`. A listing error is no match. |
| Driver.WaitForDownload | utils_driver.py:40-66 | Every scan happens before the deadline and all but the last find nothing. The result is True exactly when the last scan matched. False comes only once the clock reaches the timeout. An empty prefix list never succeeds. With `timeout <= 0` nothing is scanned, when the first clock reading is not before the start. With one tick per iteration there are at most `timeout` scans. |
| Driver.PartialDownloadNeverMatches | utils_driver.py:57 | A `.crdownload` file, or any name not ending in `.xlsx`, never matches. |
| Driver.EmptyPrefixMatchesAnyExport | utils_driver.py:55-57 | The empty prefix matches exactly the `.xlsx` names. |
| Driver.ExportIsFound | utils_driver.py:55-59 | A listing that holds prefix + anything + `.xlsx` for an expected prefix is a match. |
| Logging.Paint | utils_logging.py:46-49 | `f"{color}{text}{COLORS['RESET']}"`: the text between its colour and RESET. |
| Logging.MessageColor | utils_logging.py:37-42 | The message colour: SUCCESS when the message contains "SUCCESS", else the level's colour when the level is a key of `COLORS`, else RESET. |
| Logging.LevelColor | utils_logging.py:45 | `COLORS.get(levelname, COLORS["RESET"])`. |
| Logging.GreenMeansSuccess | utils_logging.py:37-42 | The message is green exactly when it contains "SUCCESS" or its level is SUCCESS. |
| Logging.MessageTakesLevelColor | utils_logging.py:37-45 | Without "SUCCESS" in it, the message gets the same colour as its level name (RESET for an unknown level). |
| Logging.ColouredLevelIsUnknown | utils_logging.py:45-56 | A level name coloured by `format` is no key of `COLORS` and is not "ERROR". A second `format` of the same record paints it in RESET and takes no screenshot. |
| Logging.CustomFormatter.Format | utils_logging.py:35-60 | An ERROR record under a driver takes one screenshot first: step "error_occurred", at the given timestamp, numbered with the current counter. If the save raises, the record is left untouched and nothing is recorded. Otherwise the level and the message are wrapped in their colours and RESET, and the line is `asctime - level - message`. |
| Logging.Screenshots.Take | utils_logging.py:62-73 | The path is `screenshots/NNN_<step>_<timestamp>.png` with the current counter. The counter goes up by exactly one per save that does not raise, and a save that raises leaves it alone. The new path differs from every earlier screenshot's path. |
| Logging.ScreenshotPath | utils_logging.py:69 | The screenshot path lies in `screenshots/` and ends in `.png`. |
| Logging.PaddedCounterValue | utils_logging.py:69 | `counter:03d` has at least three digits, no underscore, and reads back as the counter. |
| Logging.ScreenshotPathsDistinct | utils_logging.py:69 | Different counter values give different paths, whatever the step names and timestamps. |
| Logging.TitleLine | utils_logging.py:95 | The title line: "* ", the header centred in 51 columns, " *". |
| Logging.BannerLines | utils_logging.py:94-98 | The banner is six lines: a blank line, a rule, the title line, a rule, the start time, a rule. |
| Logging.WriteAsciiHeader | utils_logging.py:86-100 | Returns "NEW SCRIPT EXECUTION". It keeps the old lines, creates a missing file, and writes exactly the six banner lines after them, nothing else. |
| Logging.TitleLineWidth | utils_logging.py:87-95 | Any header of up to 51 characters gives a 55-character title line framed by "* " and " *". |
| Logging.BannerShape | utils_logging.py:94-98 | The rules are 55 `*`. The title line is "* ", 16 blanks, the header, 15 blanks and " *", so the odd blank of `str.center` goes on the left. |
| Logging.CenteredHeader | utils_logging.py:87-95 | `"NEW SCRIPT EXECUTION".center(51)` puts 16 blanks before the header and 15 after it. |
| Logging.BannerHoldsOneRun | utils_logging.py:94-98 | A banner holds exactly one header line, its title line. |
| Logging.RunIndices | utils_logging.py:109 | At most one index per line, each one in range. |
| Logging.RunIndicesSound | utils_logging.py:109 | Every listed line contains the header. |
| Logging.RunIndicesIncreasing | utils_logging.py:109 | The indices are strictly increasing, so none is listed twice. |
| Logging.RunIndicesComplete | utils_logging.py:109 | Every line that contains the header is listed. |
| Logging.RunIndicesConcat | utils_logging.py:109 | The header lines of `a + b` are those of `a`, followed by those of `b` shifted by `len(a)`. |
| Logging.PyIndex | utils_logging.py:114 | `run_indices[-max_runs]`: defined exactly when `-len <= i < len`, and then the element counted from the end for a negative index. |
| Logging.TrimLines | utils_logging.py:109-118 | Trimming only ever drops a leading part of the file. IndexError needs a negative `max_runs`. |
| Logging.TrimLogFile | utils_logging.py:102-119 | A missing file stays missing. Otherwise the file becomes the trimmed lines, or the IndexError propagates. |
| Logging.TrimUnderLimit | utils_logging.py:113 | With at most `max_runs` header lines, the file is left unchanged. |
| Logging.TrimKeepsLastRuns | utils_logging.py:109-118 | With more than `max_runs > 0` header lines, the result is a proper, non-empty suffix of the file that starts on a header line and holds exactly `max_runs` header lines. |
| Logging.TrimIdempotent | utils_logging.py:113-118 | Trimming a second time with the same `max_runs > 0` changes nothing. |
| Logging.TrimZeroKeepsEveryRun | utils_logging.py:113-115 | `max_runs=0` indexes `run_indices[-0]`, the first header line. Only the lines before the first run go, and every run is kept. |
| Logging.TrimNegativeRaises | utils_logging.py:113-114 | A negative `max_runs` raises IndexError exactly when `-max_runs` is at least the number of header lines. |
| Logging.NewRunSurvivesTrim | utils_logging.py:126-127 | After the banner is written and the file trimmed to 5 runs, the new banner ends the file and the file holds min(old runs + 1, 5) runs. |
| Logging.HandleError | utils_logging.py:160-166 | Always returns False. The logged line ends in "Error in <function>: <error>" and starts with the custom message when one is given. |
| PyStr.Contains | utils_logging.py:109 | `sub in s`, as also used at utils_logging.py:37: some position of `s` starts `sub`. |
| PyStr.StartsWith | utils_driver.py:57 | `s.startswith(prefix)`. |
| PyStr.EndsWith | utils_driver.py:57 | `s.endswith(suffix)`. |
| PyStr.Strip | utils_inspector.py:148 | `s.strip()`: leading and trailing Python whitespace removed. |
| PyStr.ShowNat | utils_logging.py:69 | `str(n)` for a natural number: a non-empty run of decimal digits. |
| PyStr.ZeroPad | utils_logging.py:69 | The `03d` padding: zeros on the left up to the width, the string unchanged when it is already that long. |
| PyStr.Split | utils_inspector.py:148 | `s.split(sep)` for a non-empty separator. It always yields at least one piece. |
| PyStr.Words | utils_inspector.py:148 | `s.split()`: the maximal runs of non-whitespace characters, in order. |
| PyStr.ParseInt | utils_inspector.py:148 | `int(s)`: surrounding whitespace, an optional sign, then digits with single underscores between them. None where Python raises ValueError. |
| PyStr.Center | utils_logging.py:95 | `s.center(width)` as CPython computes it. The result is `width` long when `width` exceeds the length of `s`. |
| PyStr.SplitJoin | utils_inspector.py:148 | `sep.join(s.split(sep)) == s`: splitting loses nothing. |
| PyStr.SplitPiecesFree | utils_inspector.py:148 | No piece of `s.split(sep)` contains `sep`. |
| PyStr.WordsAreWords | utils_inspector.py:148 | Every word `split()` yields is non-empty and holds no whitespace. |
| PyStr.LastPieceAfterOf | utils_inspector.py:148 | When b contains no "of", the last piece of `(a + "of" + b).split("of")` is b. |
| PyStr.ParseShowInt | utils_inspector.py:148 | `int(str(n)) == n` for every integer. |

## Left out

- Selenium itself: waits, element lookup, `send_keys`, `clear`, `save_screenshot` and `driver.get` are replaced by the outcome inputs described above.
- Real time: `time.sleep`, `time.time`, `datetime.now` and `strftime` are left out. Attempts are counted, and clock values are abstract ticks given as inputs.
- Log output: `log_message` is imported from utils_logging.py by the other helpers, but utils_logging.py does not define it. It is treated as a sink that affects no result. The same goes for the `logger` calls.
- Driver.WaitForDownload: one listing per iteration is shared by all prefixes. The source lists the directory again for each prefix, and a file that appears between those listings is not modelled.
- Driver.WaitForDownload: the `timeout <= 0` clause assumes the first clock reading is not before the start. A wall clock that steps back between the two readings makes the source scan once even with `timeout = 0`. The other clauses hold for any clock values.
- Driver.WaitForDownload: the trace must contain a poll at or past the deadline. A clock that never advances, which would make the source loop forever, is not modelled.
- Inspector.Inspect: the "log only when the displayed flag changed" bookkeeping (`previous_displayed`, `previous_enabled`) only affects logging and is not modelled.
- Inspector.Navigate: a `handle_error` that itself raises (for example on `driver.current_url` with a dead session) is not modelled.
- Inspector.Inspect: the `handle_error` call in the catch-all can itself raise on `driver.current_url`. `inspect` then raises instead of returning None. This is not modelled.
- Inspector.Click: the `handle_error` call in the except clause can itself raise on `driver.current_url`. `click` then raises instead of returning False. This is not modelled.
- Inspector.DateFilterResult: the steps before the count is read (the inspections, clicks and typing) are summed up as "the label was read or some step raised".
- PyStr.ParseInt: accepts ASCII digits only. Python's `int` also accepts other Unicode decimal digits.
- Logging.HandleError: `driver.current_url` raising (for example with no driver) is not modelled. The log lines themselves are not written anywhere.
- Logging.CustomFormatter.Format: `super().format` is reduced to `asctime - levelname - message`. Record arguments (`msg % args`) and exception text are left out, and the nested `logger.info` call inside `take_screenshot` is not modelled.
- Logging.Screenshots.Take: the `os.makedirs` call and its failure are left out. The list of saved screenshots is ghost state.
- Logging.Screenshots.Take: a save that returns False (a file that could not be written) counts as saved. The counter goes up and the shot is recorded, as in the source.
- Logging.WriteAsciiHeader: the banner's first "\n" is modelled as a line of its own, which holds when the file is empty or ends in a line break, as the logger's files do.
- `setup_logging` and `log_args`: handler wiring and a decorator that only logs. Of `setup_logging`, only the banner-then-trim sequence is modelled, in `Logging.NewRunSurvivesTrim`.
- `delete_all_screenshots`, `create_chrome_driver`, the page flows (main.py, login.py, get_inspections.py, get_nearmisses.py), utils_exports.py, send_email.py, EndpointCalls and utils_yaml.py are not part of this model. They are glue over the helpers above, network clients, or a third-party loader.
- text_color_test.py: a colour demonstration script with no logic.
