/** The element prober and the actions built on it (utils_inspector.py):
    `inspect`'s bounded retry loop, `click`, `navigate`'s verification loop
    and the results-count check at the end of `apply_date_filter`.

    The browser is replaced by what it reports: `inspect` sees one `Outcome`
    per attempt, `navigate` one `WaitResult` per wait. Sleeps and log lines
    do not influence any result and are not modelled. */
module Inspector {
  import opened Wrappers
  import opened PyStr

  /** An element handle, borrowed from the browser for one attempt. */
  type Handle = nat

  /** What one attempt of `inspect` observes. */
  datatype Outcome =
      /** the presence and staleness waits passed; the element's flags */
    | Present(handle: Handle, displayed: bool, enabled: bool)
      /** StaleElementReferenceException */
    | Stale
      /** NoSuchElementException */
    | NoSuch
      /** any other exception, TimeoutException from either wait included */
    | OtherError

  /** The attempt yields the element. */
  predicate Ready(o: Outcome) {
    o.Present? && o.displayed && o.enabled
  }

  /** The attempt is used up and the loop goes on to the next one. */
  predicate Retried(o: Outcome) {
    o.Stale? || o.NoSuch? || (o.Present? && !(o.displayed && o.enabled))
  }

  /** `inspect(driver, locator, description, retries)`: `browser(k)` is what
      attempt `k` observes. Returns the element (if any) and the number of
      attempts made. Every attempt but the last was retried; the loop stops
      early only on an attempt that is ready or raised an unexpected error. */
  method Inspect(browser: nat -> Outcome, retries: int) returns (element: Option<Handle>, attempts: nat)
    ensures attempts <= RangeLength(retries)
    ensures forall k :: 0 <= k < attempts - 1 ==> Retried(browser(k))
    ensures attempts < RangeLength(retries) ==> attempts > 0 && !Retried(browser(attempts - 1))
    ensures element.Some? <==> attempts > 0 && Ready(browser(attempts - 1))
    ensures element.Some? ==> element.value == browser(attempts - 1).handle
  {
    for attempt := 0 to RangeLength(retries)
      invariant forall k :: 0 <= k < attempt ==> Retried(browser(k))
    {
      // time.sleep(wait_between_retries)
      match browser(attempt)
      case Present(h, displayed, enabled) =>
        if displayed && enabled {
          return Some(h), attempt + 1;
        }
      case Stale =>
      case NoSuch =>
      case OtherError =>
        // handle_error(...) is called and its False is discarded
        return None, attempt + 1;
    }
    return None, RangeLength(retries);
  }

  /** A locator that never resolves: the presence wait raises
      TimeoutException, which falls into the catch-all handler, so `inspect`
      gives up after its first attempt whatever the budget. */
  method AbsentLocator(retries: int) returns (element: Option<Handle>, attempts: nat)
    ensures element.None?
    ensures attempts == if retries > 0 then 1 else 0
  {
    var browser: nat -> Outcome := _ => OtherError;
    element, attempts := Inspect(browser, retries);
    assert !Retried(browser(0)) && !Ready(browser(0));
  }

  /** `click(driver, locator, description)`: one inspection attempt
      (`retries=1`), then the native click on the element it yields.
      `clickRaises` says whether `element.click()` raises. Returns whether
      the click succeeded and whether the native click was invoked. */
  method Click(browser: nat -> Outcome, clickRaises: bool) returns (clicked: bool, nativeClick: bool)
    ensures nativeClick <==> Ready(browser(0))
    ensures clicked <==> nativeClick && !clickRaises
  {
    var element, attempts := Inspect(browser, 1);
    if element.Some? {
      nativeClick := true;
      // an exception from element.click() reaches handle_error: False
      clicked := !clickRaises;
    } else {
      nativeClick, clicked := false, false;
    }
  }

  /** What one `WebDriverWait(driver, 10).until(wait_condition)` does. */
  datatype WaitResult = Satisfied | TimedOut | WaitFailed

  /** `navigate(driver, url, wait_condition, retries, element_locator=...)`.
      `getRaises` says whether `driver.get(url)` raises; `hasCondition` and
      `hasLandmark` say whether `wait_condition` and `element_locator` are
      given; `waits(k)` is the result of the condition wait on attempt `k`
      and `landmark` what the landmark inspection observes. Returns whether
      the page counts as loaded and the number of verification attempts. */
  method Navigate(getRaises: bool, hasCondition: bool, hasLandmark: bool,
                  waits: nat -> WaitResult, landmark: nat -> Outcome, retries: int)
    returns (loaded: bool, attempts: nat)
    ensures getRaises ==> !loaded && attempts == 0
    ensures !getRaises && !hasCondition && !hasLandmark ==> loaded && attempts == 0
    // the landmark's inspection result is never consulted
    ensures !getRaises && !hasCondition && hasLandmark ==>
              loaded == (retries > 0) && attempts == (if retries > 0 then 1 else 0)
    ensures !getRaises && hasCondition ==>
              && attempts <= RangeLength(retries)
              && (forall k :: 0 <= k < attempts - 1 ==> waits(k) == TimedOut)
              && (attempts < RangeLength(retries) ==> attempts > 0 && waits(attempts - 1) != TimedOut)
              && (loaded <==> attempts > 0 && waits(attempts - 1) == Satisfied)
  {
    if getRaises {
      // handle_error(driver, "navigate", ...) and False
      return false, 0;
    }
    if !hasCondition && !hasLandmark {
      return true, 0;
    }
    for attempt := 0 to RangeLength(retries)
      invariant hasCondition ==> forall k :: 0 <= k < attempt ==> waits(k) == TimedOut
      invariant !hasCondition ==> attempt == 0
    {
      if hasCondition {
        match waits(attempt)
        case Satisfied =>
          return true, attempt + 1;
        case TimedOut =>
          // time.sleep(wait_time) and try again
        case WaitFailed =>
          // not a TimeoutException: escapes the loop to handle_error
          return false, attempt + 1;
      } else {
        var element, tries := Inspect(landmark, 3);
        return true, attempt + 1;
      }
    }
    return false, RangeLength(retries);
  }

  // ---------------------------------------------------------------------
  // The results count read by apply_date_filter

  /** `text.split("of")[-1]`: the text after the last "of". */
  function LastPiece(text: string): string
  {
    var pieces := Split(text, "of");
    pieces[|pieces| - 1]
  }

  /** `piece.strip().split()[0]`, `None` where Python raises IndexError. */
  function FirstToken(piece: string): Option<string>
  {
    var words := Words(Strip(piece));
    if |words| == 0 then None else Some(words[0])
  }

  /** `int(text.split("of")[-1].strip().split()[0])`, with `None` wherever
      Python raises (no word after the last "of", or a word that is not an
      integer literal). */
  function EntryCount(text: string): Option<int>
  {
    match FirstToken(LastPiece(text))
    case None => None
    case Some(token) => ParseInt(token)
  }

  /** After "of" followed by text without "of", that text is the last piece. */
  lemma LastPieceAfterLastOf(a: string, b: string)
    requires !Contains(b, "of")
    ensures LastPiece(a + "of" + b) == b
  {
    LastPieceAfterOf(a, b);
  }

  /** A text without "of" is its own last piece. */
  lemma LastPieceWithoutOf(b: string)
    requires !Contains(b, "of")
    ensures LastPiece(b) == b
  {
    SplitWithoutSep(b, "of");
  }

  /** `EntryCount` looks at nothing but the last piece. */
  lemma SameLastPiece(x: string, y: string)
    requires LastPiece(x) == LastPiece(y)
    ensures EntryCount(x) == EntryCount(y)
  {
  }

  /** Only the text after the last "of" is read. */
  lemma EntryCountAfterLastOf(a: string, b: string)
    requires !Contains(b, "of")
    ensures EntryCount(a + "of" + b) == EntryCount(b)
  {
    LastPieceAfterLastOf(a, b);
    LastPieceWithoutOf(b);
    SameLastPiece(a + "of" + b, b);
  }

  /** The blank before the number and the whitespace after it are stripped. */
  lemma StripAroundNumber(w: string, rest: string)
    requires |w| > 0 && NoSpace(w)
    ensures Strip(" " + w + rest) == w + RStrip(rest)
  {
    var b := " " + w + rest;
    assert b[1..] == w + rest;
    assert LStrip(w + rest) == w + rest by {
      assert (w + rest)[0] == w[0];
    }
    assert LStrip(b) == w + rest;
    RStripAfterWord(w, rest);
  }

  /** The token after " " is the word that follows it when what follows
      the word is empty or starts with whitespace. */
  lemma FirstTokenOfWord(w: string, rest: string)
    requires |w| > 0 && NoSpace(w)
    requires rest == [] || IsSpace(rest[0])
    ensures FirstToken(" " + w + rest) == Some(w)
  {
    StripAroundNumber(w, rest);
    var tail := RStrip(rest);
    assert tail == [] || IsSpace(tail[0]);
    FirstWord(w, tail);
  }

  /** The token after " " is the rendered number when what follows it is
      empty or starts with whitespace. */
  lemma FirstTokenOfNumber(n: int, rest: string)
    requires rest == [] || IsSpace(rest[0])
    ensures FirstToken(" " + ShowInt(n) + rest) == Some(ShowInt(n))
  {
    ShowIntShape(n);
    FirstTokenOfWord(ShowInt(n), rest);
  }

  /** The text after "of" in "of <n><rest>" holds no further "of". */
  lemma NoOfAfterNumber(n: int, rest: string)
    requires !Contains(rest, "of")
    ensures !Contains(" " + ShowInt(n) + rest, "of")
  {
    var w := ShowInt(n);
    ShowIntShape(n);
    var lead := " " + w;
    assert forall i :: 0 <= i < |lead| ==> lead[i] != 'o';
    NotContainsWithoutFirst(lead, "of");
    if Contains(lead + rest, "of") {
      ContainsOfConcat(lead, rest);
      assert false;
    }
  }

  /** A label ending in "of <n>" or "of <n> <words>" is read as `n`. */
  lemma EntryCountReadsTotal(a: string, n: int, rest: string)
    requires !Contains(rest, "of")
    requires rest == [] || IsSpace(rest[0])
    ensures EntryCount(a + "of " + ShowInt(n) + rest) == Some(n)
  {
    var w := ShowInt(n);
    NoOfAfterNumber(n, rest);
    LastPieceAfterBlank(a, w, rest);
    assert FirstToken(" " + w + rest) == Some(w) by {
      FirstTokenOfNumber(n, rest);
    }
    assert ParseInt(w) == Some(n) by {
      ParseShowInt(n);
    }
    EntryCountSteps(a + "of " + w + rest, " " + w + rest, w);
  }

  /** A total written with a thousands separator, a digit followed by ','
      as in "of 1,234 entries", is not read: `int` raises ValueError on
      the token, so the count is None. */
  lemma SeparatedTotalNotRead(a: string, w: string, rest: string)
    requires |w| > 1 && NoSpace(w) && IsDigit(w[0]) && w[1] == ','
    requires !Contains(" " + w + rest, "of")
    requires rest == [] || IsSpace(rest[0])
    ensures EntryCount(a + "of " + w + rest) == None
  {
    var text, b := a + "of " + w + rest, " " + w + rest;
    LastPieceAfterBlank(a, w, rest);
    assert FirstToken(b) == Some(w) by {
      FirstTokenOfWord(w, rest);
    }
    assert ParseInt(w) == None by {
      SeparatedTokenNotInt(w);
    }
    EntryCountSteps(text, b, w);
  }

  /** The text after the last "of " is the last piece. */
  lemma LastPieceAfterBlank(a: string, w: string, rest: string)
    requires !Contains(" " + w + rest, "of")
    ensures LastPiece(a + "of " + w + rest) == " " + w + rest
  {
    assert a + "of " + w + rest == a + "of" + (" " + w + rest);
    LastPieceAfterLastOf(a, " " + w + rest);
  }

  /** `EntryCount` is the parse of the first token of the last piece. */
  lemma EntryCountSteps(text: string, piece: string, token: string)
    requires LastPiece(text) == piece && FirstToken(piece) == Some(token)
    ensures EntryCount(text) == ParseInt(token)
  {
  }

  /** `int` rejects a word whose second character is ','. */
  lemma SeparatedTokenNotInt(w: string)
    requires |w| > 1 && NoSpace(w) && IsDigit(w[0]) && w[1] == ','
    ensures ParseInt(w) == None
  {
    assert Strip(w) == w by {
      assert LStrip(w) == w;
      assert RStrip(w) == w;
    }
    ParseRejectsStrayChar(w, 1);
  }

  /** The concrete case "of 1,234 entries". */
  lemma ThousandsSeparatorNotRead(a: string)
    ensures EntryCount(a + "of 1,234 entries") == None
  {
    var w, rest := "1,234", " entries";
    assert "of 1,234 entries" == "of " + w + rest;
    assert a + "of 1,234 entries" == a + "of " + w + rest;
    assert NoSpace(w);
    assert !Contains(" " + w + rest, "of") by {
      var b := " " + w + rest;
      assert forall i :: 0 <= i < |b| ==> b[i] != 'o';
      NotContainsWithoutFirst(b, "of");
    }
    SeparatedTotalNotRead(a, w, rest);
  }

  /** The tail of `apply_date_filter(driver, start_date, end_date, ...)`.
      `info` is the text of the results label, or `None` when an earlier
      step raised (an inspection returned None before `.clear()`,
      `.send_keys()` or `.text`). `None` stands for `(None, None)`. */
  function DateFilterResult(start: string, end: string, info: Option<string>): (r: Option<(string, string)>)
    ensures r.Some? ==> r.value == (start, end)
    ensures r.Some? <==> info.Some? && EntryCount(info.value).Some? && EntryCount(info.value) != Some(0)
  {
    match info
    case None => None
    case Some(text) =>
      match EntryCount(text)
      case None => None                                 // ValueError or IndexError
      case Some(count) => if count == 0 then None else Some((start, end))
  }

  /** A filter whose label reports `n` entries goes on to export exactly when `n != 0`. */
  lemma DateFilterOnCount(start: string, end: string, a: string, n: int, rest: string)
    requires !Contains(rest, "of")
    requires rest == [] || IsSpace(rest[0])
    ensures DateFilterResult(start, end, Some(a + "of " + ShowInt(n) + rest))
            == if n == 0 then None else Some((start, end))
  {
    EntryCountReadsTotal(a, n, rest);
  }
}
