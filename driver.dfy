/** The download waiter of utils_driver.py: `wait_for_download` polls the
    downloads directory until a file with an expected prefix and the
    `.xlsx` extension shows up or the timeout elapses.

    Time and the filesystem become a trace: the k-th iteration of the
    polling loop reads the clock value and the directory listing of the
    k-th `Poll`. Clock values are abstract ticks; the one-second sleep
    between iterations is only visible through them. */
module Driver {
  import opened PyStr

  /** The extension every expected export file ends with. */
  const Extension: string := ".xlsx"

  /** `filename.startswith(file_prefix) and filename.endswith('.xlsx')` */
  predicate Matches(filename: string, prefix: string) {
    StartsWith(filename, prefix) && EndsWith(filename, Extension)
  }

  /** What `os.listdir(download_path)` gives: the names, or an exception
      (a missing directory, say). */
  datatype Listing = Names(names: seq<string>) | ListError

  /** One iteration's view of the world: the value `time.time()` returns in
      the loop condition and the directory as listed in that iteration. */
  datatype Poll = Poll(clock: int, listing: Listing)

  /** The listing holds a file matching one of the prefixes. */
  predicate HasMatch(listing: Listing, prefixes: seq<string>) {
    && listing.Names?
    && exists p, name :: p in prefixes && name in listing.names && Matches(name, p)
  }

  /** The body of one polling iteration: for each prefix in turn, list the
      directory and look for a matching name. An exception while listing
      ends the iteration without a match (the source logs it and sleeps). */
  method Scan(listing: Listing, prefixes: seq<string>) returns (found: bool)
    ensures found <==> HasMatch(listing, prefixes)
  {
    for i := 0 to |prefixes|
      invariant listing.Names? ==>
        forall p, name :: p in prefixes[..i] && name in listing.names ==> !Matches(name, p)
    {
      if listing.ListError? {
        return false;
      }
      var names := listing.names;
      for j := 0 to |names|
        invariant forall name :: name in names[..j] ==> !Matches(name, prefixes[i])
      {
        if Matches(names[j], prefixes[i]) {
          return true;
        }
      }
      assert names[..|names|] == names;
      assert prefixes[..i + 1] == prefixes[..i] + [prefixes[i]];
    }
    assert prefixes[..|prefixes|] == prefixes;
    return false;
  }

  /** `wait_for_download(download_path, file_prefixes, timeout)`, started at
      clock value `start`; `polls[k]` is what iteration `k` sees. The trace
      is long enough: some poll reads the clock at or past the deadline.
      Returns whether a file was found and how many iterations scanned the
      directory. */
  method WaitForDownload(prefixes: seq<string>, timeout: int, start: int, polls: seq<Poll>)
    returns (found: bool, scans: nat)
    requires exists k :: 0 <= k < |polls| && polls[k].clock - start >= timeout
    ensures scans < |polls|
    // every scan happened before the deadline, and all but the last found nothing
    ensures forall k :: 0 <= k < scans ==> polls[k].clock - start < timeout
    ensures forall k :: 0 <= k < scans - 1 ==> !HasMatch(polls[k].listing, prefixes)
    // success exactly when the last scan found a match
    ensures found <==> scans > 0 && HasMatch(polls[scans - 1].listing, prefixes)
    // failure only once the clock has reached the deadline
    ensures !found ==> polls[scans].clock - start >= timeout
    ensures prefixes == [] ==> !found
    ensures timeout <= 0 && polls[0].clock >= start ==> !found && scans == 0
    // with one tick per iteration (the sleep), there is at most one scan per tick
    ensures (forall k :: 0 <= k < |polls| ==> polls[k].clock >= start + k) ==> scans <= RangeLength(timeout)
  {
    var i := 0;
    while polls[i].clock - start < timeout
      invariant 0 <= i < |polls|
      invariant forall k :: 0 <= k < i ==> polls[k].clock - start < timeout
      invariant forall k :: 0 <= k < i ==> !HasMatch(polls[k].listing, prefixes)
      decreases |polls| - i
    {
      var hit := Scan(polls[i].listing, prefixes);
      if hit {
        return true, i + 1;
      }
      // time.sleep(1)
      i := i + 1;
    }
    return false, i;
  }

  /** A partial download (`X.xlsx.crdownload`), or any name without the
      `.xlsx` ending, never matches. */
  lemma PartialDownloadNeverMatches(filename: string, prefix: string)
    requires !EndsWith(filename, Extension) || EndsWith(filename, ".crdownload")
    ensures !Matches(filename, prefix)
  {
    var n := |filename|;
    if EndsWith(filename, ".crdownload") {
      assert filename[n - 1] == 'd' by {
        assert filename[n - 11..][10] == filename[n - 1];
      }
      assert !EndsWith(filename, Extension);
    }
  }

  /** The empty prefix matches every `.xlsx` file. */
  lemma EmptyPrefixMatchesAnyExport(filename: string)
    ensures Matches(filename, "") <==> EndsWith(filename, Extension)
  {
    assert filename[..0] == "";
  }

  /** A listing that holds `name`, which starts with some expected prefix
      and ends in `.xlsx`, is a match. */
  lemma ExportIsFound(names: seq<string>, prefixes: seq<string>, name: string, prefix: string, tail: string)
    requires name in names && prefix in prefixes
    requires name == prefix + tail + Extension
    ensures HasMatch(Names(names), prefixes)
  {
    assert name[..|prefix|] == prefix;
    assert name[|name| - |Extension|..] == Extension;
    assert Matches(name, prefix);
  }
}
