/** The Python `str` operations the helpers rely on (`in`, `startswith`,
    `endswith`, `split(sep)`, `strip()`, `split()`, `center`, `str(int)`,
    `int(str)` and the `03d` format), stated over `seq<char>`. */
module PyStr {
  import opened Wrappers

  /** `c.isspace()`: the characters `str.strip()` and `str.split()` drop. */
  predicate IsSpace(c: char) {
    || ('\t' <= c <= '\r')
    || ('\U{1c}' <= c <= ' ')
    || c == '\U{85}' || c == '\U{a0}' || c == '\U{1680}'
    || ('\U{2000}' <= c <= '\U{200a}')
    || c == '\U{2028}' || c == '\U{2029}' || c == '\U{202f}' || c == '\U{205f}' || c == '\U{3000}'
  }

  predicate IsDigit(c: char) {
    '0' <= c <= '9'
  }

  function DigitValue(c: char): nat
    requires IsDigit(c)
  {
    c as int - '0' as int
  }

  function DigitChar(d: nat): (c: char)
    requires d < 10
    ensures IsDigit(c) && DigitValue(c) == d
  {
    ('0' as int + d) as char
  }

  /** `c * n` for a one-character string `c` and `n >= 0`. */
  function Repeat(c: char, n: nat): (r: string)
    ensures |r| == n && forall i :: 0 <= i < n ==> r[i] == c
  {
    seq(n, _ => c)
  }

  /** `len(range(n))`: how many times `for _ in range(n)` runs its body. */
  function RangeLength(n: int): (len: nat)
    ensures len == if n > 0 then n else 0
  {
    if n > 0 then n else 0
  }

  /** `s.startswith(prefix)` */
  predicate StartsWith(s: string, prefix: string) {
    |prefix| <= |s| && s[..|prefix|] == prefix
  }

  /** `s.endswith(suffix)` */
  predicate EndsWith(s: string, suffix: string) {
    |suffix| <= |s| && s[|s| - |suffix|..] == suffix
  }

  /** `sub in s`: some position of `s` starts an occurrence of `sub`. */
  predicate Contains(s: string, sub: string)
    decreases |s|
  {
    StartsWith(s, sub) || (|s| > 0 && Contains(s[1..], sub))
  }

  /** An occurrence at position `k` makes `sub in s` true. */
  lemma {:induction false} ContainsAt(s: string, sub: string, k: nat)
    requires k + |sub| <= |s| && s[k..k + |sub|] == sub
    ensures Contains(s, sub)
  {
    if k > 0 {
      assert s[1..][k - 1..k - 1 + |sub|] == s[k..k + |sub|];
      ContainsAt(s[1..], sub, k - 1);
    } else {
      assert s[..|sub|] == sub;
    }
  }

  /** `sub` occurs in any string that has it between two others. */
  lemma ContainsMiddle(before: string, sub: string, after: string)
    ensures Contains(before + sub + after, sub)
  {
    var s := before + sub + after;
    assert s[|before|..|before| + |sub|] == sub;
    ContainsAt(s, sub, |before|);
  }

  /** A string that lacks the first character of `sub` does not contain `sub`. */
  lemma {:induction false} NotContainsWithoutFirst(s: string, sub: string)
    requires |sub| > 0
    requires forall i :: 0 <= i < |s| ==> s[i] != sub[0]
    ensures !Contains(s, sub)
  {
    if |s| > 0 {
      assert forall i :: 0 <= i < |s[1..]| ==> s[1..][i] == s[i + 1];
      NotContainsWithoutFirst(s[1..], sub);
      assert s[0] != sub[0];
    }
  }

  /** An occurrence of "of" in `a + b` lies inside `a`, inside `b`, or
      straddles the join as `a`'s last 'o' and `b`'s first 'f'. */
  lemma {:induction false} ContainsOfConcat(a: string, b: string)
    requires Contains(a + b, "of")
    ensures || Contains(a, "of") || Contains(b, "of")
            || (|a| > 0 && |b| > 0 && a[|a| - 1] == 'o' && b[0] == 'f')
  {
    var s := a + b;
    if |a| == 0 {
      assert s == b;
    } else if StartsWith(s, "of") {
      assert s[0] == 'o' && s[1] == 'f' by { assert s[..2] == "of"; }
      if |a| >= 2 {
        assert a[..2] == s[..2];
      } else {
        assert s[1] == b[0];
      }
    } else {
      assert s[1..] == a[1..] + b;
      ContainsOfConcat(a[1..], b);
      if |a[1..]| > 0 {
        assert a[1..][|a[1..]| - 1] == a[|a| - 1];
      }
    }
  }

  // ---------------------------------------------------------------------
  // s.split(sep) and its inverse sep.join(pieces)

  /** `s.split(sep)` for a non-empty separator: the pieces between the
      occurrences of `sep` found scanning left to right. */
  function Split(s: string, sep: string): (pieces: seq<string>)
    requires |sep| > 0
    ensures |pieces| >= 1
    decreases |s|
  {
    if StartsWith(s, sep) then [""] + Split(s[|sep|..], sep)
    else if s == [] then [""]
    else
      var rest := Split(s[1..], sep);
      [[s[0]] + rest[0]] + rest[1..]
  }

  /** `sep.join(pieces)` */
  function Join(pieces: seq<string>, sep: string): string
  {
    if |pieces| == 0 then ""
    else if |pieces| == 1 then pieces[0]
    else pieces[0] + sep + Join(pieces[1..], sep)
  }

  /** Joining the pieces with the separator gives back the string. */
  lemma {:induction false} SplitJoin(s: string, sep: string)
    requires |sep| > 0
    ensures Join(Split(s, sep), sep) == s
    decreases |s|
  {
    if StartsWith(s, sep) {
      var rest := Split(s[|sep|..], sep);
      SplitJoin(s[|sep|..], sep);
      assert Split(s, sep) == [""] + rest;
      JoinAfterEmpty(rest, sep);
      assert s == s[..|sep|] + s[|sep|..];
    } else if s != [] {
      var rest := Split(s[1..], sep);
      SplitJoin(s[1..], sep);
      assert Split(s, sep) == [[s[0]] + rest[0]] + rest[1..];
      JoinPrepend(s[0], rest, sep);
      assert s == [s[0]] + s[1..];
    }
  }

  /** An empty first piece contributes only its separator. */
  lemma JoinAfterEmpty(rest: seq<string>, sep: string)
    requires |rest| >= 1
    ensures Join([""] + rest, sep) == sep + Join(rest, sep)
  {
    assert ([""] + rest)[1..] == rest;
  }

  /** A character put in front of the first piece ends up in front of the join. */
  lemma JoinPrepend(c: char, pieces: seq<string>, sep: string)
    requires |pieces| >= 1
    ensures Join([[c] + pieces[0]] + pieces[1..], sep) == [c] + Join(pieces, sep)
  {
    var longer := [[c] + pieces[0]] + pieces[1..];
    if |pieces| > 1 {
      assert longer[1..] == pieces[1..];
    }
  }

  /** The first piece is a prefix of the string that holds no occurrence of `sep`. */
  lemma {:induction false} FirstPieceIsPrefix(s: string, sep: string)
    requires |sep| > 0
    ensures var p := Split(s, sep)[0]; |p| <= |s| && s[..|p|] == p
    decreases |s|
  {
    if !StartsWith(s, sep) && s != [] {
      FirstPieceIsPrefix(s[1..], sep);
    }
  }

  /** No piece of `s.split(sep)` contains `sep`. */
  lemma {:induction false} SplitPiecesFree(s: string, sep: string)
    requires |sep| > 0
    ensures forall i :: 0 <= i < |Split(s, sep)| ==> !Contains(Split(s, sep)[i], sep)
    decreases |s|
  {
    var pieces := Split(s, sep);
    if StartsWith(s, sep) {
      var rest := Split(s[|sep|..], sep);
      SplitPiecesFree(s[|sep|..], sep);
      SplitAtSep(s, sep);
      forall i | 0 <= i < |pieces|
        ensures !Contains(pieces[i], sep)
      {
        if i == 0 {
          assert !Contains("", sep);
        } else {
          assert pieces[i] == rest[i - 1];
        }
      }
    } else if s != [] {
      var rest := Split(s[1..], sep);
      SplitPiecesFree(s[1..], sep);
      SplitAtChar(s, sep);
      var p := [s[0]] + rest[0];
      assert !Contains(p, sep) by {
        FirstPieceIsPrefix(s[1..], sep);
        assert p == s[..|p|];
        assert !StartsWith(p, sep) by {
          if |sep| <= |p| {
            assert s[..|sep|] == p[..|sep|];
          }
        }
        assert p[1..] == rest[0];
      }
      forall i | 0 <= i < |pieces|
        ensures !Contains(pieces[i], sep)
      {
        if i > 0 {
          assert pieces[i] == rest[i];
        }
      }
    }
  }

  /** `split` at an occurrence of `sep`: an empty piece, then the rest. */
  lemma SplitAtSep(s: string, sep: string)
    requires |sep| > 0 && StartsWith(s, sep)
    ensures Split(s, sep) == [""] + Split(s[|sep|..], sep)
  {
  }

  /** `split` at any other character: it joins the first piece of the rest. */
  lemma SplitAtChar(s: string, sep: string)
    requires |sep| > 0 && !StartsWith(s, sep) && s != []
    ensures var rest := Split(s[1..], sep);
      Split(s, sep) == [[s[0]] + rest[0]] + rest[1..]
  {
  }

  /** A string without `sep` splits into itself alone. */
  lemma {:induction false} SplitWithoutSep(s: string, sep: string)
    requires |sep| > 0 && !Contains(s, sep)
    ensures Split(s, sep) == [s]
    decreases |s|
  {
    if s != [] {
      SplitWithoutSep(s[1..], sep);
      assert [s[0]] + s[1..] == s;
    }
  }

  /** The last piece of `a + "of" + b`, where `b` holds no "of", is `b`:
      `split("of")[-1]` keeps exactly the text after the last "of". */
  lemma {:induction false} LastPieceAfterOf(a: string, b: string)
    requires !Contains(b, "of")
    ensures var pieces := Split(a + "of" + b, "of");
      |pieces| >= 2 && pieces[|pieces| - 1] == b
    decreases |a|
  {
    var s := a + "of" + b;
    if |a| == 0 {
      OfInFront(b);
      SplitWithoutSep(b, "of");
      LastAfterSep(s, b, "of", b);
    } else if |a| >= 2 && a[..2] == "of" {
      OfStartsText(a, b);
      LastPieceAfterOf(a[2..], b);
      LastAfterSep(s, a[2..] + "of" + b, "of", b);
    } else {
      OfNotAtStart(a, b);
      LastPieceAfterOf(a[1..], b);
      LastAfterChar(s, a[1..] + "of" + b, "of", b);
    }
  }

  lemma OfInFront(b: string)
    ensures StartsWith("of" + b, "of") && ("of" + b)[2..] == b
  {
  }

  /** A text starting with "of" is cut after it. */
  lemma OfStartsText(a: string, b: string)
    requires |a| >= 2 && a[..2] == "of"
    ensures var s := a + "of" + b; StartsWith(s, "of") && s[2..] == a[2..] + "of" + b
  {
    var s := a + "of" + b;
    assert s[..2] == a[..2];
  }

  /** Any other non-empty text gives up its first character. */
  lemma OfNotAtStart(a: string, b: string)
    requires |a| > 0 && !(|a| >= 2 && a[..2] == "of")
    ensures var s := a + "of" + b; !StartsWith(s, "of") && s[1..] == a[1..] + "of" + b
  {
    var s := a + "of" + b;
    if |a| == 1 {
      assert s[1] == 'o';
    } else {
      assert s[..2] == a[..2];
    }
  }

  /** Splitting at a leading `sep` adds a piece in front and keeps the last one. */
  lemma LastAfterSep(s: string, rest: string, sep: string, last: string)
    requires |sep| > 0 && StartsWith(s, sep) && rest == s[|sep|..]
    requires var tail := Split(rest, sep); tail[|tail| - 1] == last
    ensures var pieces := Split(s, sep); |pieces| >= 2 && pieces[|pieces| - 1] == last
  {
    var tail := Split(rest, sep);
    SplitAtSep(s, sep);
    var pieces := [""] + tail;
    assert pieces[|pieces| - 1] == tail[|tail| - 1];
  }

  /** A leading character that starts no `sep` leaves the last of two or more pieces alone. */
  lemma LastAfterChar(s: string, rest: string, sep: string, last: string)
    requires |sep| > 0 && !StartsWith(s, sep) && s != [] && rest == s[1..]
    requires var tail := Split(rest, sep); |tail| >= 2 && tail[|tail| - 1] == last
    ensures var pieces := Split(s, sep); |pieces| >= 2 && pieces[|pieces| - 1] == last
  {
    var tail := Split(rest, sep);
    SplitAtChar(s, sep);
    var pieces := [[s[0]] + tail[0]] + tail[1..];
    assert pieces[|pieces| - 1] == tail[|tail| - 1];
  }

  // ---------------------------------------------------------------------
  // s.strip() and s.split() without arguments

  /** `s.lstrip()` */
  function LStrip(s: string): (r: string)
    ensures |r| <= |s| && r == s[|s| - |r|..]
    ensures r == [] || !IsSpace(r[0])
    ensures forall i :: 0 <= i < |s| - |r| ==> IsSpace(s[i])
    decreases |s|
  {
    if |s| > 0 && IsSpace(s[0]) then LStrip(s[1..]) else s
  }

  /** `s.rstrip()` */
  function RStrip(s: string): (r: string)
    ensures |r| <= |s| && r == s[..|r|]
    ensures r == [] || !IsSpace(r[|r| - 1])
    ensures forall i :: |r| <= i < |s| ==> IsSpace(s[i])
    decreases |s|
  {
    if |s| > 0 && IsSpace(s[|s| - 1]) then RStrip(s[..|s| - 1]) else s
  }

  /** `s.strip()` */
  function Strip(s: string): string
  {
    RStrip(LStrip(s))
  }

  /** The longest prefix of `s` free of whitespace. */
  function TakeWord(s: string): (w: string)
    ensures |w| <= |s| && w == s[..|w|]
    ensures NoSpace(w)
    ensures |w| < |s| ==> IsSpace(s[|w|])
    decreases |s|
  {
    if |s| > 0 && !IsSpace(s[0]) then [s[0]] + TakeWord(s[1..]) else []
  }

  predicate NoSpace(w: string) {
    forall i :: 0 <= i < |w| ==> !IsSpace(w[i])
  }

  /** `s.split()`: the maximal runs of non-whitespace characters, in order. */
  function Words(s: string): seq<string>
    decreases |s|
  {
    var t := LStrip(s);
    if t == [] then []
    else
      var w := TakeWord(t);
      assert 0 < |w| <= |t| <= |s| by {
        assert !IsSpace(t[0]);
      }
      [w] + Words(t[|w|..])
  }

  /** Every word `split()` yields is non-empty and free of whitespace. */
  lemma {:induction false} WordsAreWords(s: string)
    ensures forall i :: 0 <= i < |Words(s)| ==> |Words(s)[i]| > 0 && NoSpace(Words(s)[i])
    decreases |s|
  {
    var t := LStrip(s);
    if t != [] {
      var w := TakeWord(t);
      assert 0 < |w| by {
        assert !IsSpace(t[0]);
      }
      var rest := t[|w|..];
      WordsAreWords(rest);
      assert Words(s) == [w] + Words(rest);
      forall i | 0 <= i < |Words(s)|
        ensures |Words(s)[i]| > 0 && NoSpace(Words(s)[i])
      {
        if i > 0 {
          assert Words(s)[i] == Words(rest)[i - 1];
        }
      }
    }
  }

  lemma {:induction false} TakeWordOf(w: string, rest: string)
    requires NoSpace(w)
    requires rest == [] || IsSpace(rest[0])
    ensures TakeWord(w + rest) == w
    decreases |w|
  {
    if |w| > 0 {
      assert (w + rest)[1..] == w[1..] + rest;
      TakeWordOf(w[1..], rest);
    } else {
      assert w + rest == rest;
    }
  }

  /** A word followed by nothing or by whitespace is the first word of `split()`. */
  lemma FirstWord(w: string, rest: string)
    requires |w| > 0 && NoSpace(w)
    requires rest == [] || IsSpace(rest[0])
    ensures |Words(w + rest)| > 0 && Words(w + rest)[0] == w
  {
    assert (w + rest)[0] == w[0];
    assert LStrip(w + rest) == w + rest;
    TakeWordOf(w, rest);
  }

  /** Trailing whitespace after a word is stripped from `rest` alone. */
  lemma {:induction false} RStripAfterWord(w: string, rest: string)
    requires |w| > 0 && !IsSpace(w[|w| - 1])
    ensures RStrip(w + rest) == w + RStrip(rest)
    decreases |rest|
  {
    if |rest| == 0 {
      assert w + rest == w;
    } else if IsSpace(rest[|rest| - 1]) {
      assert (w + rest)[..|w + rest| - 1] == w + rest[..|rest| - 1];
      RStripAfterWord(w, rest[..|rest| - 1]);
    }
  }

  // ---------------------------------------------------------------------
  // str.center

  /** `s.center(width)` as CPython computes it: when the margin is odd the
      extra space goes left if `width` is odd, right otherwise. */
  function Center(s: string, width: int): (r: string)
    ensures |r| == if width <= |s| then |s| else width
  {
    if width <= |s| then s
    else
      var marg := width - |s|;
      var left := marg / 2 + (if marg % 2 == 1 && width % 2 == 1 then 1 else 0);
      Repeat(' ', left) + s + Repeat(' ', marg - left)
  }

  // ---------------------------------------------------------------------
  // str(n), format(n, "03d") and int(s)

  /** `str(n)` for a natural number: decimal, no leading zero. */
  function ShowNat(n: nat): (r: string)
    ensures |r| > 0 && forall i :: 0 <= i < |r| ==> IsDigit(r[i])
  {
    if n < 10 then [DigitChar(n)] else ShowNat(n / 10) + [DigitChar(n % 10)]
  }

  /** `str(n)` */
  function ShowInt(n: int): string
  {
    if n < 0 then "-" + ShowNat(-n) else ShowNat(n)
  }

  /** `str(n)` is a non-empty run of a sign and digits, ending in a digit. */
  lemma ShowIntShape(n: int)
    ensures var s := ShowInt(n);
      && |s| > 0 && IsDigit(s[|s| - 1])
      && forall i :: 0 <= i < |s| ==> IsDigit(s[i]) || s[i] == '-'
  {
  }

  /** Left-pads `s` with '0' to `width` characters, as the `0<width>d` format does. */
  function ZeroPad(s: string, width: nat): (r: string)
    ensures |r| == if |s| < width then width else |s|
  {
    Repeat('0', if |s| < width then width - |s| else 0) + s
  }

  predicate DigitsOrUnderscores(s: string) {
    forall i :: 0 <= i < |s| ==> IsDigit(s[i]) || s[i] == '_'
  }

  /** Python's digit grammar for `int(s)`: digit ( ['_'] digit )* */
  predicate WellFormedDigits(s: string) {
    && |s| > 0 && IsDigit(s[0]) && IsDigit(s[|s| - 1])
    && DigitsOrUnderscores(s)
    && forall i :: 0 <= i < |s| - 1 && s[i] == '_' ==> s[i + 1] != '_'
  }

  /** The value of a decimal literal, `_` separators ignored. */
  function DigitsValue(s: string): nat
    requires DigitsOrUnderscores(s)
    decreases |s|
  {
    if s == [] then 0
    else if s[|s| - 1] == '_' then DigitsValue(s[..|s| - 1])
    else 10 * DigitsValue(s[..|s| - 1]) + DigitValue(s[|s| - 1])
  }

  /** `int(s)`: `None` where Python raises ValueError. */
  function ParseInt(s: string): Option<int>
  {
    var t := Strip(s);
    var signed := |t| > 0 && (t[0] == '-' || t[0] == '+');
    var body := if signed then t[1..] else t;
    if !WellFormedDigits(body) then None
    else if signed && t[0] == '-' then Some(0 - DigitsValue(body))
    else Some(DigitsValue(body))
  }

  /** A literal that starts with a digit and holds a character that is
      neither a digit nor `_` raises ValueError. */
  lemma ParseRejectsStrayChar(s: string, k: nat)
    requires Strip(s) == s && |s| > 0 && IsDigit(s[0])
    requires k < |s| && !IsDigit(s[k]) && s[k] != '_'
    ensures ParseInt(s) == None
  {
    assert !DigitsOrUnderscores(s);
  }

  lemma {:induction false} ShowNatValue(n: nat)
    ensures DigitsOrUnderscores(ShowNat(n)) && DigitsValue(ShowNat(n)) == n
  {
    var r := ShowNat(n);
    if n >= 10 {
      ShowNatValue(n / 10);
      assert r[..|r| - 1] == ShowNat(n / 10);
    }
  }

  /** Leading zeros do not change the value of a literal. */
  lemma {:induction false} LeadingZeros(k: nat, s: string)
    requires DigitsOrUnderscores(s)
    ensures DigitsOrUnderscores(Repeat('0', k) + s)
    ensures DigitsValue(Repeat('0', k) + s) == DigitsValue(s)
    decreases |s| + k
  {
    var z := Repeat('0', k);
    if |s| > 0 {
      assert (z + s)[..|z + s| - 1] == z + s[..|s| - 1];
      LeadingZeros(k, s[..|s| - 1]);
    } else if k > 0 {
      assert z + s == z;
      assert z[..k - 1] == Repeat('0', k - 1);
      LeadingZeros(k - 1, s);
      assert Repeat('0', k - 1) + s == z[..k - 1];
    }
  }

  /** `int(str(n)) == n`: the parser reads back what Python prints. */
  lemma ParseShowInt(n: int)
    ensures ParseInt(ShowInt(n)) == Some(n)
  {
    var m := if n < 0 then -n else n;
    var digits, s := ShowNat(m), ShowInt(n);
    assert WellFormedDigits(digits) && DigitsValue(digits) == m by {
      ShowNatValue(m);
    }
    assert Strip(s) == s by {
      StripShowInt(n);
    }
    if n < 0 {
      assert s[0] == '-' && s[1..] == digits;
    } else {
      assert s == digits && IsDigit(s[0]);
    }
  }

  /** `str(n)` has no surrounding whitespace for `strip` to remove. */
  lemma StripShowInt(n: int)
    ensures Strip(ShowInt(n)) == ShowInt(n)
  {
    var s := ShowInt(n);
    ShowIntShape(n);
    assert !IsSpace(s[0]) && !IsSpace(s[|s| - 1]);
    assert LStrip(s) == s;
  }
}
