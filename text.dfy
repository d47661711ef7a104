/** Text helpers used to render configuration lines and scontrol arguments:
    decimal formatting (Python's `%d` / `str(int)`), joining with a separator
    (`",".join`) and splitting on whitespace (`str.split()` with no argument). */
module Text {

  predicate IsDigit(c: char) { '0' <= c <= '9' }

  predicate AllDigits(s: string) { forall i :: 0 <= i < |s| ==> IsDigit(s[i]) }

  function DigitChar(d: nat): (c: char)
    requires d < 10
    ensures IsDigit(c) && c as int - '0' as int == d
  {
    ('0' as int + d) as char
  }

  function DigitValue(c: char): (d: nat)
    requires IsDigit(c)
    ensures d < 10
  {
    c as int - '0' as int
  }

  /** Decimal rendering of a natural number, without leading zeros. */
  function NatToString(n: nat): (s: string)
    ensures |s| > 0 && AllDigits(s)
    ensures (s[0] == '0') <==> n == 0
    decreases n
  {
    if n < 10 then [DigitChar(n)] else NatToString(n / 10) + [DigitChar(n % 10)]
  }

  /** Decimal rendering of an integer, with a leading '-' when negative. */
  function IntToString(i: int): (s: string)
    ensures |s| > 0
    ensures s[0] == '-' <==> i < 0
  {
    if i < 0 then "-" + NatToString(-i) else NatToString(i)
  }

  /** The value of a string of decimal digits; the inverse of NatToString. */
  function ParseNat(s: string): nat
    requires AllDigits(s)
  {
    if s == [] then 0 else 10 * ParseNat(s[..|s| - 1]) + DigitValue(s[|s| - 1])
  }

  lemma {:induction false} ParseNatToString(n: nat)
    ensures ParseNat(NatToString(n)) == n
  {
    var s := NatToString(n);
    if n >= 10 {
      ParseNatToString(n / 10);
      assert s[..|s| - 1] == NatToString(n / 10);
    }
  }

  /** Different numbers never render to the same text, so generated node
      names that differ only in their number never collide. */
  lemma NatToStringInjective(a: nat, b: nat)
    ensures NatToString(a) == NatToString(b) ==> a == b
  {
    ParseNatToString(a);
    ParseNatToString(b);
  }

  /** `sep.join(parts)` */
  function Join(parts: seq<string>, sep: string): (r: string)
    ensures |parts| == 1 ==> r == parts[0]
  {
    if parts == [] then ""
    else if |parts| == 1 then parts[0]
    else parts[0] + sep + Join(parts[1..], sep)
  }

  /** The ASCII characters Python 3's argument-less `str.split()` treats as
      separators: space, tab, line feed, carriage return, vertical tab, form
      feed and the file, group, record and unit separators. Its non-ASCII
      separators are not modelled. */
  predicate IsSpace(c: char)
  {
    c == ' ' || c == '\t' || c == '\n' || c == '\r' || c == '\U{B}' || c == '\U{C}'
    || ('\U{1C}' <= c <= '\U{1F}')
  }

  predicate IsWord(w: string)
  {
    w != [] && forall i :: 0 <= i < |w| ==> !IsSpace(w[i])
  }

  /** Splitting `s` where `word` is the word being accumulated so far. */
  function SplitFrom(s: string, word: string): (ws: seq<string>)
    requires forall i :: 0 <= i < |word| ==> !IsSpace(word[i])
    ensures forall k :: 0 <= k < |ws| ==> IsWord(ws[k])
    decreases |s|
  {
    if s == [] then (if word == [] then [] else [word])
    else if IsSpace(s[0]) then
      (if word == [] then [] else [word]) + SplitFrom(s[1..], [])
    else SplitFrom(s[1..], word + [s[0]])
  }

  /** `s.split()`: the maximal runs of non-space characters, in order. */
  function SplitWords(s: string): (ws: seq<string>)
    ensures forall k :: 0 <= k < |ws| ==> IsWord(ws[k])
  {
    SplitFrom(s, [])
  }

  lemma {:induction false} SplitFromWord(w: string, rest: string, word: string)
    requires forall i :: 0 <= i < |word| ==> !IsSpace(word[i])
    requires forall i :: 0 <= i < |w| ==> !IsSpace(w[i])
    ensures SplitFrom(w + rest, word) == SplitFrom(rest, word + w)
    decreases |w|
  {
    if w == [] {
      assert w + rest == rest && word + w == word;
    } else {
      assert (w + rest)[0] == w[0];
      assert (w + rest)[1..] == w[1..] + rest;
      SplitFromWord(w[1..], rest, word + [w[0]]);
      assert word + [w[0]] + w[1..] == word + w;
    }
  }

  /** Splitting a space-joined list of words gives the words back: the
      reply of `scontrol show hostnames` decodes to the names it lists. */
  lemma {:induction false} SplitJoinRoundTrip(ws: seq<string>)
    requires forall k :: 0 <= k < |ws| ==> IsWord(ws[k])
    ensures SplitWords(Join(ws, " ")) == ws
  {
    if ws == [] {
    } else if |ws| == 1 {
      SplitFromWord(ws[0], [], []);
      assert ws[0] + [] == ws[0] && [] + ws[0] == ws[0];
    } else {
      var rest := " " + Join(ws[1..], " ");
      assert Join(ws, " ") == ws[0] + rest;
      SplitFromWord(ws[0], rest, []);
      assert rest[0] == ' ' && rest[1..] == Join(ws[1..], " ");
      SplitJoinRoundTrip(ws[1..]);
      assert [] + ws[0] == ws[0];
    }
  }

  /** `sep` occurs in `s` at position `q`. */
  predicate SepAt(s: string, sep: string, q: int)
  {
    0 <= q && q + |sep| <= |s| && s[q..q + |sep|] == sep
  }

  /** The last element of Python's `s.split(sep)` for a non-empty `sep`:
      the scan reads `s` from the left, `cur` being the piece read so far;
      each occurrence of `sep` ends a piece and the scan resumes after it. */
  function LastPiece(s: string, sep: string, cur: string): string
    requires |sep| > 0
    decreases |s|
  {
    if |sep| <= |s| && s[..|sep|] == sep then LastPiece(s[|sep|..], sep, "")
    else if s == [] then cur
    else LastPiece(s[1..], sep, cur + [s[0]])
  }

  /** Text without the separator is read into the current piece whole. */
  lemma {:induction false} NoSeparatorWhole(t: string, sep: string, cur: string)
    requires |sep| > 0
    requires forall q :: !SepAt(t, sep, q)
    ensures LastPiece(t, sep, cur) == cur + t
    decreases |t|
  {
    assert !SepAt(t, sep, 0);
    if |sep| <= |t| {
      assert t[0..|sep|] == t[..|sep|];
    }
    if t != [] {
      forall q | SepAt(t[1..], sep, q)
        ensures false
      {
        assert t[1..][q..q + |sep|] == t[q + 1..q + 1 + |sep|];
        assert SepAt(t, sep, q + 1);
      }
      NoSeparatorWhole(t[1..], sep, cur + [t[0]]);
      assert cur + [t[0]] + t[1..] == cur + t;
    }
  }

  /** The scan stops at an occurrence of `sep` at `p` when no earlier
      occurrence overlaps it: the last piece is then read from what follows
      that occurrence, whatever came before. */
  lemma {:induction false} ScanReaches(s: string, sep: string, cur: string, p: nat)
    requires |sep| > 0 && SepAt(s, sep, p)
    requires forall q :: p - |sep| < q < p ==> !SepAt(s, sep, q)
    ensures LastPiece(s, sep, cur) == LastPiece(s[p + |sep|..], sep, "")
    decreases p, 1
  {
    if SepAt(s, sep, 0) {
      ScanFromSeparator(s, sep, cur, p);
    } else {
      ScanFromCharacter(s, sep, cur, p);
    }
  }

  /** The step of `ScanReaches` where `s` starts with `sep`. */
  lemma {:induction false} ScanFromSeparator(s: string, sep: string, cur: string, p: nat)
    requires |sep| > 0 && SepAt(s, sep, p) && SepAt(s, sep, 0)
    requires forall q :: p - |sep| < q < p ==> !SepAt(s, sep, q)
    ensures LastPiece(s, sep, cur) == LastPiece(s[p + |sep|..], sep, "")
    decreases p, 0
  {
    assert s[0..|sep|] == s[..|sep|];
    var t := s[|sep|..];
    assert LastPiece(s, sep, cur) == LastPiece(t, sep, "");
    if p > 0 {
      Shifted(s, sep, p, |sep|);
      ScanReaches(t, sep, "", p - |sep|);
    }
  }

  /** The step of `ScanReaches` where `s` does not start with `sep`. */
  lemma {:induction false} ScanFromCharacter(s: string, sep: string, cur: string, p: nat)
    requires |sep| > 0 && SepAt(s, sep, p) && !SepAt(s, sep, 0)
    requires forall q :: p - |sep| < q < p ==> !SepAt(s, sep, q)
    ensures LastPiece(s, sep, cur) == LastPiece(s[p + |sep|..], sep, "")
    decreases p, 0
  {
    assert s[0..|sep|] == s[..|sep|];
    var t := s[1..];
    assert LastPiece(s, sep, cur) == LastPiece(t, sep, cur + [s[0]]);
    Shifted(s, sep, p, 1);
    ScanReaches(t, sep, cur + [s[0]], p - 1);
  }

  /** Dropping the first `d <= p` characters, none of them the start of an
      occurrence overlapping the one at `p`, moves that occurrence and its
      overlap-free run `d` places left. */
  lemma Shifted(s: string, sep: string, p: nat, d: nat)
    requires 0 < d <= p && SepAt(s, sep, p)
    requires forall q :: p - |sep| < q < p ==> !SepAt(s, sep, q)
    ensures SepAt(s[d..], sep, p - d)
    ensures forall q :: p - d - |sep| < q < p - d ==> !SepAt(s[d..], sep, q)
    ensures s[d..][p - d + |sep|..] == s[p + |sep|..]
  {
    var t := s[d..];
    assert t[p - d..p - d + |sep|] == s[p..p + |sep|];
    forall q | p - d - |sep| < q < p - d
      ensures !SepAt(t, sep, q)
    {
      if 0 <= q && q + |sep| <= |t| {
        assert t[q..q + |sep|] == s[q + d..q + d + |sep|];
        assert !SepAt(s, sep, q + d);
      }
    }
  }
}
