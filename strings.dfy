/**
 * The few pieces of Python's `str` behaviour the crawler relies on:
 * `isspace`, `lower`, `strip`, `split()`, `split(sep)`, `splitlines`,
 * `startswith`, `join` and decimal formatting of integers.
 */
module Strings {

  /** Python's `str.isspace` for one character (the characters `str.split()` and `str.strip()` drop). */
  predicate IsSpace(c: char) {
    || c == ' ' || c == '\t' || c == '\n' || c == '\r'
    || c == '\U{0B}' || c == '\U{0C}'
    || ('\U{1C}' <= c <= '\U{1F}')
    || c == '\U{85}' || c == '\U{A0}' || c == '\U{1680}'
    || ('\U{2000}' <= c <= '\U{200A}')
    || c == '\U{2028}' || c == '\U{2029}' || c == '\U{202F}' || c == '\U{205F}' || c == '\U{3000}'
  }

  /** The characters at which Python's `str.splitlines` breaks a line (`\r\n` counts as one break). */
  predicate IsLineBreak(c: char) {
    || c == '\n' || c == '\r' || c == '\U{0B}' || c == '\U{0C}'
    || c == '\U{1C}' || c == '\U{1D}' || c == '\U{1E}'
    || c == '\U{85}' || c == '\U{2028}' || c == '\U{2029}'
  }

  predicate IsUpper(c: char) { 'A' <= c <= 'Z' }

  /** `str.lower` on one character, for the ASCII letters. */
  function Lower(c: char): (r: char)
    ensures !IsUpper(r)
    ensures IsSpace(r) <==> IsSpace(c)
    ensures !IsUpper(c) ==> r == c
    ensures IsUpper(c) ==> 'a' <= r <= 'z' && r as int == c as int + 32
  {
    if IsUpper(c) then (c as int + 32) as char else c
  }

  /** `str.lower` on a string; `LowerStrAt` states it character by character. */
  function LowerStr(s: string): (r: string)
    ensures |r| == |s|
  {
    if s == [] then [] else [Lower(s[0])] + LowerStr(s[1..])
  }

  /** Lower-casing maps each character on its own: no upper-case letter is left and nothing else changes. */
  lemma {:induction false} LowerStrAt(s: string)
    ensures forall i :: 0 <= i < |s| ==> LowerStr(s)[i] == Lower(s[i])
  {
    if s != [] {
      LowerStrAt(s[1..]);
      assert LowerStr(s) == [Lower(s[0])] + LowerStr(s[1..]);
    }
  }

  predicate HasNoUpper(s: string) {
    forall i :: 0 <= i < |s| ==> !IsUpper(s[i])
  }

  predicate StartsWith(s: string, prefix: string) {
    |prefix| <= |s| && s[..|prefix|] == prefix
  }

  /** `s` without its leading whitespace. */
  function TrimLeft(s: string): (r: string)
    ensures |r| <= |s| && r == s[|s| - |r|..]
    ensures r == [] || !IsSpace(r[0])
    ensures forall i :: 0 <= i < |s| - |r| ==> IsSpace(s[i])
  {
    if s != [] && IsSpace(s[0]) then TrimLeft(s[1..]) else s
  }

  /** `s` without its trailing whitespace. */
  function TrimRight(s: string): (r: string)
    ensures |r| <= |s| && r == s[..|r|]
    ensures r == [] || !IsSpace(r[|r| - 1])
    ensures forall i :: |r| <= i < |s| ==> IsSpace(s[i])
  {
    if s != [] && IsSpace(s[|s| - 1]) then TrimRight(s[..|s| - 1]) else s
  }

  /** A string with no leading and no trailing whitespace. */
  predicate Stripped(s: string) {
    s == [] || (!IsSpace(s[0]) && !IsSpace(s[|s| - 1]))
  }

  /** The number of whitespace characters `s` starts with. */
  function LeadingSpaces(s: string): (n: nat)
    ensures n <= |s|
    ensures forall k :: 0 <= k < n ==> IsSpace(s[k])
    ensures n < |s| ==> !IsSpace(s[n])
  {
    if s != [] && IsSpace(s[0]) then 1 + LeadingSpaces(s[1..]) else 0
  }

  /** Python's `str.strip()`: a stripped substring of `s`; `StripIsSlice` says which one. */
  function Strip(s: string): (r: string)
    ensures Stripped(r)
    ensures (exists i :: 0 <= i < |s| && !IsSpace(s[i])) ==> r != []
  {
    var l := TrimLeft(s);
    var r := TrimRight(l);
    assert r == [] ==> forall i :: 0 <= i < |s| ==> IsSpace(s[i]) by {
      if r == [] {
        assert l == [];
      }
    }
    r
  }

  lemma {:induction false} LeadingSpacesTrim(s: string)
    ensures TrimLeft(s) == s[LeadingSpaces(s)..]
  {
    if s != [] && IsSpace(s[0]) {
      LeadingSpacesTrim(s[1..]);
    }
  }

  /**
   * `strip()` is one contiguous slice of `s`, starting right after the leading whitespace;
   * with `StripDropsOnlySpace` and `Stripped` this pins the result down.
   */
  lemma StripIsSlice(s: string)
    ensures LeadingSpaces(s) + |Strip(s)| <= |s|
    ensures Strip(s) == s[LeadingSpaces(s)..LeadingSpaces(s) + |Strip(s)|]
  {
    LeadingSpacesTrim(s);
    PrefixOfDrop(s, LeadingSpaces(s), TrimLeft(s));
  }

  /** Everything `strip()` drops is whitespace: before the slice and after it. */
  lemma StripDropsOnlySpace(s: string)
    ensures forall k :: 0 <= k < LeadingSpaces(s) ==> IsSpace(s[k])
    ensures forall k :: LeadingSpaces(s) + |Strip(s)| <= k < |s| ==> IsSpace(s[k])
  {
    LeadingSpacesTrim(s);
    SpacesAfter(s, LeadingSpaces(s), TrimLeft(s), |Strip(s)|);
  }

  /** `strip()` keeps only characters of its input. */
  lemma StripChars(s: string, c: char)
    requires c !in s
    ensures c !in Strip(s)
  {
    var l := TrimLeft(s);
    assert c !in l;
  }

  lemma PrefixOfDrop(s: string, n: nat, l: string)
    requires n <= |s| && l == s[n..]
    ensures n + |TrimRight(l)| <= |s| && TrimRight(l) == s[n..n + |TrimRight(l)|]
  {
  }

  lemma SpacesAfter(s: string, n: nat, l: string, m: nat)
    requires n <= |s| && l == s[n..] && m <= |l|
    requires forall i :: m <= i < |l| ==> IsSpace(l[i])
    ensures forall k :: n + m <= k < |s| ==> IsSpace(s[k])
  {
    forall k | n + m <= k < |s| ensures IsSpace(s[k]) {
      assert s[k] == l[k - n];
    }
  }

  /** The longest prefix of `s` without whitespace. */
  function WordPrefix(s: string): (w: string)
    ensures |w| <= |s| && w == s[..|w|]
    ensures forall i :: 0 <= i < |w| ==> !IsSpace(w[i])
    ensures |w| < |s| ==> IsSpace(s[|w|])
    ensures s != [] && !IsSpace(s[0]) ==> |w| > 0
  {
    if s == [] || IsSpace(s[0]) then [] else [s[0]] + WordPrefix(s[1..])
  }

  /** A non-empty string with no whitespace in it. */
  predicate IsWord(w: string) {
    w != [] && forall i :: 0 <= i < |w| ==> !IsSpace(w[i])
  }

  /** Python's `str.split()` with no separator: the maximal runs of non-whitespace, in order. */
  function Words(s: string): (ws: seq<string>)
    ensures forall w :: w in ws ==> IsWord(w)
    decreases |s|
  {
    var t := TrimLeft(s);
    if t == [] then [] else
      var w := WordPrefix(t);
      [w] + Words(t[|w|..])
  }

  /** Python's `sep.join(ws)` for a one-character separator. */
  function JoinWith(ws: seq<string>, sep: char): string {
    if ws == [] then []
    else if |ws| == 1 then ws[0]
    else ws[0] + [sep] + JoinWith(ws[1..], sep)
  }

  /** Python's `s.split(sep)` for a one-character separator. */
  function SplitOnChar(s: string, sep: char): (parts: seq<string>)
    ensures parts != []
    decreases |s|
  {
    if sep !in s then [s]
    else
      var i := IndexOf(s, sep);
      [s[..i]] + SplitOnChar(s[i + 1..], sep)
  }

  function IndexOf(s: string, c: char): (i: nat)
    requires c in s
    ensures i < |s| && s[i] == c && c !in s[..i]
  {
    if s[0] == c then 0 else 1 + IndexOf(s[1..], c)
  }

  /** Python's `sep.join(ws)` for a separator string. */
  function JoinOn(ws: seq<string>, sep: string): string {
    if ws == [] then []
    else if |ws| == 1 then ws[0]
    else ws[0] + sep + JoinOn(ws[1..], sep)
  }

  /** No two adjacent spaces anywhere in `s`. */
  predicate NoDoubleSpace(s: string) {
    forall i :: 0 <= i < |s| - 1 ==> !(s[i] == ' ' && s[i + 1] == ' ')
  }

  /** `s` is empty or does not end with a space. */
  predicate NoTrailingSpace(s: string) {
    s == [] || s[|s| - 1] != ' '
  }

  /** Python's `s.split("  ")`: pieces between non-overlapping double spaces, scanned left to right. */
  function SplitOnDoubleSpace(s: string): (parts: seq<string>)
    ensures parts != []
    ensures forall k, c :: 0 <= k < |parts| && c in parts[k] ==> c in s
  {
    SplitDoubleAcc(s, [])
  }

  function SplitDoubleAcc(s: string, cur: string): (parts: seq<string>)
    ensures parts != []
    ensures forall k, c :: 0 <= k < |parts| && c in parts[k] ==> c in s || c in cur
    decreases |s|
  {
    if s == [] then [cur]
    else if |s| >= 2 && s[0] == ' ' && s[1] == ' ' then
      var rest := SplitDoubleAcc(s[2..], []);
      assert forall k, c :: 0 <= k < |rest| && c in rest[k] ==> c in s by {
        forall k, c | 0 <= k < |rest| && c in rest[k] ensures c in s {
          assert c in s[2..];
        }
      }
      [cur] + rest
    else
      var rest := SplitDoubleAcc(s[1..], cur + [s[0]]);
      assert forall k, c :: 0 <= k < |rest| && c in rest[k] ==> c in s || c in cur by {
        forall k, c | 0 <= k < |rest| && c in rest[k] ensures c in s || c in cur {
          assert c in s[1..] || c in cur + [s[0]];
          if c in s[1..] { assert c in s; }
        }
      }
      rest
  }

  /** `parts` is the result of `split("  ")` on `text`, as `SplitOnDoubleSpaceJoin` describes it. */
  predicate DoubleSpaceSplit(parts: seq<string>, text: string) {
    && parts != []
    && JoinOn(parts, "  ") == text
    && (forall k :: 0 <= k < |parts| ==> NoDoubleSpace(parts[k]))
    && (forall k :: 0 <= k < |parts| - 1 ==> NoTrailingSpace(parts[k]))
  }

  /**
   * Joining the pieces of `s.split("  ")` with `"  "` gives back `s`; no piece holds a double
   * space, and no piece before a separator ends with a space (the separator would have
   * started there), so the separators are the leftmost non-overlapping double spaces.
   */
  lemma SplitOnDoubleSpaceJoin(s: string)
    ensures var parts := SplitOnDoubleSpace(s);
            && JoinOn(parts, "  ") == s
            && (forall k :: 0 <= k < |parts| ==> NoDoubleSpace(parts[k]))
            && (forall k :: 0 <= k < |parts| - 1 ==> NoTrailingSpace(parts[k]))
  {
    SplitDoubleAccSplit(s, []);
    assert [] + s == s;
  }

  /** The scan with the piece `cur` read so far splits `cur + s`. */
  lemma {:induction false} SplitDoubleAccSplit(s: string, cur: string)
    requires NoDoubleSpace(cur)
    requires !(cur != [] && cur[|cur| - 1] == ' ' && s != [] && s[0] == ' ')
    ensures DoubleSpaceSplit(SplitDoubleAcc(s, cur), cur + s)
    decreases |s|
  {
    if s == [] {
      assert cur + s == cur;
    } else if |s| >= 2 && s[0] == ' ' && s[1] == ' ' {
      SplitDoubleAccSplit(s[2..], []);
      assert [] + s[2..] == s[2..];
      SeparatorStep(cur, s, SplitDoubleAcc(s[2..], []));
    } else {
      CharStep(cur, s);
      SplitDoubleAccSplit(s[1..], cur + [s[0]]);
    }
  }

  /** A double space at the front of `s` ends the piece `cur`. */
  lemma SeparatorStep(cur: string, s: string, rest: seq<string>)
    requires NoDoubleSpace(cur) && NoTrailingSpace(cur)
    requires |s| >= 2 && s[0] == ' ' && s[1] == ' '
    requires DoubleSpaceSplit(rest, s[2..])
    ensures DoubleSpaceSplit([cur] + rest, cur + s)
  {
    assert s == "  " + s[2..];
    JoinOnCons(cur, rest, "  ");
    PiecesCons(cur, rest);
  }

  /** A piece with no double space and no trailing space, then pieces that have none. */
  lemma PiecesCons(cur: string, rest: seq<string>)
    requires NoDoubleSpace(cur) && NoTrailingSpace(cur) && rest != []
    requires forall k :: 0 <= k < |rest| ==> NoDoubleSpace(rest[k])
    requires forall k :: 0 <= k < |rest| - 1 ==> NoTrailingSpace(rest[k])
    ensures forall k :: 0 <= k < |[cur] + rest| ==> NoDoubleSpace(([cur] + rest)[k])
    ensures forall k :: 0 <= k < |[cur] + rest| - 1 ==> NoTrailingSpace(([cur] + rest)[k])
  {
    var parts := [cur] + rest;
    forall k | 1 <= k < |parts| ensures parts[k] == rest[k - 1] { }
  }

  /** Any other character at the front of `s` joins the piece `cur`. */
  lemma CharStep(cur: string, s: string)
    requires NoDoubleSpace(cur)
    requires !(cur != [] && cur[|cur| - 1] == ' ' && s != [] && s[0] == ' ')
    requires s != [] && !(|s| >= 2 && s[0] == ' ' && s[1] == ' ')
    ensures NoDoubleSpace(cur + [s[0]])
    ensures !(s[1..] != [] && s[0] == ' ' && s[1..][0] == ' ')
    ensures (cur + [s[0]]) + s[1..] == cur + s
  {
    var cur' := cur + [s[0]];
    forall i | 0 <= i < |cur'| - 1 ensures !(cur'[i] == ' ' && cur'[i + 1] == ' ') {
      if i < |cur| - 1 {
        assert cur'[i] == cur[i] && cur'[i + 1] == cur[i + 1];
      }
    }
  }

  lemma JoinOnCons(w: string, ws: seq<string>, sep: string)
    requires ws != []
    ensures JoinOn([w] + ws, sep) == w + sep + JoinOn(ws, sep)
  {
    assert ([w] + ws)[1..] == ws;
  }

  /** The characters at which a line ends, each `\r\n` pair counting as one, written as `\n`. */
  function NormalizeBreaks(s: string): (r: string)
    ensures forall c :: c in r ==> c == '\n' || !IsLineBreak(c)
  {
    if s == [] then []
    else if s[0] == '\r' && |s| > 1 && s[1] == '\n' then "\n" + NormalizeBreaks(s[2..])
    else if IsLineBreak(s[0]) then "\n" + NormalizeBreaks(s[1..])
    else [s[0]] + NormalizeBreaks(s[1..])
  }

  /** `s` ends with a line break. */
  predicate EndsWithBreak(s: string) {
    s != [] && IsLineBreak(s[|s| - 1])
  }

  /** Python's `str.splitlines()`: no line holds a line-break character (see `SplitLinesJoin`). */
  function SplitLines(s: string): (lines: seq<string>)
    ensures forall k, c :: 0 <= k < |lines| && c in lines[k] ==> !IsLineBreak(c)
  {
    SplitLinesAcc(s, [])
  }

  function SplitLinesAcc(s: string, cur: string): (lines: seq<string>)
    requires forall c :: c in cur ==> !IsLineBreak(c)
    ensures forall k, c :: 0 <= k < |lines| && c in lines[k] ==> !IsLineBreak(c)
    decreases |s|
  {
    if s == [] then (if cur == [] then [] else [cur])
    else if s[0] == '\r' && |s| > 1 && s[1] == '\n' then [cur] + SplitLinesAcc(s[2..], [])
    else if IsLineBreak(s[0]) then [cur] + SplitLinesAcc(s[1..], [])
    else SplitLinesAcc(s[1..], cur + [s[0]])
  }

  /**
   * Joining the lines of `s.splitlines()` with `\n` gives back `s` with every break written as
   * `\n` and a final break dropped, and there are no lines exactly when `s` is empty.
   */
  lemma SplitLinesJoin(s: string)
    ensures JoinWith(SplitLines(s), '\n') + (if EndsWithBreak(s) then "\n" else "") == NormalizeBreaks(s)
    ensures SplitLines(s) == [] <==> s == []
  {
    SplitLinesAccJoin(s, []);
  }

  /** The scan with the line `cur` read so far. */
  lemma {:induction false} SplitLinesAccJoin(s: string, cur: string)
    requires forall c :: c in cur ==> !IsLineBreak(c)
    ensures var lines := SplitLinesAcc(s, cur);
            && JoinWith(lines, '\n') + (if EndsWithBreak(s) then "\n" else "") == cur + NormalizeBreaks(s)
            && (lines == [] <==> s == [] && cur == [])
    decreases |s|
  {
    if s == [] {
    } else if s[0] == '\r' && |s| > 1 && s[1] == '\n' {
      SplitLinesAccJoin(s[2..], []);
      LinesCons(cur, SplitLinesAcc(s[2..], []), s, s[2..]);
    } else if IsLineBreak(s[0]) {
      SplitLinesAccJoin(s[1..], []);
      LinesCons(cur, SplitLinesAcc(s[1..], []), s, s[1..]);
    } else {
      SplitLinesAccJoin(s[1..], cur + [s[0]]);
      assert s[1..] == [] ==> !EndsWithBreak(s);
      assert s[1..] != [] ==> s[|s| - 1] == s[1..][|s[1..]| - 1];
    }
  }

  /** A line ended by the break at the front of `s`, followed by the lines of `tail`. */
  lemma LinesCons(cur: string, rest: seq<string>, s: string, tail: string)
    requires s != [] && IsLineBreak(s[0]) && |tail| < |s| && tail == s[|s| - |tail|..]
    requires |s| - |tail| == 1 || (|s| - |tail| == 2 && s[1] == '\n')
    requires NormalizeBreaks(s) == "\n" + NormalizeBreaks(tail)
    requires rest == [] <==> tail == []
    requires JoinWith(rest, '\n') + (if EndsWithBreak(tail) then "\n" else "") == NormalizeBreaks(tail)
    ensures JoinWith([cur] + rest, '\n') + (if EndsWithBreak(s) then "\n" else "") == cur + NormalizeBreaks(s)
  {
    if rest == [] {
      assert EndsWithBreak(s) by {
        if |s| == 2 { assert s[1] == '\n'; }
      }
    } else {
      assert ([cur] + rest)[1..] == rest;
      assert s[|s| - 1] == tail[|tail| - 1];
    }
  }

  function DigitChar(d: nat): char
    requires d < 10
  {
    ('0' as int + d) as char
  }

  function DigitValue(c: char): nat {
    if '0' <= c <= '9' then c as int - '0' as int else 0
  }

  /** Python's `str(n)` for a non-negative integer. */
  function NatToDecimal(n: nat): (s: string)
    ensures s != []
    ensures forall i :: 0 <= i < |s| ==> '0' <= s[i] <= '9'
  {
    if n < 10 then [DigitChar(n)] else NatToDecimal(n / 10) + [DigitChar(n % 10)]
  }

  /** The integer a string of decimal digits denotes. */
  function DecimalValue(s: string): nat {
    if s == [] then 0 else 10 * DecimalValue(s[..|s| - 1]) + DigitValue(s[|s| - 1])
  }

  /** Python's `f"{n:02d}"` for a non-negative integer. */
  function Pad2(n: nat): (s: string) {
    if n < 10 then "0" + NatToDecimal(n) else NatToDecimal(n)
  }

  // ---------------------------------------------------------------------------
  // Lemmas

  /** Reading back the decimal form of a number gives the number. */
  lemma {:induction false} DecimalRoundTrip(n: nat)
    ensures DecimalValue(NatToDecimal(n)) == n
  {
    var s := NatToDecimal(n);
    if n >= 10 {
      DecimalRoundTrip(n / 10);
      assert s[..|s| - 1] == NatToDecimal(n / 10);
    }
  }

  /** `f"{n:02d}"` is exactly two digits for n below 100, and reads back as n. */
  lemma {:induction false} Pad2RoundTrip(n: nat)
    requires n < 100
    ensures |Pad2(n)| == 2
    ensures forall i :: 0 <= i < 2 ==> '0' <= Pad2(n)[i] <= '9'
    ensures DecimalValue(Pad2(n)) == n
  {
    var d := NatToDecimal(n);
    if n < 10 {
      assert Pad2(n) == ['0', DigitChar(n)];
      assert Pad2(n)[..1] == ['0'];
      assert DecimalValue(['0']) == 0 by { assert ['0'][..0] == []; }
    } else {
      assert NatToDecimal(n / 10) == [DigitChar(n / 10)];
      assert d == [DigitChar(n / 10), DigitChar(n % 10)];
      DecimalRoundTrip(n);
    }
  }

  /** Splitting a join on its separator gives back the pieces when no piece holds the separator. */
  lemma {:induction false} SplitJoinRoundTrip(ws: seq<string>, sep: char)
    requires ws != []
    requires forall k :: 0 <= k < |ws| ==> sep !in ws[k]
    ensures SplitOnChar(JoinWith(ws, sep), sep) == ws
  {
    if |ws| > 1 {
      var s := JoinWith(ws, sep);
      var rest := JoinWith(ws[1..], sep);
      assert s == ws[0] + [sep] + rest;
      assert sep in s by { assert s[|ws[0]|] == sep; }
      var i := IndexOf(s, sep);
      assert s[..|ws[0]|] == ws[0];
      assert i == |ws[0]|;
      assert s[..i] == ws[0];
      assert s[i + 1..] == rest;
      SplitJoinRoundTrip(ws[1..], sep);
    }
  }

  lemma TrimLeftOfNonSpace(s: string)
    requires s != [] && !IsSpace(s[0])
    ensures TrimLeft(s) == s
  {
  }

  lemma {:induction false} TrimLeftSkipsSpace(c: char, s: string)
    requires IsSpace(c)
    ensures TrimLeft([c] + s) == TrimLeft(s)
  {
    assert ([c] + s)[1..] == s;
  }

  lemma {:induction false} WordPrefixOfJoin(w: string, sep: char, rest: string)
    requires IsWord(w) && IsSpace(sep)
    ensures WordPrefix(w + [sep] + rest) == w
    decreases |w|
  {
    var s := w + [sep] + rest;
    if |w| == 1 {
      assert s[1..] == [sep] + rest;
    } else {
      assert s[1..] == w[1..] + [sep] + rest;
      WordPrefixOfJoin(w[1..], sep, rest);
    }
  }

  lemma {:induction false} WordPrefixOfWord(w: string)
    requires IsWord(w)
    ensures WordPrefix(w) == w
    decreases |w|
  {
    if |w| > 1 {
      WordPrefixOfWord(w[1..]);
    }
  }

  /** Splitting a space-joined list of words gives back the words. */
  lemma {:induction false} WordsOfJoin(ws: seq<string>)
    requires forall k :: 0 <= k < |ws| ==> IsWord(ws[k])
    ensures Words(JoinWith(ws, ' ')) == ws
  {
    if |ws| == 1 {
      WordsOfWord(ws[0]);
    } else if |ws| > 1 {
      var rest := JoinWith(ws[1..], ' ');
      assert JoinWith(ws, ' ') == ws[0] + [' '] + rest;
      WordsOfJoin(ws[1..]);
      JoinStartsWithWord(ws[1..]);
      WordsOfCons(ws[0], rest);
      assert ws == [ws[0]] + ws[1..];
    }
  }

  /** A single word splits into itself. */
  lemma WordsOfWord(w: string)
    requires IsWord(w)
    ensures Words(w) == [w]
  {
    TrimLeftOfNonSpace(w);
    WordPrefixOfWord(w);
    assert w[|w|..] == [];
  }

  /** A space-joined list of words starts with a non-space character. */
  lemma JoinStartsWithWord(ws: seq<string>)
    requires ws != [] && forall k :: 0 <= k < |ws| ==> IsWord(ws[k])
    ensures JoinWith(ws, ' ') != [] && !IsSpace(JoinWith(ws, ' ')[0])
  {
    assert IsWord(ws[0]);
    if |ws| > 1 {
      assert JoinWith(ws, ' ')[0] == ws[0][0];
    }
  }

  /** A word, a space, then text starting with a non-space: the word is the first of the words. */
  lemma WordsOfCons(w: string, rest: string)
    requires IsWord(w) && rest != [] && !IsSpace(rest[0])
    ensures Words(w + [' '] + rest) == [w] + Words(rest)
  {
    var s := w + [' '] + rest;
    assert s[|w|..] == [' '] + rest;
    assert Words(s) == [w] + Words(s[|w|..]) by {
      assert s[0] == w[0];
      TrimLeftOfNonSpace(s);
      WordPrefixOfJoin(w, ' ', rest);
    }
    WordsAfterSpace(rest);
  }

  lemma WordsAfterSpace(rest: string)
    requires rest != [] && !IsSpace(rest[0])
    ensures Words([' '] + rest) == Words(rest)
  {
    TrimLeftSkipsSpace(' ', rest);
    TrimLeftOfNonSpace(rest);
  }

  /** A run of whitespace, possibly empty. */
  predicate IsGap(g: string) {
    forall i :: 0 <= i < |g| ==> IsSpace(g[i])
  }

  /** `gaps[0] + ws[0] + gaps[1] + ... + ws[n - 1] + gaps[n]`: words laid out between runs of whitespace. */
  function Interleave(gaps: seq<string>, ws: seq<string>): string
    requires |gaps| == |ws| + 1
  {
    if ws == [] then gaps[0] else gaps[0] + ws[0] + Interleave(gaps[1..], ws[1..])
  }

  /**
   * `split()` recovers the words of any text made of words and whitespace: the gaps between
   * words may be any non-empty whitespace, and the text may start and end with whitespace.
   */
  lemma {:induction false} WordsOfInterleave(gaps: seq<string>, ws: seq<string>)
    requires |gaps| == |ws| + 1
    requires forall k :: 0 <= k < |ws| ==> IsWord(ws[k])
    requires forall k :: 0 <= k < |gaps| ==> IsGap(gaps[k])
    requires forall k :: 0 < k < |ws| ==> gaps[k] != []
    ensures Words(Interleave(gaps, ws)) == ws
  {
    if ws == [] {
      WordsAfterGap(gaps[0], []);
      assert gaps[0] + [] == gaps[0];
    } else {
      var tail := Interleave(gaps[1..], ws[1..]);
      assert forall k :: 0 < k < |ws[1..]| ==> gaps[1..][k] == gaps[k + 1];
      WordsOfInterleave(gaps[1..], ws[1..]);
      InterleaveStartsWithGap(gaps[1..], ws[1..]);
      WordsOfWordThen(ws[0], tail);
      WordsAfterGap(gaps[0], ws[0] + tail);
      AppendAssoc(gaps[0], ws[0], tail);
      HeadTail(ws);
    }
  }

  lemma InterleaveStartsWithGap(gaps: seq<string>, ws: seq<string>)
    requires |gaps| == |ws| + 1 && IsGap(gaps[0])
    requires ws != [] ==> gaps[0] != []
    ensures var t := Interleave(gaps, ws); t == [] || IsSpace(t[0])
  {
    if gaps[0] != [] && ws != [] {
      assert Interleave(gaps, ws)[0] == gaps[0][0];
    }
  }

  /** Leading whitespace does not change the words. */
  lemma WordsAfterGap(g: string, t: string)
    requires IsGap(g)
    ensures Words(g + t) == Words(t)
  {
    TrimLeftAfterGap(g, t);
    WordsOfSameTrim(g + t, t);
  }

  lemma {:induction false} TrimLeftAfterGap(g: string, t: string)
    requires IsGap(g)
    ensures TrimLeft(g + t) == TrimLeft(t)
    decreases |g|
  {
    if g != [] {
      TrimLeftAfterGap(g[1..], t);
      SplitFirst(g, t);
      TrimLeftSkipsSpace(g[0], g[1..] + t);
    } else {
      assert g + t == t;
    }
  }

  lemma SplitFirst(g: string, t: string)
    requires g != []
    ensures g + t == [g[0]] + (g[1..] + t)
  {
  }

  lemma HeadTail(ws: seq<string>)
    requires ws != []
    ensures ws == [ws[0]] + ws[1..]
  {
  }

  lemma AppendAssoc(a: string, b: string, c: string)
    ensures a + b + c == a + (b + c)
  {
  }

  lemma WordThenTail(w: string, tail: string)
    requires tail != []
    ensures w + tail == w + [tail[0]] + tail[1..]
    ensures (w + tail)[|w|..] == tail
  {
  }

  lemma WordsOfSameTrim(a: string, b: string)
    requires TrimLeft(a) == TrimLeft(b)
    ensures Words(a) == Words(b)
  {
  }

  /** A word followed by nothing or by whitespace is the first word. */
  lemma WordsOfWordThen(w: string, tail: string)
    requires IsWord(w) && (tail == [] || IsSpace(tail[0]))
    ensures Words(w + tail) == [w] + Words(tail)
  {
    var s := w + tail;
    assert s[0] == w[0];
    TrimLeftOfNonSpace(s);
    if tail == [] {
      assert s == w;
      WordPrefixOfWord(w);
    } else {
      WordThenTail(w, tail);
      WordPrefixOfJoin(w, tail[0], tail[1..]);
    }
    assert s[|w|..] == tail;
  }

  /** Every character of a word of `s` is a character of `s`. */
  lemma {:induction false} WordsChars(s: string)
    ensures forall k, c :: 0 <= k < |Words(s)| && c in Words(s)[k] ==> c in s
    decreases |s|
  {
    var t := TrimLeft(s);
    if t != [] {
      var w := WordPrefix(t);
      WordsChars(t[|w|..]);
      forall k, c | 0 <= k < |Words(s)| && c in Words(s)[k] ensures c in s {
        if k == 0 {
          assert c in t;
        } else {
          assert Words(s)[k] == Words(t[|w|..])[k - 1];
          assert c in t[|w|..];
          assert c in t;
        }
        assert c in s;
      }
    }
  }

  /** The characters of a join are the separator and the characters of the pieces. */
  lemma {:induction false} JoinChars(ws: seq<string>, sep: char, c: char)
    requires c in JoinWith(ws, sep)
    ensures c == sep || exists k :: 0 <= k < |ws| && c in ws[k]
  {
    if |ws| > 1 {
      var rest := JoinWith(ws[1..], sep);
      assert JoinWith(ws, sep) == ws[0] + [sep] + rest;
      if c in ws[0] {
      } else if c == sep {
      } else {
        assert c in rest;
        JoinChars(ws[1..], sep, c);
        var k :| 0 <= k < |ws[1..]| && c in ws[1..][k];
        assert c in ws[k + 1];
      }
    } else if |ws| == 1 {
      assert c in ws[0];
    }
  }

  /** Lower-casing a string that has no upper-case letter leaves it unchanged. */
  lemma {:induction false} LowerStrOfLower(s: string)
    requires HasNoUpper(s)
    ensures LowerStr(s) == s
  {
    if s != [] {
      LowerStrOfLower(s[1..]);
    }
  }
}
