/**
 * The string primitives the tool relies on, with the exact semantics of the
 * two host languages: Python's str.strip(), str.split(), str.split(sep),
 * str.splitlines() and `in` (used by app.py), and JavaScript's
 * String.prototype.trim() (used by main.js).
 */
module Text {

  /** The characters Python's str.isspace() accepts: what strip() and split() remove. */
  predicate IsPySpace(c: char) {
    var n := c as int;
    n == 0x20 || 0x09 <= n <= 0x0D || 0x1C <= n <= 0x1F || n == 0x85 || n == 0xA0 ||
    n == 0x1680 || 0x2000 <= n <= 0x200A || n == 0x2028 || n == 0x2029 ||
    n == 0x202F || n == 0x205F || n == 0x3000
  }

  /** The characters JavaScript's trim() removes: WhiteSpace and LineTerminator. */
  predicate IsJsSpace(c: char) {
    var n := c as int;
    n == 0x20 || 0x09 <= n <= 0x0D || n == 0xA0 || n == 0xFEFF ||
    n == 0x1680 || 0x2000 <= n <= 0x200A || n == 0x2028 || n == 0x2029 ||
    n == 0x202F || n == 0x205F || n == 0x3000
  }

  /** The line boundaries of Python's str.splitlines(); "\r\n" is one boundary. */
  predicate IsLineBreak(c: char) {
    var n := c as int;
    0x0A <= n <= 0x0D || 0x1C <= n <= 0x1E || n == 0x85 || n == 0x2028 || n == 0x2029
  }

  predicate NoneOf(s: string, p: char -> bool) {
    forall k :: 0 <= k < |s| ==> !p(s[k])
  }

  // ---------------------------------------------------------------------------
  // Trimming
  // ---------------------------------------------------------------------------

  /** Drops the longest prefix made of characters in `drop`. */
  function TrimStart(s: string, drop: char -> bool): (r: string)
    ensures |r| <= |s| && r == s[|s| - |r|..]
    ensures forall k :: 0 <= k < |s| - |r| ==> drop(s[k])
    ensures r == [] || !drop(r[0])
    decreases |s|
  {
    if s != [] && drop(s[0]) then TrimStart(s[1..], drop) else s
  }

  /** Drops the longest suffix made of characters in `drop`. */
  function TrimEnd(s: string, drop: char -> bool): (r: string)
    ensures |r| <= |s| && r == s[..|r|]
    ensures forall k :: |r| <= k < |s| ==> drop(s[k])
    ensures r == [] || !drop(r[|r| - 1])
    decreases |s|
  {
    if s != [] && drop(s[|s| - 1]) then TrimEnd(s[..|s| - 1], drop) else s
  }

  function Trim(s: string, drop: char -> bool): string {
    TrimEnd(TrimStart(s, drop), drop)
  }

  /** Python's str.strip() with no argument. */
  function Strip(s: string): string {
    Trim(s, IsPySpace)
  }

  /** JavaScript's String.prototype.trim(). */
  function JsTrim(s: string): string {
    Trim(s, IsJsSpace)
  }

  /** Trimming twice is trimming once: a trimmed string has nothing left to remove. */
  lemma TrimIdempotent(s: string, drop: char -> bool)
    ensures Trim(Trim(s, drop), drop) == Trim(s, drop)
  {
    var r := Trim(s, drop);
    assert TrimStart(r, drop) == r;
    assert TrimEnd(r, drop) == r;
  }

  /** A string trims to nothing exactly when every character of it is in the set. */
  lemma {:induction false} TrimEmptyIff(s: string, drop: char -> bool)
    ensures Trim(s, drop) == [] <==> forall k :: 0 <= k < |s| ==> drop(s[k])
  {
    var t := TrimStart(s, drop);
    if Trim(s, drop) == [] {
      forall k | 0 <= k < |s| ensures drop(s[k]) {
        if k >= |s| - |t| {
          assert s[k] == t[k - (|s| - |t|)];
        }
      }
    }
  }

  // ---------------------------------------------------------------------------
  // Splitting on one separator character: Python's str.split(sep)
  // ---------------------------------------------------------------------------

  /** Index of the first `c` in `s`, or |s| when there is none. */
  function IndexOf(s: string, c: char): (k: nat)
    ensures k <= |s|
    ensures c !in s[..k]
    ensures k < |s| ==> s[k] == c
    decreases |s|
  {
    if s == [] then 0
    else if s[0] == c then 0
    else 1 + IndexOf(s[1..], c)
  }

  /** Joins the parts with `sep` between consecutive ones: Python's sep.join(parts). */
  function JoinWith(parts: seq<string>, sep: char): string
    decreases |parts|
  {
    if parts == [] then ""
    else if |parts| == 1 then parts[0]
    else parts[0] + [sep] + JoinWith(parts[1..], sep)
  }

  lemma JoinPair(a: string, b: string, sep: char)
    ensures JoinWith([a, b], sep) == a + [sep] + b
  {
    assert [a, b][1..] == [b];
  }

  /**
   * Python's s.split(sep) for a one-character separator: never empty, and
   * every occurrence of `sep` separates two (possibly empty) fields.
   */
  function SplitOn(s: string, sep: char): (r: seq<string>)
    ensures |r| >= 1
    ensures forall i :: 0 <= i < |r| ==> sep !in r[i]
    ensures JoinWith(r, sep) == s
    decreases |s|
  {
    var k := IndexOf(s, sep);
    if k == |s| then
      assert s[..k] == s;
      [s]
    else
      var rest := SplitOn(s[k + 1..], sep);
      assert s == s[..k] + [sep] + s[k + 1..];
      [s[..k]] + rest
  }

  /** Splitting a join gives back the parts, provided no part holds the separator. */
  lemma {:induction false} SplitOnJoin(parts: seq<string>, sep: char)
    requires parts != []
    requires forall i :: 0 <= i < |parts| ==> sep !in parts[i]
    ensures SplitOn(JoinWith(parts, sep), sep) == parts
    decreases |parts|
  {
    var p := parts[0];
    if |parts| == 1 {
      IndexOfAbsent(p, sep);
    } else {
      var tail := JoinWith(parts[1..], sep);
      assert JoinWith(parts, sep) == p + [sep] + tail;
      SplitOnCons(p, sep, tail);
      SplitOnJoin(parts[1..], sep);
      assert parts == [p] + parts[1..];
    }
  }

  /** A separator-free first field is split off whatever follows it. */
  lemma SplitOnCons(p: string, sep: char, tail: string)
    requires sep !in p
    ensures SplitOn(p + [sep] + tail, sep) == [p] + SplitOn(tail, sep)
  {
    var s := p + [sep] + tail;
    IndexOfAt(p, sep, tail);
    assert s[..|p|] == p;
    assert s[|p| + 1..] == tail;
  }

  lemma IndexOfAbsent(s: string, c: char)
    requires c !in s
    ensures IndexOf(s, c) == |s|
  {
  }

  lemma IndexOfAt(p: string, c: char, rest: string)
    requires c !in p
    ensures IndexOf(p + [c] + rest, c) == |p|
  {
    var s := p + [c] + rest;
    assert s[|p|] == c;
    assert s[..|p|] == p;
  }

  // ---------------------------------------------------------------------------
  // Splitting on whitespace runs: Python's str.split() with no argument
  // ---------------------------------------------------------------------------

  /** Every word is non-empty and free of whitespace. */
  predicate AreWords(ws: seq<string>) {
    forall i :: 0 <= i < |ws| ==> ws[i] != [] && NoneOf(ws[i], IsPySpace)
  }

  /** The words still to come when `cur` is the word being read and `s` is the rest of the input. */
  function WordsFrom(cur: string, s: string): (r: seq<string>)
    requires NoneOf(cur, IsPySpace)
    ensures AreWords(r)
    decreases |s|
  {
    if s == [] then
      (if cur == [] then [] else [cur])
    else if IsPySpace(s[0]) then
      (if cur == [] then [] else [cur]) + WordsFrom([], s[1..])
    else
      WordsFrom(cur + [s[0]], s[1..])
  }

  /** Python's s.split(): the maximal runs of non-whitespace characters, in order. */
  function Words(s: string): seq<string> {
    WordsFrom([], s)
  }

  /** Joins words with single spaces: Python's " ".join(ws). */
  function Unwords(ws: seq<string>): string {
    JoinWith(ws, ' ')
  }

  lemma {:induction false} WordsFromBreak(cur: string, a: string, c: char, b: string)
    requires NoneOf(cur, IsPySpace) && IsPySpace(c)
    ensures WordsFrom(cur, a + [c] + b) == WordsFrom(cur, a) + Words(b)
    decreases |a|
  {
    var s := a + [c] + b;
    if a == [] {
      assert s[0] == c && s[1..] == b;
    } else {
      assert s[0] == a[0] && s[1..] == a[1..] + [c] + b;
      if IsPySpace(a[0]) {
        WordsFromBreak([], a[1..], c, b);
      } else {
        WordsFromBreak(cur + [a[0]], a[1..], c, b);
      }
    }
  }

  /**
   * Any one whitespace character separates the words before it from those
   * after it. With WordsOfToken and Words([]) == [], this fixes the words of
   * every string.
   */
  lemma WordsBreakJoin(a: string, c: char, b: string)
    requires IsPySpace(c)
    ensures Words(a + [c] + b) == Words(a) + Words(b)
  {
    WordsFromBreak([], a, c, b);
  }

  /**
   * Joining two strings with a space and splitting on whitespace splits
   * each half on its own: how an f-string command line reaches adb.
   */
  lemma WordsSpaceJoin(a: string, b: string)
    ensures Words(a + " " + b) == Words(a) + Words(b)
  {
    WordsBreakJoin(a, ' ', b);
  }

  lemma {:induction false} WordsFromToken(cur: string, t: string)
    requires NoneOf(cur, IsPySpace) && NoneOf(t, IsPySpace)
    requires cur + t != []
    ensures WordsFrom(cur, t) == [cur + t]
    decreases |t|
  {
    if t == [] {
      assert cur + t == cur;
    } else {
      assert !IsPySpace(t[0]);
      assert cur + t == (cur + [t[0]]) + t[1..];
      assert NoneOf(cur + [t[0]], IsPySpace) by {
        forall k | 0 <= k < |cur| + 1 ensures !IsPySpace((cur + [t[0]])[k]) {
          if k < |cur| { assert (cur + [t[0]])[k] == cur[k]; }
        }
      }
      WordsFromToken(cur + [t[0]], t[1..]);
    }
  }

  /** A non-empty string without whitespace is one word. */
  lemma WordsOfToken(t: string)
    requires t != [] && NoneOf(t, IsPySpace)
    ensures Words(t) == [t]
  {
    WordsFromToken([], t);
    assert [] + t == t;
  }

  /** The words of each part, in order. */
  function WordsOfEach(parts: seq<string>): seq<string>
    decreases |parts|
  {
    if parts == [] then [] else Words(parts[0]) + WordsOfEach(parts[1..])
  }

  /** Splitting parts joined by single spaces splits each part on its own. */
  lemma {:induction false} WordsUnwordsEach(parts: seq<string>)
    ensures Words(Unwords(parts)) == WordsOfEach(parts)
    decreases |parts|
  {
    if parts == [] {
    } else if |parts| == 1 {
      assert WordsOfEach(parts) == Words(parts[0]) + WordsOfEach([]);
    } else {
      assert Unwords(parts) == parts[0] + " " + Unwords(parts[1..]);
      WordsSpaceJoin(parts[0], Unwords(parts[1..]));
      WordsUnwordsEach(parts[1..]);
    }
  }

  /** Splitting words joined by single spaces gives the words back. */
  lemma {:induction false} WordsUnwords(ws: seq<string>)
    requires AreWords(ws)
    ensures Words(Unwords(ws)) == ws
    decreases |ws|
  {
    if ws == [] {
    } else if |ws| == 1 {
      WordsOfToken(ws[0]);
    } else {
      assert Unwords(ws) == ws[0] + " " + Unwords(ws[1..]);
      WordsSpaceJoin(ws[0], Unwords(ws[1..]));
      WordsOfToken(ws[0]);
      WordsUnwords(ws[1..]);
      assert ws == [ws[0]] + ws[1..];
    }
  }

  // ---------------------------------------------------------------------------
  // Lines: Python's str.splitlines()
  // ---------------------------------------------------------------------------

  /** Index of the first line break in `s`, or |s| when there is none. */
  function LineEnd(s: string): (k: nat)
    ensures k <= |s|
    ensures NoneOf(s[..k], IsLineBreak)
    ensures k < |s| ==> IsLineBreak(s[k])
    decreases |s|
  {
    if s == [] then 0
    else if IsLineBreak(s[0]) then 0
    else
      var k := 1 + LineEnd(s[1..]);
      assert forall j :: 1 <= j < k ==> s[..k][j] == s[1..][..k - 1][j - 1];
      k
  }

  /**
   * Python's s.splitlines(): the lines of `s` without their terminators;
   * "\r\n" ends one line, and a final terminator does not start an empty line.
   */
  function SplitLines(s: string): (r: seq<string>)
    ensures forall i :: 0 <= i < |r| ==> NoneOf(r[i], IsLineBreak)
    decreases |s|
  {
    if s == [] then []
    else
      var k := LineEnd(s);
      if k == |s| then
        assert s[..k] == s;
        [s]
      else
        var next := if s[k] == '\r' && k + 1 < |s| && s[k + 1] == '\n' then k + 2 else k + 1;
        [s[..k]] + SplitLines(s[next..])
  }

  lemma LineEndAt(h: string, c: char, rest: string)
    requires NoneOf(h, IsLineBreak) && IsLineBreak(c)
    ensures LineEnd(h + [c] + rest) == |h|
  {
    var s := h + [c] + rest;
    assert s[|h|] == c;
    assert s[..|h|] == h;
  }

  lemma LineEndNone(s: string)
    requires NoneOf(s, IsLineBreak)
    ensures LineEnd(s) == |s|
  {
    var k := LineEnd(s);
  }

  /** A line break-free first line followed by "\n" is the first line, whatever it holds. */
  lemma SplitLinesCons(h: string, rest: string)
    requires NoneOf(h, IsLineBreak)
    ensures SplitLines(h + "\n" + rest) == [h] + SplitLines(rest)
  {
    var s := h + "\n" + rest;
    LineEndAt(h, '\n', rest);
    assert s[..|h|] == h;
    assert s[|h| + 1..] == rest;
  }

  /** A break-free first line ends at any one line break, "\r" only when no "\n" follows it. */
  lemma SplitLinesBreak(h: string, c: char, rest: string)
    requires NoneOf(h, IsLineBreak) && IsLineBreak(c)
    requires c == '\r' ==> rest == [] || rest[0] != '\n'
    ensures SplitLines(h + [c] + rest) == [h] + SplitLines(rest)
  {
    var s := h + [c] + rest;
    LineEndAt(h, c, rest);
    assert s[..|h|] == h;
    assert s[|h| + 1..] == rest;
  }

  /** "\r\n" ends a break-free first line as a single terminator. */
  lemma SplitLinesCrLf(h: string, rest: string)
    requires NoneOf(h, IsLineBreak)
    ensures SplitLines(h + "\r\n" + rest) == [h] + SplitLines(rest)
  {
    var s := h + "\r\n" + rest;
    assert s == h + ['\r'] + ("\n" + rest);
    LineEndAt(h, '\r', "\n" + rest);
    assert s[..|h|] == h;
    assert s[|h| + 2..] == rest;
  }

  /** A non-empty text without a line break is one line: no terminator, no extra line. */
  lemma SplitLinesLast(h: string)
    requires h != [] && NoneOf(h, IsLineBreak)
    ensures SplitLines(h) == [h]
  {
    LineEndNone(h);
    assert h[..|h|] == h;
  }

  /** Lines joined by "\n" split back into the same lines, unless the last one is empty. */
  lemma {:induction false} SplitLinesJoin(lines: seq<string>)
    requires forall i :: 0 <= i < |lines| ==> NoneOf(lines[i], IsLineBreak)
    requires lines != [] ==> lines[|lines| - 1] != []
    ensures SplitLines(JoinWith(lines, '\n')) == lines
    decreases |lines|
  {
    if |lines| == 1 {
      LineEndNone(lines[0]);
      assert lines[0][..|lines[0]|] == lines[0];
    } else if |lines| > 1 {
      assert JoinWith(lines, '\n') == lines[0] + "\n" + JoinWith(lines[1..], '\n');
      SplitLinesCons(lines[0], JoinWith(lines[1..], '\n'));
      SplitLinesJoin(lines[1..]);
      assert lines == [lines[0]] + lines[1..];
    }
  }

  // ---------------------------------------------------------------------------
  // Substrings: Python's `sub in s`
  // ---------------------------------------------------------------------------

  /** `sub` occurs in `s` starting at index `i`. */
  predicate OccursAt(s: string, sub: string, i: int) {
    0 <= i && i + |sub| <= |s| && s[i..i + |sub|] == sub
  }

  /** Python's `sub in s`, read left to right. */
  function Contains(s: string, sub: string): bool
    decreases |s|
  {
    if |sub| > |s| then false
    else if s[..|sub|] == sub then true
    else Contains(s[1..], sub)
  }

  /** `sub in s` holds exactly when `sub` occurs at some position of `s`. */
  lemma {:induction false} ContainsIff(s: string, sub: string)
    ensures Contains(s, sub) <==> exists i :: OccursAt(s, sub, i)
    decreases |s|
  {
    if |sub| > |s| {
    } else if s[..|sub|] == sub {
      assert OccursAt(s, sub, 0);
    } else {
      ContainsIff(s[1..], sub);
      if Contains(s, sub) {
        var i :| OccursAt(s[1..], sub, i);
        assert s[i + 1..i + 1 + |sub|] == s[1..][i..i + |sub|];
        assert OccursAt(s, sub, i + 1);
      }
      if exists i :: OccursAt(s, sub, i) {
        var i :| OccursAt(s, sub, i);
        if i != 0 {
          assert s[1..][i - 1..i - 1 + |sub|] == s[i..i + |sub|];
          assert OccursAt(s[1..], sub, i - 1);
        }
      }
    }
  }
}
